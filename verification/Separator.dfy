/** Where a `;` ends a program message unit: outside quoted strings and inline
    blocks (IEEE 488.2 sections 7.4.1, 7.7.5 and 7.7.6). The device rescans the
    retained line at each `;` (src/usbscpi.c); the specification is a one-pass
    lexer. */
module Separator {
  import opened Common
  import opened Decimal
  import opened BlockCodec

  /** What a left-to-right reader knows after a prefix of a line. */
  datatype Lexer =
    | Plain
    | Hash                                       // a `#` that may open a block
    | Quote(mark: char)
    | Length(left: nat, value: nat, ok: bool)    // inside a length field
    | Skip(left: nat)                            // inside a block payload
    | Broken                                     // after a malformed length field

  predicate IsQuote(c: char) {
    c == '\'' || c == '"'
  }

  function Open(c: char): Lexer {
    if IsQuote(c) then Quote(c) else if c == '#' then Hash else Plain
  }

  /** The state after a length field with value v. */
  function Close(v: nat, ok: bool): Lexer {
    if !ok then Broken else if v == 0 then Plain else Skip(v)
  }

  function Next(l: Lexer, c: char): Lexer {
    match l
    case Plain => Open(c)
    case Hash => if '1' <= c <= '9' then Length(DigitValue(c), 0, true) else Open(c)
    case Quote(q) => if c == q then Plain else l
    case Length(left, value, ok) =>
      var ok' := ok && IsDigit(c);
      var value' := if ok' then value * 10 + DigitValue(c) else 0;
      if left <= 1 then Close(value', ok') else Length(left - 1, value', ok')
    case Skip(left) => if left <= 1 then Plain else Skip(left - 1)
    case Broken => Broken
  }

  function Lex(l: Lexer, s: string): Lexer
    decreases |s|
  {
    if s == [] then l else Lex(Next(l, s[0]), s[1..])
  }

  /** Whether a `;` read in this state ends the unit. */
  predicate Ends(l: Lexer) {
    l.Plain? || l.Hash? || l.Broken?
  }

  lemma {:induction false} LexAppend(l: Lexer, a: string, b: string)
    ensures Lex(l, a + b) == Lex(Lex(l, a), b)
    decreases |a|
  {
    if a == [] {
      assert a + b == b;
    } else {
      assert (a + b)[1..] == a[1..] + b;
      LexAppend(Next(l, a[0]), a[1..], b);
    }
  }

  lemma LexSnoc(l: Lexer, a: string, c: char)
    ensures Lex(l, a + [c]) == Next(Lex(l, a), c)
  {
    LexAppend(l, a, [c]);
    assert [c][1..] == [];
  }

  lemma {:induction false} LexBroken(s: string)
    ensures Lex(Broken, s) == Broken
  {
    if s != [] { LexBroken(s[1..]); }
  }

  lemma {:induction false} LexSkip(n: nat, s: string)
    requires n >= 1
    ensures |s| < n ==> Lex(Skip(n), s) == Skip(n - |s|)
    ensures |s| >= n ==> Lex(Skip(n), s) == Lex(Plain, s[n..])
  {
    if s != [] {
      if n == 1 {
        assert Next(Skip(1), s[0]) == Plain;
      } else {
        LexSkip(n - 1, s[1..]);
        if |s| >= n { assert s[1..][n - 1..] == s[n..]; }
      }
    }
  }

  /** A length field of n bytes that starts with value v: undecided until its
      last byte has arrived, whatever the bytes are. */
  lemma {:induction false} LexLength(n: nat, v: nat, ok: bool, s: string)
    requires n >= 1
    ensures |s| < n ==> Lex(Length(n, v, ok), s).Length?
    ensures |s| >= n ==> Lex(Length(n, v, ok), s) == Lex(AfterLength(n, v, ok, s[..n]), s[n..])
    decreases n
  {
    hide Next, AfterLength;
    if s != [] {
      var c := s[0];
      LengthStep(n, v, ok, c);
      if n == 1 {
        assert s[..1] == [c];
      } else {
        LexLength(n - 1, NextLength(v, ok, c), ok && IsDigit(c), s[1..]);
        if |s| >= n {
          DropTake(s, 1, 0, n - 1);
          DropDrop(s, 1, n - 1);
          assert s[..n] == [c] + s[1..n];
          AfterLengthCons(n, v, ok, c, s[1..n]);
        }
      }
    }
  }

  function NextLength(v: nat, ok: bool, c: char): nat {
    if ok && IsDigit(c) then v * 10 + DigitValue(c) else 0
  }

  lemma LengthStep(n: nat, v: nat, ok: bool, c: char)
    requires n >= 1
    ensures Next(Length(n, v, ok), c) ==
            if n == 1 then AfterLength(1, v, ok, [c]) else Length(n - 1, NextLength(v, ok, c), ok && IsDigit(c))
  {
    if n == 1 && ok && IsDigit(c) {
      ValueCons(c, []);
      assert [c] + [] == [c];
      assert Pow10(1) == 10 && Pow10(0) == 1;
    }
  }

  function AfterLength(n: nat, v: nat, ok: bool, field: string): Lexer
    requires |field| == n
  {
    if ok && AllDigits(field) then Close(v * Pow10(n) + Value(field), true) else Broken
  }

  lemma AfterLengthCons(n: nat, v: nat, ok: bool, c: char, field: string)
    requires n >= 2 && |field| == n - 1
    ensures AfterLength(n - 1, NextLength(v, ok, c), ok && IsDigit(c), field)
            == AfterLength(n, v, ok, [c] + field)
  {
    if ok && IsDigit(c) && AllDigits(field) {
      ValueCons(c, field);
      assert (v * 10 + DigitValue(c)) * Pow10(n - 1) == v * (10 * Pow10(n - 1)) + DigitValue(c) * Pow10(n - 1);
    } else {
      assert ([c] + field)[0] == c;
      assert forall i :: 0 <= i < |field| ==> field[i] == ([c] + field)[i + 1];
    }
  }

  lemma {:induction false} ValueCons(c: char, s: string)
    requires IsDigit(c) && AllDigits(s)
    ensures AllDigits([c] + s) && Value([c] + s) == DigitValue(c) * Pow10(|s|) + Value(s)
  {
    var t := [c] + s;
    if s == [] {
      assert t[..0] == [];
      assert t == [c];
    } else {
      hide Pow10;
      var k := |s| - 1;
      ValueCons(c, s[..k]);
      assert t[..|t| - 1] == [c] + s[..k] && t[|t| - 1] == s[k];
      PowNext(DigitValue(c), k);
    }
  }

  lemma PowNext(d: nat, k: nat)
    ensures d * Pow10(k + 1) == d * Pow10(k) * 10
  {
  }

  /** A `#` that no digit 1-9 follows is an ordinary character. */
  lemma HashFallsThrough(s: string)
    requires s != [] && s[0] == '#'
    requires |s| >= 2 ==> !('1' <= s[1] <= '9')
    ensures Ends(Lex(Plain, s)) == Ends(Lex(Plain, s[1..]))
  {
    if |s| >= 2 {
      assert Next(Hash, s[1]) == Next(Plain, s[1]);
    }
  }

  lemma HeaderRead(s: string)
    requires |s| >= 2 && s[0] == '#' && '1' <= s[1] <= '9'
    ensures var nd := DigitValue(s[1]);
            if |s| < 2 + nd then Lex(Plain, s).Length?
            else if !AllDigits(s[2..2 + nd]) then Lex(Plain, s) == Broken
            else Lex(Plain, s) == Lex(Close(Value(s[2..2 + nd]), true), s[2 + nd..])
  {
    var nd := DigitValue(s[1]);
    var field := s[2..];
    assert s[1..][1..] == field;
    assert Next(Plain, s[0]) == Hash && Next(Hash, s[1..][0]) == Length(nd, 0, true);
    assert Lex(Plain, s) == Lex(Length(nd, 0, true), field);
    LexLength(nd, 0, true, field);
    if |s| >= 2 + nd {
      assert field[..nd] == s[2..2 + nd] && field[nd..] == s[2 + nd..];
      LexBroken(field[nd..]);
    }
  }

  function BlockVerdict(s: string): bool
    requires |s| >= 2 && '1' <= s[1] <= '9'
  {
    var nd := DigitValue(s[1]);
    if |s| < 2 + nd then false
    else if !AllDigits(s[2..2 + nd]) then true
    else
      var end := 2 + nd + Value(s[2..2 + nd]);
      |s| >= end && Verdict('\0', s[end..])
  }

  /** A `#` and a digit open a block: its header, then its payload, are passed
      over whole; a complete but malformed header makes every later `;` end. */
  lemma BlockPassedOver(s: string)
    requires |s| >= 2 && s[0] == '#' && '1' <= s[1] <= '9'
    ensures Ends(Lex(Plain, s)) == BlockVerdict(s)
  {
    hide Value, Lex;
    var nd := DigitValue(s[1]);
    HeaderRead(s);
    if |s| >= 2 + nd && AllDigits(s[2..2 + nd]) {
      var v := Value(s[2..2 + nd]);
      var rest := s[2 + nd..];
      if v > 0 {
        LexSkip(v, rest);
        if |rest| >= v { assert rest[v..] == s[2 + nd + v..]; }
      }
    }
  }

  method ReadLength(field: string) returns (ok: bool, bytes: nat)
    ensures ok == AllDigits(field)
    ensures ok ==> bytes == Value(field)
  {
    bytes := 0;
    var d := 0;
    while d < |field|
      invariant d <= |field| && AllDigits(field[..d])
      invariant bytes == Value(field[..d])
    {
      if !IsDigit(field[d]) { return false, 0; }
      ValueSnoc(field[..d], field[d]);
      assert field[..d + 1] == field[..d] + [field[d]];
      bytes := bytes * 10 + DigitValue(field[d]);
      d := d + 1;
    }
    assert field[..d] == field;
    ok := true;
  }

  /** Quotes, block headers and block payloads of the retained line, scanned
      with an index as the device does. */
  method LineSeparator(line: string) returns (r: bool)
    ensures r == Ends(Lex(Plain, line))
  {
    hide Next, Lex;
    var quote := '\0';
    var i := 0;
    assert line[0..] == line;
    while i < |line|
      invariant i <= |line|
      invariant quote == '\0' || IsQuote(quote)
      invariant Ends(Lex(Plain, line)) == Verdict(quote, line[i..])
      decreases |line| - i
    {
      ghost var s := line[i..];
      var c := line[i];
      VerdictStep(quote, s);
      DropDrop(line, i, 1);
      if quote != '\0' {
        if c == quote { quote := '\0'; }
      } else if IsQuote(c) {
        quote := c;
      } else if c == '#' && i + 1 < |line| && '1' <= line[i + 1] <= '9' {
        ghost var start := i;
        i := i + 1;
        var digits := DigitValue(line[i]);
        if digits > |line| - i - 1 { return false; }
        DropTake(line, start, 2, 2 + digits);
        var ok, bytes := ReadLength(line[i + 1..i + 1 + digits]);
        if !ok { return true; }
        i := i + digits;
        if bytes > |line| - i - 1 { return false; }
        DropDrop(line, start, 2 + digits + bytes);
        i := i + bytes;
      }
      i := i + 1;
    }
    VerdictAtEnd(quote);
    assert line[i..] == [];
    return quote == '\0';
  }

  lemma VerdictAtEnd(quote: char)
    ensures Verdict(quote, []) == (quote == '\0')
  {
  }

  /** Whether a `;` after s ends the unit, for a reader inside `quote` or, when
      that is NUL, outside any quoted string. */
  function Verdict(quote: char, s: string): bool {
    Ends(Lex(if quote == '\0' then Plain else Quote(quote), s))
  }

  lemma VerdictStep(quote: char, s: string)
    requires s != [] && (quote == '\0' || IsQuote(quote))
    ensures Verdict(quote, s) ==
            if quote != '\0' then Verdict(if s[0] == quote then '\0' else quote, s[1..])
            else if IsQuote(s[0]) then Verdict(s[0], s[1..])
            else if s[0] == '#' && |s| >= 2 && '1' <= s[1] <= '9' then BlockVerdict(s)
            else Verdict('\0', s[1..])
  {
    if quote == '\0' && s[0] == '#' {
      if |s| >= 2 && '1' <= s[1] <= '9' { BlockPassedOver(s); } else { HashFallsThrough(s); }
    }
  }
}
