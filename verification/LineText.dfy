/** The string scanning the descriptor parser is made of: searching, splitting,
    line iteration and trimming of the Rust standard library, on ASCII text. */
module LineText {
  import opened Common
  import opened Decimal

  /** ASCII whitespace as `is_ascii_whitespace` has it (no vertical tab). */
  predicate IsAsciiWs(c: char) {
    c == ' ' || c == '\t' || c == '\n' || c == '\U{0C}' || c == '\r'
  }

  /** The ASCII part of Unicode White_Space, which `trim` removes. */
  predicate IsWs(c: char) {
    IsAsciiWs(c) || c == '\U{0B}'
  }

  /** First position of c, or the length. */
  function Index(s: string, c: char): (i: nat)
    ensures i <= |s| && c !in s[..i]
    ensures i < |s| ==> s[i] == c
  {
    if s == "" || s[0] == c then 0
    else
      var i := 1 + Index(s[1..], c);
      assert s[..i] == [s[0]] + s[1..][..i - 1];
      i
  }

  lemma {:induction false} IndexAfter(a: string, c: char, b: string)
    requires c !in a
    ensures Index(a + b, c) == |a| + Index(b, c)
  {
    if a == "" {
      assert a + b == b;
    } else {
      assert (a + b)[1..] == a[1..] + b;
      IndexAfter(a[1..], c, b);
    }
  }

  lemma IndexAbsent(s: string, c: char)
    requires c !in s
    ensures Index(s, c) == |s|
  {
    IndexAfter(s, c, "");
    assert s + "" == s;
  }

  /** Last position of c plus one, or zero. */
  function AfterLast(s: string, c: char): (i: nat)
    ensures i <= |s| && c !in s[i..]
    ensures i > 0 ==> s[i - 1] == c
  {
    if s == "" then 0
    else if s[|s| - 1] == c then |s|
    else
      var i := AfterLast(s[..|s| - 1], c);
      assert s[i..] == s[..|s| - 1][i..] + [s[|s| - 1]];
      i
  }

  lemma {:induction false} AfterLastOf(a: string, c: char, b: string)
    requires c !in b
    ensures AfterLast(a + [c] + b, c) == |a| + 1
  {
    var s := a + [c] + b;
    if b != "" {
      assert s[..|s| - 1] == a + [c] + b[..|b| - 1];
      AfterLastOf(a, c, b[..|b| - 1]);
    }
  }

  lemma {:induction false} IndexBound(s: string, c: char, k: nat)
    requires k < |s| && s[k] == c
    ensures Index(s, c) <= k
  {
    if k > 0 { IndexBound(s[1..], c, k - 1); }
  }

  lemma {:induction false} AfterLastBound(s: string, c: char, k: nat)
    requires k < |s| && s[k] == c
    ensures AfterLast(s, c) > k
  {
    if k < |s| - 1 { AfterLastBound(s[..|s| - 1], c, k); }
  }

  /** Pieces between separators; always at least one. */
  function Split(s: string, c: char): (parts: seq<string>)
    ensures |parts| >= 1
    decreases |s|
  {
    var i := Index(s, c);
    if i == |s| then [s] else [s[..i]] + Split(s[i + 1..], c)
  }

  lemma SplitNone(s: string, c: char)
    requires c !in s
    ensures Split(s, c) == [s]
  {
    IndexAbsent(s, c);
  }

  lemma SplitFirst(a: string, c: char, b: string)
    requires c !in a
    ensures Split(a + [c] + b, c) == [a] + Split(b, c)
  {
    var s := a + [c] + b;
    assert s == a + ([c] + b);
    IndexAfter(a, c, [c] + b);
    assert s[..|a|] == a && s[|a| + 1..] == b;
  }

  lemma Regroup(w: string, x: string, y: string, z: string)
    ensures w + x + y + z == w + (x + y + z)
  {
  }

  /** At most n pieces, the last one unsplit. */
  function SplitN(s: string, n: nat, c: char): (parts: seq<string>)
    requires n >= 1
    ensures 1 <= |parts| <= n
  {
    var i := Index(s, c);
    if n == 1 || i == |s| then [s] else [s[..i]] + SplitN(s[i + 1..], n - 1, c)
  }

  lemma SplitNFirst(a: string, n: nat, c: char, b: string)
    requires n >= 2 && c !in a
    ensures SplitN(a + [c] + b, n, c) == [a] + SplitN(b, n - 1, c)
  {
    var s := a + [c] + b;
    assert s == a + ([c] + b);
    IndexAfter(a, c, [c] + b);
    assert s[..|a|] == a && s[|a| + 1..] == b;
  }

  lemma SplitNThree(a: string, b: string, d: string, c: char)
    requires c !in a && c !in b
    ensures SplitN(a + [c] + b + [c] + d, 3, c) == [a, b, d]
  {
    Regroup(a + [c], b, [c], d);
    SplitNFirst(a, 3, c, b + [c] + d);
    SplitNFirst(b, 2, c, d);
  }

  function StripCr(line: string): string {
    if line != "" && line[|line| - 1] == '\r' then line[..|line| - 1] else line
  }

  /** Lines without their `\n` or `\r\n`; no empty line after a final newline. */
  function Lines(s: string): seq<string>
    decreases |s|
  {
    if s == "" then []
    else
      var i := Index(s, '\n');
      if i == |s| then [s] else [StripCr(s[..i])] + Lines(s[i + 1..])
  }

  lemma IndexHere(s: string)
    requires s != ""
    ensures Index(s, s[0]) == 0
  {
  }

  lemma LinesStep(s: string, i: nat)
    requires i < |s| && Index(s, '\n') == i
    ensures Lines(s) == [StripCr(s[..i])] + Lines(s[i + 1..])
  {
    hide Index, StripCr;
  }

  lemma LinesFirst(a: string, b: string)
    requires '\n' !in a && (a != "" ==> a[|a| - 1] != '\r')
    ensures Lines(a + "\n" + b) == [a] + Lines(b)
  {
    hide Lines, Index;
    var s := a + "\n" + b;
    Assoc(a, "\n", b);
    IndexAfter(a, '\n', "\n" + b);
    IndexHere("\n" + b);
    assert s[..|a|] == a && s[|a| + 1..] == b;
    LinesStep(s, |a|);
  }

  function TrimLeft(s: string): string {
    if s != "" && IsWs(s[0]) then TrimLeft(s[1..]) else s
  }

  function TrimRight(s: string): string {
    if s != "" && IsWs(s[|s| - 1]) then TrimRight(s[..|s| - 1]) else s
  }

  function Trim(s: string): string {
    TrimRight(TrimLeft(s))
  }

  /** Unsigned `parse`: an optional plus, then digits, checked against the
      width of the type. */
  function ParseUnsigned(s: string, max: nat): Option<nat> {
    var t := if s != "" && s[0] == '+' then s[1..] else s;
    if t == "" || !AllDigits(t) || Value(t) > max then None else Some(Value(t))
  }

  lemma ParseDecimal(n: nat, max: nat)
    ensures ParseUnsigned(Dec(n), max) == if n <= max then Some(n) else None
  {
    ValueOfDecimal(n);
    assert IsDigit(Dec(n)[0]);
  }

  /* ---- tokens ---- */

  function SkipWs(s: string): (r: string)
    ensures |r| <= |s| && (r != "" ==> !IsAsciiWs(r[0]))
  {
    if s != "" && IsAsciiWs(s[0]) then SkipWs(s[1..]) else s
  }

  /** The token at the front of s and what follows it: it runs to whitespace
      outside double quotes; backslash escapes count inside them. */
  function TakeToken(s: string, inQuote: bool): (r: (string, string))
    ensures |r.0| + |r.1| <= |s|
    ensures s != "" && (inQuote || !IsAsciiWs(s[0])) ==> |r.1| < |s|
    decreases |s|
  {
    if s == "" || (!inQuote && IsAsciiWs(s[0])) then ("", s)
    else if s[0] == '"' then
      var r := TakeToken(s[1..], !inQuote); ("\"" + r.0, r.1)
    else if s[0] == '\\' && inQuote then
      if |s| == 1 then ("\\", "")
      else
        var r := TakeToken(s[2..], inQuote); (Unescaped(s[1]) + r.0, r.1)
    else
      var r := TakeToken(s[1..], inQuote); ([s[0]] + r.0, r.1)
  }

  /** An escape pair: `\"` and `\\` stand for the second character, any other
      pair for itself. */
  function Unescaped(c: char): string {
    if c == '"' || c == '\\' then [c] else ['\\', c]
  }

  function Tokens(s: string): seq<string>
    decreases |s|
  {
    var t := SkipWs(s);
    if t == "" then []
    else
      var r := TakeToken(t, false);
      [r.0] + Tokens(r.1)
  }

  /** `whole` is what is left to take, after `token` has been taken. */
  predicate Continues(whole: (string, string), token: string, s: string, inQuote: bool) {
    var r := TakeToken(s, inQuote);
    whole.0 == token + r.0 && whole.1 == r.1
  }

  lemma Continue(whole: (string, string), token: string, s: string, inQuote: bool)
    requires Continues(whole, token, s, inQuote)
    requires s != "" && (inQuote || !IsAsciiWs(s[0]))
    ensures if s[0] == '"' then Continues(whole, token + "\"", s[1..], !inQuote)
            else if s[0] != '\\' || !inQuote then Continues(whole, token + [s[0]], s[1..], inQuote)
            else if |s| == 1 then Continues(whole, token + "\\", s[1..], inQuote)
            else Continues(whole, token + Unescaped(s[1]), s[2..], inQuote)
  {
  }

  method ReadToken(line: string, start: nat) returns (token: string, i: nat)
    requires start < |line| && !IsAsciiWs(line[start])
    ensures start < i <= |line| && TakeToken(line[start..], false) == (token, line[i..])
  {
    i := start;
    ghost var whole := TakeToken(line[start..], false);
    var inQuote := false;
    token := "";
    assert token + whole.0 == whole.0;
    assert Continues(whole, token, line[start..], inQuote);
    hide TakeToken, Unescaped, Continues;
    while i < |line|
      invariant start <= i <= |line| && (i == start ==> !inQuote)
      invariant Continues(whole, token, line[i..], inQuote)
      decreases |line| - i
    {
      var c := line[i];
      if !inQuote && IsAsciiWs(c) { break; }
      ghost var s := line[i..];
      Continue(whole, token, s, inQuote);
      DropDrop(line, i, 1);
      if c == '"' {
        inQuote := !inQuote;
        token := token + "\"";
        i := i + 1;
      } else if c == '\\' && inQuote {
        i := i + 1;
        if i < |line| {
          DropDrop(line, i - 1, 2);
          token := token + Unescaped(line[i]);
          i := i + 1;
        } else {
          token := token + "\\";
        }
      } else {
        token := token + [c];
        i := i + 1;
      }
    }
    TokenIsWhole(whole, token, line[i..], inQuote);
  }

  lemma TokenIsWhole(whole: (string, string), token: string, s: string, inQuote: bool)
    requires Continues(whole, token, s, inQuote) && (s == "" || (!inQuote && IsAsciiWs(s[0])))
    ensures whole == (token, s)
  {
    TokenEnds(s, inQuote);
    assert token + "" == token;
  }

  lemma TokenEnds(s: string, inQuote: bool)
    requires s == "" || (!inQuote && IsAsciiWs(s[0]))
    ensures TakeToken(s, inQuote) == ("", s)
  {
  }

  method Tokenize(line: string) returns (tokens: seq<string>)
    ensures tokens == Tokens(line)
  {
    tokens := [];
    var i := 0;
    assert line[0..] == line;
    while i < |line|
      invariant i <= |line| && tokens + Tokens(line[i..]) == Tokens(line)
      decreases |line| - i
    {
      ghost var s, before := line[i..], tokens;
      while i < |line| && IsAsciiWs(line[i])
        invariant i <= |line| && SkipWs(line[i..]) == SkipWs(s)
      {
        assert line[i..][1..] == line[i + 1..];
        i := i + 1;
      }
      if i >= |line| {
        assert Tokens(s) == [];
        break;
      }
      var token;
      token, i := ReadToken(line, i);
      tokens := tokens + [token];
      assert before + Tokens(s) == before + ([token] + Tokens(line[i..]));
    }
  }

  /** Escapes resolved between the surrounding quotes. */
  function Unquoted(inner: string): string {
    if inner == "" then ""
    else if inner[0] == '\\' && |inner| > 1 then Unescaped(inner[1]) + Unquoted(inner[2..])
    else [inner[0]] + Unquoted(inner[1..])
  }

  lemma UnquoteStep(done: string, rest: string)
    requires rest != ""
    ensures if rest[0] == '\\' && |rest| > 1
            then done + Unquoted(rest) == done + Unescaped(rest[1]) + Unquoted(rest[2..])
            else done + Unquoted(rest) == done + [rest[0]] + Unquoted(rest[1..])
  {
    hide Unescaped;
    if rest[0] == '\\' && |rest| > 1 {
      Assoc(done, Unescaped(rest[1]), Unquoted(rest[2..]));
    } else {
      Assoc(done, [rest[0]], Unquoted(rest[1..]));
    }
  }

  method Unquote(s: string) returns (result: string)
    requires |s| >= 2
    ensures result == Unquoted(s[1..|s| - 1])
  {
    var inner := s[1..|s| - 1];
    result := "";
    var i := 0;
    assert inner[0..] == inner;
    while i < |inner|
      invariant i <= |inner| && result + Unquoted(inner[i..]) == Unquoted(inner)
    {
      hide Unquoted, Unescaped;
      UnquoteStep(result, inner[i..]);
      if inner[i] == '\\' && i + 1 < |inner| {
        DropDrop(inner, i, 2);
        result := result + Unescaped(inner[i + 1]);
        i := i + 2;
      } else {
        DropDrop(inner, i, 1);
        result := result + [inner[i]];
        i := i + 1;
      }
    }
    assert inner[i..] == "";
  }

  /* ---- what the printer writes, as the tokenizer sees it ---- */

  predicate IsAscii(c: char) {
    c < '\U{80}'
  }

  /** Text that is one token and survives trimming: ASCII with no whitespace
      and no quote. */
  predicate Bare(s: string) {
    forall i :: 0 <= i < |s| ==> IsAscii(s[i]) && !IsWs(s[i]) && s[i] != '"'
  }

  lemma {:induction false} TakeBare(s: string, rest: string)
    requires Bare(s) && (rest == "" || IsAsciiWs(rest[0]))
    ensures TakeToken(s + rest, false) == (s, rest)
  {
    if s == "" {
      assert s + rest == rest;
    } else {
      assert (s + rest)[1..] == s[1..] + rest;
      assert s == [s[0]] + s[1..];
      TakeBare(s[1..], rest);
    }
  }
}
