/** What the small scanners of both ends accept, said without how they scan: blanks
    and line ends, numbers, the write prefix, the error entry and the case of
    headers. */
module TextExact {
  import opened Ascii
  import opened Common
  import opened Decimal
  import opened LineText
  import Rx = RxEngine
  import Session
  import EditDistance

  // Trimming

  const WHITE := " \t\n\r" + ['\U{0B}', '\U{0C}']

  predicate AllWhite(s: string) {
    forall i :: 0 <= i < |s| ==> s[i] in WHITE
  }

  /** Neither end is white. */
  predicate Solid(s: string) {
    s != "" ==> s[0] !in WHITE && s[|s| - 1] !in WHITE
  }

  lemma WhiteIs(c: char)
    ensures IsWs(c) <==> c in WHITE
    ensures Rx.IsSpace(c) <==> c in WHITE
  {
  }

  lemma {:induction false} LeftExact(s: string) returns (left: string)
    ensures AllWhite(left) && s == left + TrimLeft(s) && (TrimLeft(s) != "" ==> TrimLeft(s)[0] !in WHITE)
    ensures Rx.StripLeft(s) == TrimLeft(s)
    decreases |s|
  {
    hide IsWs, Rx.IsSpace;
    left := "";
    if s != "" {
      WhiteIs(s[0]);
      if IsWs(s[0]) {
        var more := LeftExact(s[1..]);
        left := [s[0]] + more;
      }
    }
  }

  lemma {:induction false} RightExact(s: string) returns (right: string)
    ensures AllWhite(right) && s == TrimRight(s) + right
    ensures TrimRight(s) != "" ==> TrimRight(s)[|TrimRight(s)| - 1] !in WHITE
    decreases |s|
  {
    hide IsWs;
    right := "";
    if s != "" {
      WhiteIs(s[|s| - 1]);
      if IsWs(s[|s| - 1]) {
        var more := RightExact(s[..|s| - 1]);
        right := more + [s[|s| - 1]];
        assert s == s[..|s| - 1] + [s[|s| - 1]];
      }
    }
  }

  /** Trimming takes white space off both ends, all of it and nothing else. */
  lemma TrimExact(s: string) returns (left: string, right: string)
    ensures AllWhite(left) && AllWhite(right) && Solid(Trim(s)) && s == left + Trim(s) + right
  {
    left := LeftExact(s);
    right := RightExact(TrimLeft(s));
    hide TrimLeft, TrimRight;
    Assoc(left, Trim(s), right);
  }

  /** So do the line ends, at the end. */
  lemma {:induction false} EolExact(s: string) returns (ends: string)
    ensures s == Session.TrimEol(s) + ends && forall i :: 0 <= i < |ends| ==> ends[i] == '\r' || ends[i] == '\n'
    ensures var t := Session.TrimEol(s); t != "" ==> t[|t| - 1] != '\r' && t[|t| - 1] != '\n'
    decreases |s|
  {
    ends := "";
    if s != "" && Session.IsEol(s[|s| - 1]) {
      var more := EolExact(s[..|s| - 1]);
      ends := more + [s[|s| - 1]];
      assert s == s[..|s| - 1] + [s[|s| - 1]];
    }
  }

  // Numbers

  /** Digits, at least one, that denote n. */
  predicate Denotes(d: string, n: nat) {
    d != "" && AllDigits(d) && Value(d) == n
  }

  /** An unsigned number: digits, with or without a plus, within the bound. */
  lemma UnsignedExact(s: string, max: nat, n: nat)
    ensures ParseUnsigned(s, max) == Some(n) <==>
      n <= max && (Denotes(s, n) || (s != "" && s[0] == '+' && Denotes(s[1..], n)))
  {
    hide Value;
    assert AllDigits(s) && s != "" ==> IsDigit(s[0]);
  }

  /** A signed one: a minus as well, and the range of 32 bits. */
  lemma SignedExact(s: string, n: int)
    ensures Session.ParseI32(s) == Some(n) <==>
      -0x8000_0000 <= n <= 0x7FFF_FFFF &&
      ((n >= 0 && Denotes(s, n)) || (n >= 0 && s != "" && s[0] == '+' && Denotes(s[1..], n))
       || (n <= 0 && s != "" && s[0] == '-' && Denotes(s[1..], -n)))
  {
    if n >= 0 { UnsignedExact(s, 0x7FFF_FFFF, n); }
    hide Value, Denotes, ParseUnsigned;
    SignedCases(s, n);
  }

  lemma SignedCases(s: string, n: int)
    ensures s != "" && s[0] == '-' ==>
      (Session.ParseI32(s) == Some(n) <==> -0x8000_0000 <= n <= 0 && Denotes(s[1..], -n)) && (n >= 0 ==> !Denotes(s, n))
    ensures !(s != "" && s[0] == '-') ==>
      (Session.ParseI32(s) == Some(n) <==> n >= 0 && ParseUnsigned(s, 0x7FFF_FFFF) == Some(n))
  {
    hide Value;
    assert AllDigits(s) && s != "" ==> IsDigit(s[0]);
  }

  // The error entry

  /** A line is an entry exactly when it is UTF-8 and, its line ends dropped, a
      signed number, a comma and a text in quotes, with white space about them. */
  lemma EntryExact(line: string, utf8: string -> bool, e: Session.ScpiError)
    ensures Session.ParseEntry(line, utf8) == Some(e) <==>
      utf8(line) &&
      var text := Session.TrimEol(line);
      ',' in text &&
      var comma := Index(text, ',');
      Session.ParseI32(Trim(text[..comma])) == Some(e.code) && Trim(text[comma + 1..]) == "\"" + e.message + "\""
  {
    hide Trim, Session.TrimEol, Session.ParseI32, Index;
    var text := Session.TrimEol(line);
    var comma := Index(text, ',');
    assert text[..|text|] == text;
    if comma < |text| { QuotedExact(Trim(text[comma + 1..]), e.message); }
  }

  /** The drain ends at code 0, and at the text of an empty queue in any case. */
  lemma NoErrorExact(e: Session.ScpiError)
    ensures Session.IsNoError(e) <==> e.code == 0 || Uppercase(e.message) == Uppercase("No error")
  {
    assert Uppercase("No error") == "NO ERROR";
  }

  /** The drain takes any text for an entry: what stands before the comma is the code, or
      -1 if that is no number, what stands behind it the message, its quotes dropped. */
  lemma LenientExact(text: string)
    ensures var e := Session.QueueEntry(text);
      var code := Session.ParseI32(Trim(if ',' in text then text[..Index(text, ',')] else text));
      && (code.Some? ==> e.code == code.value) && (code.None? ==> e.code == -1)
      && (',' !in text ==> e.message == "")
  {
    hide Trim, Session.ParseI32, Index;
    assert text[..|text|] == text;
    assert Trim("") == "" by { NothingTrimmed(); }
  }

  lemma NothingTrimmed()
    ensures Trim("") == ""
  {
  }

  lemma QuotedExact(s: string, m: string)
    ensures s == "\"" + m + "\"" <==> |s| >= 2 && s[0] == '"' && s[|s| - 1] == '"' && s[1..|s| - 1] == m
  {
    if |s| >= 2 && s[0] == '"' && s[|s| - 1] == '"' && s[1..|s| - 1] == m {
      assert s == [s[0]] + s[1..|s| - 1] + [s[|s| - 1]];
    }
  }

  // The write prefix

  /** The engine takes for the write prefix exactly blanks, perhaps a colon, and the
      word with one blank, in any case. */
  lemma PrefixExact(line: string)
    ensures Rx.IsWritePrefix(line) <==>
      exists blanks, colon, word :: line == blanks + colon + word && AllWhite(blanks)
        && (colon == "" || colon == ":") && Uppercase(word) == "DATA:WRITE "
  {
    var left := LeftExact(line);
    var s := Rx.StripLeft(line);
    hide Rx.StripLeft, AllWhite, TrimLeft;
    if Rx.IsWritePrefix(line) {
      if Uppercase(s) == ":" + Rx.WRITE_PREFIX {
        assert Uppercase(s)[0] == ':' && Upper(s[0]) == ':';
        assert s == ":" + s[1..] && Uppercase(s[1..]) == Uppercase(s)[1..] == "DATA:WRITE ";
        Assoc(left, ":", s[1..]);
        assert line == left + ":" + s[1..];
      } else {
        assert line == left + "" + s;
      }
    } else {
      forall blanks: string, colon: string, word: string
        | line == blanks + colon + word && AllWhite(blanks) && (colon == "" || colon == ":")
        ensures Uppercase(word) != "DATA:WRITE "
      {
        if Uppercase(word) == "DATA:WRITE " {
          PrefixStripped(blanks, colon, word);
          Assoc(blanks, colon, word);
        }
      }
    }
  }

  lemma PrefixStripped(blanks: string, colon: string, word: string)
    requires AllWhite(blanks) && (colon == "" || colon == ":") && Uppercase(word) == "DATA:WRITE "
    ensures Rx.StripLeft(blanks + (colon + word)) == colon + word && Rx.IsWritePrefix(blanks + (colon + word))
  {
    var t := colon + word;
    assert Uppercase(word)[0] == 'D' && Upper(word[0]) == 'D';
    BlanksStripped(blanks, t);
    assert Uppercase(t) == if colon == "" then "DATA:WRITE " else ":" + "DATA:WRITE ";
  }

  lemma {:induction false} BlanksStripped(blanks: string, t: string)
    requires AllWhite(blanks) && (t != "" ==> t[0] !in WHITE)
    ensures Rx.StripLeft(blanks + t) == t
    decreases |blanks|
  {
    hide Rx.IsSpace;
    if blanks == "" {
      assert blanks + t == t;
      if t != "" { WhiteIs(t[0]); }
    } else {
      WhiteIs(blanks[0]);
      assert (blanks + t)[1..] == blanks[1..] + t;
      BlanksStripped(blanks[1..], t);
    }
  }

  // Letters

  const LOWER := "abcdefghijklmnopqrstuvwxyz"
  const UPPER := "ABCDEFGHIJKLMNOPQRSTUVWXYZ"

  lemma Alphabet()
    ensures |LOWER| == |UPPER| == 26
    ensures forall i :: 0 <= i < 26 ==> LOWER[i] as int == 97 + i && UPPER[i] as int == 65 + i
  {
  }

  lemma LowerIs(c: char)
    ensures c in LOWER <==> 97 <= c as int <= 122
  {
    hide *;
    Alphabet();
    if 97 <= c as int <= 122 {
      assert LOWER[c as int - 97] as int == c as int;
      assert LOWER[c as int - 97] == c;
    }
  }

  /** Upper case goes by the alphabet; anything else is left alone. */
  lemma UpperExact(c: char, i: nat)
    ensures c !in LOWER ==> Upper(c) == c
    ensures i < |LOWER| && |UPPER| == |LOWER| && c == LOWER[i] ==> Upper(c) == UPPER[i]
  {
    LowerIs(c);
    UpperRange(c);
    hide *;
    Alphabet();
    if i < |LOWER| && c == LOWER[i] {
      assert Upper(c) as int == UPPER[i] as int;
    }
  }

  lemma UpperRange(c: char)
    ensures Upper(c) as int == if 97 <= c as int <= 122 then c as int - 32 else c as int
    ensures EditDistance.Kept(c) == if 97 <= c as int <= 122 then "" else [c]
  {
  }

  /** A short form leaves the lower-case letters out and keeps the rest. */
  lemma ShortFormExact(s: string)
    ensures EditDistance.ShortForm("") == ""
    ensures s != "" ==> EditDistance.ShortForm(s) == (if s[0] in LOWER then "" else [s[0]]) + EditDistance.ShortForm(s[1..])
  {
    if s != "" {
      LowerIs(s[0]);
      UpperRange(s[0]);
      hide EditDistance.Kept;
    }
  }
}
