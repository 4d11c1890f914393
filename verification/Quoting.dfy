/** Quoted values as the device writes them and the host reads them: the device
    writes the text between two quotes as it is; the host resolves escapes twice,
    in the tokenizer and again in `unquote`. */
module Quoting {
  import opened Common
  import opened LineText
  import opened DescriptorParser

  /** What an escape pair drops a character of. */
  predicate IsSpecial(c: char) {
    c == '"' || c == '\\'
  }

  /** No backslash stands before a backslash or a quote. */
  predicate NoPair(s: string) {
    forall i :: 0 <= i < |s| - 1 && s[i] == '\\' ==> !IsSpecial(s[i + 1])
  }

  /** A text that `inQuote` says stands inside quotes, and that a quote follows,
      is read back as it is: no backslash before a backslash or a quote, the
      closing one included; white space only inside quotes; and the quotes in it
      leave the closing one to close, unless it is the `last` of the line. */
  predicate Survives(s: string, inQuote: bool, last: bool) {
    if s == "" then inQuote || last
    else if s[0] == '"' then Survives(s[1..], !inQuote, last)
    else if s[0] == '\\' then
      (if |s| == 1 then !inQuote else !IsSpecial(s[1])) && Survives(s[1..], inQuote, last)
    else (inQuote || !IsAsciiWs(s[0])) && Survives(s[1..], inQuote, last)
  }

  /** The same for a text that no quotes are put round: it ends outside quotes,
      unless it is the `last` of the line; escapes count only inside them. */
  predicate Loose(s: string, inQuote: bool, last: bool) {
    if s == "" then !inQuote || last
    else if s[0] == '"' then Loose(s[1..], !inQuote, last)
    else if s[0] == '\\' && inQuote then
      (|s| > 1 ==> !IsSpecial(s[1])) && Loose(s[1..], inQuote, last)
    else (inQuote || !IsAsciiWs(s[0])) && Loose(s[1..], inQuote, last)
  }

  /* ---- unquoting ---- */

  lemma {:induction false} UnquotedShorter(s: string)
    ensures |Unquoted(s)| <= |s|
  {
    if s == "" {
    } else if s[0] == '\\' && |s| > 1 {
      UnquotedShorter(s[2..]);
    } else {
      UnquotedShorter(s[1..]);
    }
  }

  lemma SameTail(a: string, b: string, k: nat)
    requires k <= |a| && k <= |b| && a[..k] == b[..k]
    ensures a == b <==> a[k..] == b[k..]
  {
    assert a == a[..k] + a[k..] && b == b[..k] + b[k..];
  }

  /** Unescaping leaves a text alone exactly when no backslash stands before a
      backslash or a quote. */
  lemma {:induction false} UnquotedExact(s: string)
    ensures Unquoted(s) == s <==> NoPair(s)
  {
    if s == "" {
    } else if s[0] == '\\' && |s| > 1 {
      UnquotedExact(s[2..]);
      UnquotedShorter(s[2..]);
      if !IsSpecial(s[1]) {
        assert Unquoted(s)[2..] == Unquoted(s[2..]);
        SameTail(Unquoted(s), s, 2);
        forall i | 0 <= i < |s| - 1 && s[i] == '\\' && NoPair(s[2..]) ensures !IsSpecial(s[i + 1]) {
          if i >= 2 { assert s[2..][i - 2] == '\\' && s[2..][i - 1] == s[i + 1]; }
        }
        forall i | 0 <= i < |s[2..]| - 1 && s[2..][i] == '\\' && NoPair(s) ensures !IsSpecial(s[2..][i + 1]) {
          assert s[i + 2] == '\\' && s[i + 3] == s[2..][i + 1];
        }
      }
    } else {
      UnquotedExact(s[1..]);
      assert Unquoted(s)[1..] == Unquoted(s[1..]);
      SameTail(Unquoted(s), s, 1);
      NoPairTail(s);
    }
  }

  lemma NoPairTail(s: string)
    requires s != "" && (s[0] != '\\' || |s| == 1 || !IsSpecial(s[1]))
    ensures NoPair(s) <==> NoPair(s[1..])
  {
    forall i | 0 <= i < |s| - 1 && s[i] == '\\' && NoPair(s[1..]) ensures !IsSpecial(s[i + 1]) {
      if i >= 1 { assert s[1..][i - 1] == '\\' && s[1..][i] == s[i + 1]; }
    }
    forall i | 0 <= i < |s[1..]| - 1 && s[1..][i] == '\\' && NoPair(s) ensures !IsSpecial(s[1..][i + 1]) {
      assert s[i + 1] == '\\' && s[i + 2] == s[1..][i + 1];
    }
  }

  /* ---- one quoted value on a line ---- */

  lemma {:induction false} SurvivorHasNoPair(s: string, inQuote: bool, last: bool)
    requires Survives(s, inQuote, last)
    ensures NoPair(s)
  {
    if s != "" {
      SurvivorHasNoPair(s[1..], if s[0] == '"' then !inQuote else inQuote, last);
      NoPairTail(s);
    }
  }

  lemma Shift(s: string, rest: string, k: nat)
    requires k <= |s|
    ensures (s + "\"" + rest)[k..] == s[k..] + "\"" + rest
    ensures s + "\"" == s[..k] + (s[k..] + "\"")
  {
  }

  /** A quote turns quoting round. */
  lemma TakeQuote(inQuote: bool, t: string)
    ensures var x := TakeToken(t, !inQuote); TakeToken("\"" + t, inQuote) == ("\"" + x.0, x.1)
  {
    assert ("\"" + t)[1..] == t;
  }

  lemma LastQuote(inQuote: bool, rest: string)
    requires rest == "" || (inQuote && IsAsciiWs(rest[0]))
    ensures TakeToken("\"" + rest, inQuote) == ("\"", rest)
  {
    TakeQuote(inQuote, rest);
    TokenEnds(rest, !inQuote);
    assert "\"" + "" == "\"";
  }

  lemma {:induction false} SurvivorTaken(s: string, inQuote: bool, rest: string)
    requires rest == "" || IsAsciiWs(rest[0])
    requires Survives(s, inQuote, rest == "")
    ensures TakeToken(s + "\"" + rest, inQuote) == (s + "\"", rest)
  {
    var t := s + "\"" + rest;
    if s == "" {
      LastQuote(inQuote, rest);
      assert t == "\"" + rest;
    } else if s[0] == '\\' && inQuote {
      Shift(s, rest, 2);
      assert s[1..][1..] == s[2..];
      assert t[1] == s[1] && s[..2] == ['\\', s[1]];
      SurvivorTaken(s[2..], inQuote, rest);
    } else {
      Shift(s, rest, 1);
      assert s[..1] == [s[0]];
      SurvivorTaken(s[1..], if s[0] == '"' then !inQuote else inQuote, rest);
    }
  }

  lemma {:induction false} TakenSurvives(s: string, inQuote: bool, rest: string)
    requires rest == "" || IsAsciiWs(rest[0])
    requires TakeToken(s + "\"" + rest, inQuote) == (s + "\"", rest) && NoPair(s)
    ensures Survives(s, inQuote, rest == "")
  {
    var t := s + "\"" + rest;
    if s == "" {
      assert t[1..] == rest;
    } else if s[0] == '\\' && inQuote {
      Shift(s, rest, |s|);
      assert t[0] == '\\' && t[1] == if |s| == 1 then '"' else s[1];
      assert (s + "\"")[0] == '\\';
      assert |s| > 1 && !IsSpecial(s[1]);
      Shift(s, rest, 2);
      NoPairTail(s);
      NoPairTail(s[1..]);
      assert s[1..][1..] == s[2..];
      assert (s + "\"")[2..] == s[2..] + "\"";
      TakenSurvives(s[2..], inQuote, rest);
    } else {
      Shift(s, rest, 1);
      assert (s + "\"")[1..] == s[1..] + "\"";
      NoPairTail(s);
      TakenSurvives(s[1..], if s[0] == '"' then !inQuote else inQuote, rest);
    }
  }

  /** What does not close with a quote is never the whole text. */
  lemma {:induction false} NeverOneShort(s: string, inQuote: bool, rest: string)
    ensures "\"" + TakeToken(s + "\"" + rest, inQuote).0 != s
  {
    var t := s + "\"" + rest;
    var x := TakeToken(t, inQuote).0;
    if s != "" && s == "\"" + x {
      Shift(s, rest, 1);
      assert s[1..] == x;
      NeverOneShort(s[1..], !inQuote, rest);
    }
  }

  /** A bare character passes into the token. */
  lemma TakeOne(c: char, t: string)
    requires Bare([c])
    ensures TakeToken([c] + t, false) == ([c] + TakeToken(t, false).0, TakeToken(t, false).1)
  {
    assert ([c] + t)[1..] == t;
  }

  lemma {:induction false} BareFront(key: string, t: string)
    requires Bare(key)
    ensures TakeToken(key + t, false) == (key + TakeToken(t, false).0, TakeToken(t, false).1)
  {
    hide TakeToken;
    var x := TakeToken(t, false).0;
    if key == "" {
      assert key + t == t && key + x == x;
    } else {
      TakeOne(key[0], key[1..] + t);
      assert key + t == [key[0]] + (key[1..] + t);
      BareFront(key[1..], t);
      assert key + x == [key[0]] + (key[1..] + x);
    }
  }

  lemma TokenFront(key: string, t: string)
    requires Bare(key)
    ensures TakeToken(key + ("\"" + t), false) == (key + ("\"" + TakeToken(t, true).0), TakeToken(t, true).1)
  {
    hide TakeToken;
    BareFront(key, "\"" + t);
    TakeQuote(false, t);
  }

  lemma ValueOf(key: string, value: string)
    requires '=' !in key
    ensures PairOf(key + "=" + value) == [(key, StripQuotes(value))]
  {
    var token := key + (['='] + value);
    assert token == key + "=" + value;
    IndexAfter(key, '=', ['='] + value);
    assert token[..|key|] == key && token[|key| + 1..] == value;
  }

  lemma StripWhole(x: string)
    ensures StripQuotes("\"" + (x + "\"")) == Unquoted(x)
  {
    var v := "\"" + (x + "\"");
    assert v[1..|v| - 1] == x;
  }

  lemma OnlyQuotedShrinks(x: string)
    ensures StripQuotes("\"" + x) != "\"" + x ==> x != "" && x[|x| - 1] == '"'
  {
  }

  /** The front of a line that starts with a quoted value. */
  lemma ValueFront(key: string, t: string)
    requires Bare(key) && '=' !in key
    ensures var r, x := TakeToken(key + "=" + ("\"" + t), false), TakeToken(t, true);
            r.1 == x.1 && PairOf(r.0) == [(key, StripQuotes("\"" + x.0))]
  {
    hide TakeToken, PairOf, StripQuotes;
    TokenFront(key + "=", t);
    ValueOf(key, "\"" + TakeToken(t, true).0);
  }

  /** With the printed value at the front, the rest of the line is found again
      and the value unquotes to the text. */
  predicate ReadsBack(key: string, s: string, rest: string) {
    var r := TakeToken(key + "=" + ("\"" + (s + "\"" + rest)), false);
    r.1 == rest && PairOf(r.0) == [(key, s)]
  }

  /** A quoted value printed on a line is read back exactly when its text
      survives: white space, quotes and backslashes included. */
  lemma QuotedExact(key: string, s: string, rest: string)
    requires Bare(key) && '=' !in key && (rest == "" || IsAsciiWs(rest[0]))
    ensures ReadsBack(key, s, rest) <==> Survives(s, true, rest == "")
  {
    hide TakeToken, Survives, Unquoted, NoPair, StripQuotes, PairOf;
    ValueFront(key, s + "\"" + rest);
    var x := TakeToken(s + "\"" + rest, true);
    if Survives(s, true, rest == "") {
      SurvivorTaken(s, true, rest);
      SurvivorHasNoPair(s, true, rest == "");
      UnquotedExact(s);
      StripWhole(s);
    } else if x.1 == rest && StripQuotes("\"" + x.0) == s {
      NeverOneShort(s, true, rest);
      OnlyQuotedShrinks(x.0);
      var y := x.0[..|x.0| - 1];
      assert x.0 == y + "\"";
      StripWhole(y);
      assert "\"" + (y + "\"") == "\"" + x.0;
      UnquotedShorter(y);
      assert |y| == |s|;
      UnquotedAlone(y);
      UnquotedExact(s);
      TakenSurvives(s, true, rest);
    }
  }

  /** Unescaping that drops no character changes none. */
  lemma {:induction false} UnquotedAlone(s: string)
    requires |Unquoted(s)| == |s|
    ensures Unquoted(s) == s
  {
    if s == "" {
    } else if s[0] == '\\' && |s| > 1 {
      UnquotedShorter(s[2..]);
      UnquotedAlone(s[2..]);
    } else {
      UnquotedAlone(s[1..]);
    }
  }

  /** Without quotes in it, a text survives exactly when each backslash is
      followed by something other than a backslash. */
  lemma {:induction false} PlainSurvives(s: string, last: bool)
    requires '"' !in s
    ensures Survives(s, true, last) <==>
            forall i :: 0 <= i < |s| && s[i] == '\\' ==> i + 1 < |s| && s[i + 1] != '\\'
  {
    if s != "" {
      var t := s[1..];
      PlainSurvives(t, last);
      if forall i :: 0 <= i < |t| && t[i] == '\\' ==> i + 1 < |t| && t[i + 1] != '\\' {
        assert forall i :: 1 <= i < |s| ==> s[i] == t[i - 1];
      } else {
        var i :| 0 <= i < |t| && t[i] == '\\' && !(i + 1 < |t| && t[i + 1] != '\\');
        assert s[i + 1] == '\\';
      }
    }
  }

  /* ---- one unquoted value on a line ---- */

  lemma {:induction false} LooseTaken(s: string, inQuote: bool, rest: string)
    requires rest == "" || IsAsciiWs(rest[0])
    requires Loose(s, inQuote, rest == "")
    ensures TakeToken(s + rest, inQuote) == (s, rest)
  {
    var t := s + rest;
    if s == "" {
      assert t == rest;
      TokenEnds(rest, inQuote && rest == "");
    } else if s[0] == '\\' && inQuote && |s| > 1 {
      DropOfAppend(s, rest, 2);
      assert s[1..][1..] == s[2..];
      assert t[1] == s[1] && s == ['\\', s[1]] + s[2..];
      assert Unescaped(s[1]) == ['\\', s[1]];
      LooseTaken(s[2..], inQuote, rest);
    } else if s[0] == '\\' && inQuote {
      assert s[1..] == "" && t == s == "\\";
    } else {
      DropOfAppend(s, rest, 1);
      assert s == [s[0]] + s[1..];
      LooseTaken(s[1..], if s[0] == '"' then !inQuote else inQuote, rest);
    }
  }

  lemma {:induction false} TakenIsLoose(s: string, inQuote: bool, rest: string)
    requires rest == "" || IsAsciiWs(rest[0])
    requires TakeToken(s + rest, inQuote) == (s, rest)
    ensures Loose(s, inQuote, rest == "")
  {
    var t := s + rest;
    if s == "" {
      assert t == rest;
    } else if s[0] == '\\' && inQuote && |s| > 1 {
      DropOfAppend(s, rest, 2);
      assert s[1..][1..] == s[2..];
      assert t[0] == s[0] && t[1] == s[1];
      PairKept(t, s, rest);
      TakenIsLoose(s[2..], inQuote, rest);
    } else if s[0] == '\\' && inQuote {
      assert t == "\\" + rest;
    } else {
      DropOfAppend(s, rest, 1);
      assert t[0] == s[0];
      TakenIsLoose(s[1..], if s[0] == '"' then !inQuote else inQuote, rest);
    }
  }

  /** A token that begins with an escape pair as it was written. */
  lemma PairKept(t: string, s: string, rest: string)
    requires |t| > 1 && t[0] == '\\' && |s| > 1 && t[1] == s[1] && |t| == |s| + |rest|
    requires TakeToken(t, true) == (s, rest)
    ensures !IsSpecial(s[1]) && TakeToken(t[2..], true) == (s[2..], rest)
  {
    var x := TakeToken(t[2..], true);
    assert s == Unescaped(t[1]) + x.0;
    assert |x.0| + |rest| <= |t| - 2;
    assert |Unescaped(t[1])| == 2;
    assert s[2..] == x.0;
  }

  lemma {:induction false} StripShortens(v: string)
    ensures |StripQuotes(v)| <= |v| && (InQuotes(v) ==> |StripQuotes(v)| <= |v| - 2)
  {
    if InQuotes(v) { UnquotedShorter(v[1..|v| - 1]); }
  }

  lemma BareValueFront(key: string, t: string)
    requires Bare(key) && '=' !in key
    ensures var r, x := TakeToken(key + "=" + t, false), TakeToken(t, false);
            r.1 == x.1 && r.0 == key + "=" + x.0 && PairOf(r.0) == [(key, StripQuotes(x.0))]
  {
    hide TakeToken, PairOf, StripQuotes;
    BareFront(key + "=", t);
    ValueOf(key, TakeToken(t, false).0);
  }

  /** A value printed without quotes is read back exactly when the scan admits it
      and it does not itself look quoted: white space between quotes of its own,
      and a lone quote in the last value of a line, included. */
  lemma LooseExact(key: string, s: string, rest: string)
    requires Bare(key) && '=' !in key && (rest == "" || IsAsciiWs(rest[0]))
    ensures var r := TakeToken(key + "=" + (s + rest), false);
            r.1 == rest && PairOf(r.0) == [(key, s)] <==> Loose(s, false, rest == "") && !InQuotes(s)
  {
    hide TakeToken, PairOf, Loose;
    BareValueFront(key, s + rest);
    var x := TakeToken(s + rest, false);
    StripShortens(x.0);
    if Loose(s, false, rest == "") && !InQuotes(s) {
      LooseTaken(s, false, rest);
    } else if x.1 == rest && StripQuotes(x.0) == s {
      TakenIsLoose(s, false, rest);
    }
  }

  /** A name, which stands alone after the tag, under the same condition. */
  lemma NameExact(s: string, rest: string)
    requires rest == "" || IsAsciiWs(rest[0])
    ensures var x := TakeToken(s + rest, false);
            x.1 == rest && StripQuotes(x.0) == s <==> Loose(s, false, rest == "") && !InQuotes(s)
  {
    hide TakeToken, Loose;
    var x := TakeToken(s + rest, false);
    StripShortens(x.0);
    if Loose(s, false, rest == "") && !InQuotes(s) {
      LooseTaken(s, false, rest);
    } else if x.1 == rest && StripQuotes(x.0) == s {
      TakenIsLoose(s, false, rest);
    }
  }

  /* ---- a printer that escapes ---- */

  /** The text with a backslash before each backslash and quote, which is how
      the tokenizer wants them written. */
  function Escaped(s: string): string {
    if s == "" then ""
    else (if IsSpecial(s[0]) then ['\\', s[0]] else [s[0]]) + Escaped(s[1..])
  }

  lemma {:induction false} EscapedTaken(s: string, rest: string)
    requires rest == "" || IsAsciiWs(rest[0])
    ensures TakeToken(Escaped(s) + "\"" + rest, true) == (s + "\"", rest)
  {
    var t := Escaped(s) + "\"" + rest;
    if s == "" {
      assert t[1..] == rest && s + "\"" == "\"" + "";
      assert TakeToken(rest, false) == ("", rest);
    } else {
      var k := if IsSpecial(s[0]) then 2 else 1;
      assert Escaped(s)[k..] == Escaped(s[1..]);
      Shift(Escaped(s), rest, k);
      EscapedTaken(s[1..], rest);
      assert s + "\"" == [s[0]] + (s[1..] + "\"");
    }
  }

  /** A value printed with escapes is unescaped twice: it comes back exactly when
      no backslash of the text stands before a backslash or a quote. */
  lemma EscapedExact(key: string, s: string, rest: string)
    requires Bare(key) && '=' !in key && (rest == "" || IsAsciiWs(rest[0]))
    ensures var r := TakeToken(key + "=" + ("\"" + (Escaped(s) + "\"" + rest)), false);
            r.1 == rest && PairOf(r.0) == [(key, Unquoted(s))] && (Unquoted(s) == s <==> NoPair(s))
  {
    hide TakeToken, PairOf, StripQuotes, Escaped, Unquoted;
    EscapedTaken(s, rest);
    ValueFront(key, Escaped(s) + "\"" + rest);
    StripWhole(s);
    UnquotedExact(s);
  }

  /** Two backslashes, escaped as four, are read as one. */
  lemma TwoBackslashes(rest: string)
    requires rest == "" || IsAsciiWs(rest[0])
    ensures Escaped("\\\\") == "\\\\\\\\"
    ensures PairOf(TakeToken("summary" + "=" + ("\"" + ("\\\\\\\\" + "\"" + rest)), false).0) == [("summary", "\\")]
  {
    var two := "\\\\";
    assert two[1..] == "\\" && two[2..] == "" && "\\"[1..] == "";
    assert Escaped("\\") == "\\\\";
    assert Unquoted(two) == "\\";
    hide TakeToken, PairOf, StripQuotes, Unquoted;
    EscapedExact("summary", two, rest);
  }
}
