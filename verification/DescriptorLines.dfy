/** The lines of the descriptor text as the host takes them apart: records are
    lines, a line is a tag, perhaps a name, and items, and an item is a token that
    holds a key and a value. */
module DescriptorLines {
  import opened Common
  import opened LineText
  import opened Quoting
  import opened DescriptorPrinter
  import opened DescriptorParser

  /* ---- what can stand where ---- */

  predicate Plain(s: string) {
    forall i :: 0 <= i < |s| ==> IsAscii(s[i]) && s[i] != '\n'
  }

  predicate Trimmed(s: string) {
    s == "" || !IsWs(s[|s| - 1])
  }

  /** Text that can stand unquoted, as the `last` of its line or not. */
  predicate StandsBare(s: string, last: bool) {
    Plain(s) && Loose(s, false, last) && !InQuotes(s) && (last ==> Trimmed(s))
  }

  predicate Stands(it: Item, last: bool) {
    if it.quoted then Plain(it.value) && Survives(it.value, true, last) else StandsBare(it.value, last)
  }

  /** Every value can stand where it stands on the line. */
  predicate StandingItems(items: seq<Item>) {
    forall i :: 0 <= i < |items| ==> Stands(items[i], i == |items| - 1)
  }

  predicate StandingName(s: string, last: bool) {
    s != "" && StandsBare(s, last)
  }

  predicate GoodKey(key: string) {
    key != "" && Bare(key) && '=' !in key
  }

  predicate GoodKeys(items: seq<Item>) {
    forall i :: 0 <= i < |items| ==> GoodKey(items[i].key)
  }

  predicate GoodItems(items: seq<Item>) {
    GoodKeys(items) && StandingItems(items)
  }

  lemma GoodTail(items: seq<Item>)
    requires GoodItems(items) && items != []
    ensures GoodItems(items[1..])
  {
    hide GoodKey, Stands;
    var t := items[1..];
    forall i | 0 <= i < |t| ensures GoodKey(t[i].key) && Stands(t[i], i == |t| - 1) {
      assert t[i] == items[i + 1];
    }
  }

  /* ---- one line: tokens and pairs ---- */

  function Texts(items: seq<Item>): seq<string> {
    seq(|items|, i requires 0 <= i < |items| => ItemText(items[i]))
  }

  function Pairs(items: seq<Item>): seq<Pair> {
    seq(|items|, i requires 0 <= i < |items| => (items[i].key, items[i].value))
  }

  lemma SpacedLast(items: seq<Item>)
    requires items != []
    ensures Spaced(items) == Spaced(items[..|items| - 1]) + (" " + ItemText(items[|items| - 1]))
  {
    hide ItemText;
    Assoc(Spaced(items[..|items| - 1]), " ", ItemText(items[|items| - 1]));
  }

  lemma {:induction false} SpacedFront(items: seq<Item>)
    requires items != []
    ensures Spaced(items) == " " + ItemText(items[0]) + Spaced(items[1..])
  {
    hide ItemText, Spaced;
    var n, rest := |items| - 1, items[1..];
    SpacedLast(items);
    if n > 0 {
      SpacedFront(items[..n]);
      SpacedLast(rest);
      DropTake(items, 1, 0, n - 1);
      assert items[..n][1..] == rest[..n - 1] && rest[n - 1] == items[n];
      Assoc(" " + ItemText(items[0]), Spaced(rest[..n - 1]), " " + ItemText(items[n]));
    } else {
      NothingSpaced();
      assert items[..0] == [] && rest == [];
    }
  }

  lemma NothingSpaced()
    ensures Spaced([]) == ""
  {
  }

  /** An item is one token, and its key and value are read back from it. */
  lemma ItemIsToken(it: Item, rest: string)
    requires GoodKey(it.key) && Stands(it, rest == "") && (rest == "" || IsAsciiWs(rest[0]))
    ensures TakeToken(ItemText(it) + rest, false) == (ItemText(it), rest)
    ensures ItemText(it) != "" && !IsAsciiWs(ItemText(it)[0])
  {
    hide TakeToken, Loose, Survives, InQuotes;
    var key, v := it.key + "=", it.value;
    assert ItemText(it)[0] == it.key[0];
    if it.quoted {
      SurvivorTaken(v, true, rest);
      TokenFront(key, v + "\"" + rest);
      assert ItemText(it) + rest == key + ("\"" + (v + "\"" + rest));
      assert ItemText(it) == key + ("\"" + (v + "\""));
    } else {
      LooseTaken(v, false, rest);
      BareFront(key, v + rest);
      Assoc(key, v, rest);
    }
  }

  lemma ItemIsPair(it: Item, last: bool)
    requires GoodKey(it.key) && Stands(it, last)
    ensures PairOf(ItemText(it)) == [(it.key, it.value)]
  {
    hide PairOf, Loose, Survives;
    if it.quoted {
      SurvivorHasNoPair(it.value, true, last);
      UnquotedExact(it.value);
      StripWhole(it.value);
      assert "\"" + it.value + "\"" == "\"" + (it.value + "\"");
      ValueOf(it.key, "\"" + it.value + "\"");
    } else {
      ValueOf(it.key, it.value);
    }
  }

  lemma BlankSkipped(s: string)
    ensures Tokens(" " + s) == Tokens(s)
  {
    assert (" " + s)[1..] == s;
    assert SkipWs(" " + s) == SkipWs(s);
  }

  lemma FirstToken(t: string, rest: string)
    requires t != "" && !IsAsciiWs(t[0]) && TakeToken(t + rest, false) == (t, rest)
    ensures Tokens(t + rest) == [t] + Tokens(rest)
  {
    hide TakeToken;
    assert (t + rest)[0] == t[0];
    assert SkipWs(t + rest) == t + rest;
  }

  lemma FrontToken(t: string, rest: string)
    requires t != "" && !IsAsciiWs(t[0]) && TakeToken(t + rest, false) == (t, rest)
    ensures Tokens(" " + t + rest) == [t] + Tokens(rest)
  {
    hide TakeToken, Tokens;
    Assoc(" ", t, rest);
    BlankSkipped(t + rest);
    FirstToken(t, rest);
  }

  lemma NoTokens()
    ensures Tokens("") == []
  {
  }

  lemma {:induction false} SpacedTokens(items: seq<Item>)
    requires GoodItems(items)
    ensures Tokens(Spaced(items)) == Texts(items)
  {
    hide ItemText, TakeToken, GoodKey, Stands, SkipWs, Tokens;
    if items == [] {
      NoTokens();
    } else {
      SpacedFront(items);
      var t, rest := ItemText(items[0]), Spaced(items[1..]);
      if |items| > 1 {
        SpacedFront(items[1..]);
      } else {
        NothingSpaced();
        assert items[1..] == [];
      }
      ItemIsToken(items[0], rest);
      FrontToken(t, rest);
      GoodTail(items);
      SpacedTokens(items[1..]);
      assert Texts(items) == [t] + Texts(items[1..]);
    }
  }

  lemma {:induction false} TextsArePairs(items: seq<Item>)
    requires GoodItems(items)
    ensures PairsOf(Texts(items)) == Pairs(items)
  {
    hide GoodKey, Stands, PairOf, ItemText;
    if items != [] {
      ItemIsPair(items[0], |items| == 1);
      assert Texts(items)[1..] == Texts(items[1..]);
      GoodTail(items);
      TextsArePairs(items[1..]);
      assert Pairs(items) == [(items[0].key, items[0].value)] + Pairs(items[1..]);
    }
  }

  predicate GoodTag(s: string) {
    s != "" && Bare(s)
  }

  lemma SpacedStarts(items: seq<Item>)
    ensures if items == [] then Spaced(items) == "" else Spaced(items) != "" && IsAsciiWs(Spaced(items)[0])
  {
    if items != [] { SpacedFront(items); }
  }

  /** A line that is a tag, possibly a name, and items. */
  lemma TagTokens(tag: string, items: seq<Item>)
    requires GoodTag(tag) && GoodItems(items)
    ensures Tokens(tag + Spaced(items)) == [tag] + Texts(items)
  {
    hide Tokens, TakeToken, GoodItems;
    SpacedStarts(items);
    TakeBare(tag, Spaced(items));
    FirstToken(tag, Spaced(items));
    SpacedTokens(items);
  }

  lemma NameIsToken(name: string, items: seq<Item>)
    requires StandingName(name, items == []) && GoodItems(items)
    ensures Tokens(name + Spaced(items)) == [name] + Texts(items)
    ensures StripQuotes(name) == name
  {
    SpacedStarts(items);
    hide Tokens, TakeToken, GoodItems;
    LooseTaken(name, false, Spaced(items));
    FirstToken(name, Spaced(items));
    SpacedTokens(items);
  }

  lemma NamedTokens(tag: string, name: string, items: seq<Item>)
    requires GoodTag(tag) && StandingName(name, items == []) && GoodItems(items)
    ensures Tokens(tag + " " + name + Spaced(items)) == [tag, name] + Texts(items)
  {
    hide Tokens, TakeToken, GoodItems, Spaced, Texts, StandingName;
    var rest := name + Spaced(items);
    assert tag + " " + name + Spaced(items) == tag + (" " + rest);
    TakeBare(tag, " " + rest);
    FirstToken(tag, " " + rest);
    BlankSkipped(rest);
    NameIsToken(name, items);
    assert [tag] + ([name] + Texts(items)) == [tag, name] + Texts(items);
  }

  /** A line that starts and ends with other than whitespace is not trimmed. */
  lemma {:induction false} NothingToTrim(s: string)
    requires s != "" && !IsWs(s[0]) && !IsWs(s[|s| - 1])
    ensures Trim(s) == s
  {
  }

  lemma ItemEndsClean(it: Item)
    requires GoodKey(it.key) && Stands(it, true)
    ensures var t := ItemText(it); t != "" && !IsWs(t[|t| - 1])
  {
    hide Loose, Survives;
    var t := ItemText(it);
    if it.value == "" || it.quoted {
    } else {
      assert t[|t| - 1] == it.value[|it.value| - 1];
    }
  }

  /** The head of a line, the whole of it if it is the `last`. */
  predicate GoodHead(head: string, last: bool) {
    head != "" && !IsWs(head[0]) && Plain(head) && (last ==> Trimmed(head))
  }

  lemma LineEndsClean(head: string, items: seq<Item>)
    requires GoodHead(head, items == []) && GoodItems(items)
    ensures var line := head + Spaced(items);
            line != "" && line[0] == head[0] && !IsWs(line[0]) && !IsWs(line[|line| - 1])
  {
    hide Spaced, ItemText, Stands, GoodKey;
    var line := head + Spaced(items);
    if items == [] {
      NothingSpaced();
      assert line == head;
    } else {
      var t := ItemText(items[|items| - 1]);
      ItemEndsClean(items[|items| - 1]);
      SpacedLast(items);
      assert line[|line| - 1] == t[|t| - 1];
    }
  }

  lemma {:induction false} NoNewline(items: seq<Item>)
    requires GoodKeys(items) && forall i :: 0 <= i < |items| ==> Plain(items[i].value)
    ensures '\n' !in Spaced(items)
  {
    if items != [] {
      NoNewline(items[..|items| - 1]);
      var it := items[|items| - 1];
      assert '\n' !in it.key && '\n' !in it.value;
    }
  }

  /* ---- records ---- */

  function LineOf(r: Record): string {
    r.head + Spaced(r.items)
  }

  function LinesOf(rs: seq<Record>): seq<string> {
    seq(|rs|, i requires 0 <= i < |rs| => LineOf(rs[i]))
  }

  predicate GoodRecord(r: Record) {
    GoodHead(r.head, r.items == []) && GoodItems(r.items)
  }

  predicate GoodRecords(rs: seq<Record>) {
    forall i :: 0 <= i < |rs| ==> GoodRecord(rs[i])
  }

  lemma {:induction false} RecordsFront(rs: seq<Record>)
    requires rs != []
    ensures RecordsText(rs) == RecordText(rs[0]) + RecordsText(rs[1..])
  {
    hide RecordText;
    var n := |rs| - 1;
    if n > 0 {
      RecordsFront(rs[..n]);
      assert rs[..n][1..] == rs[1..][..n - 1];
      assert rs[1..][n - 1] == rs[n];
    } else {
      assert rs[..0] == [] && rs[1..] == [];
    }
  }

  /** Each record is one line of the text. */
  lemma {:induction false} RecordsAreLines(rs: seq<Record>)
    requires GoodRecords(rs)
    ensures Lines(RecordsText(rs)) == LinesOf(rs)
  {
    hide Lines, RecordText, LineOf, GoodRecord;
    if rs == [] {
      NoLines();
    } else {
      RecordsFront(rs);
      RecordIsLine(rs[0], RecordsText(rs[1..]));
      RecordsAreLines(rs[1..]);
      assert LinesOf(rs) == [LineOf(rs[0])] + LinesOf(rs[1..]);
    }
  }

  lemma NoLines()
    ensures Lines("") == []
  {
  }

  lemma RecordIsLine(r: Record, rest: string)
    requires GoodRecord(r)
    ensures Lines(RecordText(r) + rest) == [LineOf(r)] + Lines(rest)
  {
    LineEndsClean(r.head, r.items);
    ItemsArePlain(r.items);
    NoNewline(r.items);
    hide Lines, GoodItems, Spaced;
    LinesFirst(LineOf(r), rest);
  }

  lemma ItemsArePlain(items: seq<Item>)
    requires StandingItems(items)
    ensures forall i :: 0 <= i < |items| ==> Plain(items[i].value)
  {
    hide Loose, Survives, Plain;
  }

  lemma LineIsKept(r: Record)
    requires GoodRecord(r)
    ensures Trim(LineOf(r)) == LineOf(r) && LineOf(r) != "" && LineOf(r)[0] == r.head[0]
  {
    hide GoodItems, Trim;
    LineEndsClean(r.head, r.items);
    NothingToTrim(LineOf(r));
  }

  lemma NamedHead(tag: string, name: string, last: bool)
    requires GoodTag(tag) && StandingName(name, last)
    ensures GoodHead(tag + " " + name, last)
  {
    hide Loose, InQuotes;
  }
}
