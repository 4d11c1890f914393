/** What the checked exchange of the host guarantees: how the bytes of a reply are
    cut into reads does not matter, and when it would. */
module SessionTheorems {
  import opened Common
  import opened Decimal
  import opened BlockCodec
  import opened LineText
  import opened Session

  // The items of any reply, and of a part of it

  /** The whole items at the front, in order. */
  function Whole(buf: string): seq<string>
    decreases |buf|
  {
    if buf == "" || ItemLen(buf) == None then []
    else
      var k := ItemLen(buf).value;
      [buf[..k]] + Whole(buf[k..])
  }

  lemma {:induction false} ItemsAreWhole(buf: string)
    requires Items(buf).Some?
    ensures Items(buf).value == Whole(buf)
    decreases |buf|
  {
    if buf != "" {
      hide ItemLen;
      ItemsAreWhole(buf[ItemLen(buf).value..]);
    }
  }

  /** Part of an undecided item is undecided. */
  lemma CutOfPart(rest: string, k: nat)
    requires 0 < k <= |rest| && ItemLen(rest) == None
    ensures ItemLen(rest[..k]) == None
  {
    hide ParseUnsigned, Index;
    var p := rest[..k];
    if BlockShaped(rest) {
      var nd := DigitValue(rest[1]);
      if k == 1 {
        assert p == ['#'];
        IndexAbsent(p, '\n');
      } else if k >= 2 + nd {
        assert p[2..2 + nd] == rest[2..2 + nd];
      }
    } else {
      var i := Index(rest, '\n');
      assert rest[..i] == rest;
      assert '\n' !in p;
      IndexAbsent(p, '\n');
      if k > 1 { assert !BlockShaped(p); }
    }
  }

  /** Part of a whole item is undecided, or is a block without its newline. */
  lemma CutOfItem(rest: string, k: nat)
    requires 0 < k && ItemLen(rest).Some? && k < ItemLen(rest).value <= |rest|
    ensures ItemLen(rest[..k]) == None || (rest[0] == '#' && ItemLen(rest[..k]) == Some(k))
  {
    hide ParseUnsigned, Index;
    var p := rest[..k];
    if BlockShaped(rest) {
      var nd := DigitValue(rest[1]);
      if k == 1 {
        assert p == ['#'];
        IndexAbsent(p, '\n');
      } else if k >= 2 + nd {
        assert p[2..2 + nd] == rest[2..2 + nd];
      }
    } else {
      var i := Index(rest, '\n');
      assert forall j :: 0 <= j < k ==> p[j] == rest[..i][j];
      IndexAbsent(p, '\n');
      assert !BlockShaped(p);
    }
  }

  /** A whole item stays that item whatever part of the rest has arrived. */
  lemma CutAfterItem(rest: string, k: nat)
    requires rest != "" && ItemLen(rest).Some? && ItemLen(rest).value <= k <= |rest|
    ensures k > 0 && ItemLen(rest[..k]) == ItemLen(rest)
  {
    hide ParseUnsigned, Index;
    if BlockShaped(rest) { CutAfterBlock(rest, k); } else { CutAfterLine(rest, k); }
  }

  lemma CutAfterBlock(rest: string, k: nat)
    requires BlockShaped(rest) && ItemLen(rest).Some? && ItemLen(rest).value <= k <= |rest|
    ensures ItemLen(rest[..k]) == ItemLen(rest)
  {
    hide ParseUnsigned, Index;
    var nd := DigitValue(rest[1]);
    assert rest[..k][2..2 + nd] == rest[2..2 + nd];
  }

  lemma CutAfterLine(rest: string, k: nat)
    requires rest != "" && !BlockShaped(rest) && ItemLen(rest).Some? && ItemLen(rest).value <= k <= |rest|
    ensures ItemLen(rest[..k]) == ItemLen(rest)
  {
    hide ParseUnsigned, Index;
    IndexOfPart(rest, '\n', k);
    assert !BlockShaped(rest[..k]);
  }

  lemma IndexOfPart(s: string, c: char, k: nat)
    requires Index(s, c) < k <= |s|
    ensures Index(s[..k], c) == Index(s, c)
  {
    hide Index;
    var i := Index(s, c);
    SliceSplits(s, 0, i, k);
    IndexAfter(s[..i], c, s[i..k]);
    IndexHere(s[i..k]);
  }

  // What a part of a reply ends with

  lemma TrimEolKeepsHead(s: string)
    requires s != "" && !IsEol(s[0])
    ensures TrimEol(s) != "" && TrimEol(s)[0] == s[0]
  {
  }

  lemma TrimKeepsHead(s: string)
    requires s != "" && !IsWs(s[0])
    ensures Trim(s) != "" && Trim(s)[0] == s[0]
  {
    TrimRightKeepsHead(s);
  }

  lemma {:induction false} TrimRightKeepsHead(s: string)
    requires s != "" && !IsWs(s[0])
    ensures TrimRight(s) != "" && TrimRight(s)[0] == s[0]
  {
    if IsWs(s[|s| - 1]) { TrimRightKeepsHead(s[..|s| - 1]); }
  }

  /** A block never passes for an error entry, whole or without its newline. */
  lemma HashIsNoEntry(line: string, utf8: string -> bool)
    requires line != "" && line[0] == '#'
    ensures ParseEntry(line, utf8) == None
  {
    hide TrimEol, Trim;
    TrimEolKeepsHead(line);
    var text := TrimEol(line);
    var comma := Index(text, ',');
    if comma < |text| {
      TrimKeepsHead(text[..comma]);
    }
  }

  lemma EndingEmpty(utf8: string -> bool)
    ensures Ending("", utf8) == None
  {
  }

  /** What the bytes end with is settled by what follows the first item. */
  lemma EndingStep(p: string, n: nat, utf8: string -> bool)
    requires p != "" && ItemLen(p) == Some(n)
    ensures 0 < n <= |p|
    ensures Ending(p, utf8) == if n == |p| then ParseEntry(p, utf8) else Ending(p[n..], utf8)
  {
    hide ParseEntry, ItemLen;
    if n == |p| {
      assert p[..n] == p && p[n..] == "";
      assert Items(p) == Some([p]) by { assert [p] + [] == [p]; }
    }
  }

  predicate NoEntry(items: seq<string>, utf8: string -> bool) {
    forall i :: 0 <= i < |items| ==> ParseEntry(items[i], utf8) == None
  }

  /** The items after which something is still to come. */
  function Before(buf: string): seq<string>
    decreases |buf|
  {
    if buf == "" then []
    else
      match ItemLen(buf)
      case None => []
      case Some(k) => if k == |buf| then [] else [buf[..k]] + Before(buf[k..])
  }

  lemma {:induction false} BeforeIsBody(buf: string)
    ensures Items(buf).Some? ==> Before(buf) == Body(buf)
    ensures Items(buf).None? ==> Before(buf) == Whole(buf)
    decreases |buf|
  {
    if buf != "" && ItemLen(buf).Some? {
      hide ItemLen;
      var k := ItemLen(buf).value;
      BeforeIsBody(buf[k..]);
      if k == |buf| {
        assert buf[k..] == "" && buf[..k] == buf;
        assert Items(buf) == Some([buf]) by { assert [buf] + [] == [buf]; }
        assert Body(buf) == [];
      } else if Items(buf).Some? {
        var xs := Items(buf[k..]).value;
        assert ([buf[..k]] + xs)[..|xs|] == [buf[..k]] + xs[..|xs| - 1];
      }
    }
  }

  /** Received in part, a reply with no entry before its last item never looks
      complete: also when cut inside a block, or between it and its newline. */
  lemma {:induction false} PartIsNotEnding(reply: string, k: nat, utf8: string -> bool)
    requires k < |reply| && NoEntry(Before(reply), utf8)
    ensures Ending(reply[..k], utf8) == None
    decreases |reply|
  {
    hide ParseEntry, ItemLen, Ending;
    var p := reply[..k];
    if k == 0 {
      EndingEmpty(utf8);
    } else if ItemLen(reply) == None {
      CutOfPart(reply, k);
      Undecided(p, utf8);
    } else {
      var n := ItemLen(reply).value;
      if k < n {
        CutOfItem(reply, k);
        if ItemLen(p) == None {
          Undecided(p, utf8);
        } else {
          EndingStep(p, k, utf8);
          HashIsNoEntry(p, utf8);
        }
      } else {
        var more := reply[n..];
        CutAfterItem(reply, k);
        EndingStep(p, n, utf8);
        var b := Before(reply);
        assert b[0] == reply[..n] && b[1..] == Before(more);
        if k > n {
          assert p[n..] == more[..k - n];
          assert NoEntry(Before(more), utf8) by {
            forall i | 0 <= i < |Before(more)| ensures ParseEntry(Before(more)[i], utf8) == None {
              assert Before(more)[i] == b[i + 1];
            }
          }
          PartIsNotEnding(more, k - n, utf8);
        }
      }
    }
  }

  lemma Undecided(p: string, utf8: string -> bool)
    requires p != "" && ItemLen(p) == None
    ensures Ending(p, utf8) == None
  {
  }

  /** An entry before the last item is where a part of the reply looks complete. */
  lemma {:induction false} EntryLooksComplete(reply: string, i: nat, utf8: string -> bool) returns (k: nat)
    requires i < |Before(reply)| && ParseEntry(Before(reply)[i], utf8).Some?
    ensures 0 < k < |reply| && Ending(reply[..k], utf8).Some?
    decreases |reply|
  {
    hide ParseEntry, ItemLen, Ending;
    var n := ItemLen(reply).value;
    var b, more := Before(reply), reply[n..];
    assert b[0] == reply[..n] && b[1..] == Before(more);
    if i == 0 {
      k := n;
      CutAfterItem(reply, k);
      EndingStep(reply[..k], n, utf8);
    } else {
      var j := EntryLooksComplete(more, i - 1, utf8);
      k := n + j;
      CutAfterItem(reply, k);
      EndingStep(reply[..k], n, utf8);
      assert reply[..k][n..] == more[..j];
    }
  }

  // Framing independence

  function Msgs(chunks: seq<string>): seq<Read> {
    seq(|chunks|, i requires 0 <= i < |chunks| => Msg(chunks[i]))
  }

  /** The outcome is that of the whole reply, and nothing of it is left for a
      later command to trip over. */
  ghost predicate ReadsExactly(reply: string, first: ScpiError, chunks: seq<string>,
                               maxBlockLen: nat, utf8: string -> bool)
  {
    exists left :: |left| <= |chunks| && Flat(left) == "" &&
      Collect("", Msgs(chunks), READ_LIMIT, maxBlockLen, utf8)
      == (OutputOf(Body(reply), first, maxBlockLen, utf8), Msgs(left))
  }

  /** The loop reads on until the reply is complete and stops there, with only
      empty messages of the reply unread. */
  lemma {:induction false} CollectsReply(reply: string, first: ScpiError, buf: string, chunks: seq<string>,
                                         later: seq<Read>, n: nat, maxBlockLen: nat, utf8: string -> bool)
    returns (left: seq<string>)
    requires Ending(reply, utf8) == Some(first) && NoEntry(Before(reply), utf8)
    requires buf + Flat(chunks) == reply && |buf| < |reply|
    requires |chunks| <= n
    ensures Flat(left) == "" && |left| <= |chunks| && left == chunks[|chunks| - |left|..]
    ensures Collect(buf, Msgs(chunks) + later, n, maxBlockLen, utf8)
            == (OutputOf(Body(reply), first, maxBlockLen, utf8), Msgs(left) + later)
    decreases |chunks|
  {
    hide ParseEntry, OutputOf, Ending, Body, Before;
    assert |Flat(chunks)| > 0;
    var more := buf + chunks[0];
    Assoc(buf, chunks[0], Flat(chunks[1..]));
    assert reply[..|more|] == more;
    assert (Msgs(chunks) + later)[1..] == Msgs(chunks[1..]) + later;
    assert (Msgs(chunks) + later)[0] == Msg(chunks[0]);
    if |more| < |reply| {
      PartIsNotEnding(reply, |more|, utf8);
      left := CollectsReply(reply, first, more, chunks[1..], later, n - 1, maxBlockLen, utf8);
    } else {
      assert more == reply;
      left := chunks[1..];
    }
  }

  lemma EveryCutReads(reply: string, first: ScpiError, chunks: seq<string>, maxBlockLen: nat, utf8: string -> bool)
    requires Ending(reply, utf8) == Some(first) && NoEntry(Before(reply), utf8)
    requires Flat(chunks) == reply && |chunks| <= READ_LIMIT
    ensures ReadsExactly(reply, first, chunks, maxBlockLen, utf8)
  {
    hide Collect, ParseEntry, OutputOf, Flat, Before, Body;
    EndingEmpty(utf8);
    assert "" + Flat(chunks) == Flat(chunks);
    var left := CollectsReply(reply, first, "", chunks, [], READ_LIMIT, maxBlockLen, utf8);
    assert Msgs(chunks) + [] == Msgs(chunks) && Msgs(left) + [] == Msgs(left);
  }

  lemma FlatOne(s: string)
    ensures Flat([s]) == s
  {
    assert [s][1..] == [];
  }

  lemma FlatTwo(a: string, b: string)
    ensures Flat([a, b]) == a + b
  {
    assert [a, b][1..] == [b];
    FlatOne(b);
  }

  /** A read that ends where the reply looks complete ends the exchange there. */
  lemma StopsShort(reply: string, first: ScpiError, k: nat, maxBlockLen: nat, utf8: string -> bool)
    requires 0 < k < |reply| && Ending(reply[..k], utf8).Some?
    ensures Flat([reply[..k], reply[k..]]) == reply
    ensures !ReadsExactly(reply, first, [reply[..k], reply[k..]], maxBlockLen, utf8)
  {
    hide ParseEntry, OutputOf, Items, Ending;
    var a, b := reply[..k], reply[k..];
    FlatTwo(a, b);
    var chunks := [a, b];
    assert Msgs(chunks)[0] == Msg(a) && "" + a == a;
    assert Collect("", Msgs(chunks), READ_LIMIT, maxBlockLen, utf8).1 == Msgs(chunks)[1..] == [Msg(b)];
    forall left: seq<string> | Msgs(left) == [Msg(b)] ensures Flat(left) != "" {
      assert |left| == |Msgs(left)| && Msgs(left)[0] == Msg(left[0]);
      assert left == [b];
      FlatOne(b);
    }
  }

  /** Framing independence, and exactly when it holds, for any bytes that end with
      an error entry: every way of cutting them into at most 4096 reads gives the
      outcome of the whole and leaves nothing unread, if and only if no item
      before the last, as the host cuts the bytes, has the shape of an entry. */
  lemma FramingIndependence(reply: string, first: ScpiError, maxBlockLen: nat, utf8: string -> bool)
    requires Ending(reply, utf8) == Some(first)
    ensures NoEntry(Body(reply), utf8) <==>
      forall chunks :: Flat(chunks) == reply && |chunks| <= READ_LIMIT ==>
        ReadsExactly(reply, first, chunks, maxBlockLen, utf8)
  {
    BeforeIsBody(reply);
    hide Collect, ReadsExactly, ParseEntry, OutputOf, Before;
    if NoEntry(Body(reply), utf8) {
      forall chunks: seq<string> | Flat(chunks) == reply && |chunks| <= READ_LIMIT
        ensures ReadsExactly(reply, first, chunks, maxBlockLen, utf8)
      {
        EveryCutReads(reply, first, chunks, maxBlockLen, utf8);
      }
    } else {
      var i :| 0 <= i < |Body(reply)| && ParseEntry(Body(reply)[i], utf8) != None;
      var k := EntryLooksComplete(reply, i, utf8);
      StopsShort(reply, first, k, maxBlockLen, utf8);
    }
  }

  /** The loop takes all of these reads and asks for more. */
  predicate AsksForMore(chunks: seq<string>, maxBlockLen: nat, utf8: string -> bool) {
    Collect("", Msgs(chunks), READ_LIMIT, maxBlockLen, utf8)
    == (if |chunks| < READ_LIMIT then ReadFailed else NoReply, [])
  }

  lemma {:induction false} ReadsAll(reply: string, buf: string, chunks: seq<string>, n: nat,
                                    maxBlockLen: nat, utf8: string -> bool)
    requires Items(reply) == None && NoEntry(Before(reply), utf8)
    requires buf + Flat(chunks) == reply && |chunks| <= n
    ensures Collect(buf, Msgs(chunks), n, maxBlockLen, utf8) == (if |chunks| < n then ReadFailed else NoReply, [])
    decreases |chunks|
  {
    hide ParseEntry, OutputOf, Ending, Body, Before, Items;
    if chunks == [] {
      assert Msgs(chunks) == [];
    } else {
      var more := buf + chunks[0];
      Assoc(buf, chunks[0], Flat(chunks[1..]));
      assert reply[..|more|] == more;
      assert Msgs(chunks)[1..] == Msgs(chunks[1..]) && Msgs(chunks)[0] == Msg(chunks[0]);
      if |more| < |reply| {
        PartIsNotEnding(reply, |more|, utf8);
      } else {
        assert more == reply;
        UndecidedEnds(reply, utf8);
      }
      ReadsAll(reply, more, chunks[1..], n - 1, maxBlockLen, utf8);
    }
  }

  lemma UndecidedEnds(reply: string, utf8: string -> bool)
    requires Items(reply) == None
    ensures Ending(reply, utf8) == None
  {
  }

  /** Bytes whose last item is not all there, such as text that starts like the
      header of a longer block: every cut of them is read to the end and more is
      asked for, if and only if none of the whole items is an entry. */
  lemma Unfinished(reply: string, maxBlockLen: nat, utf8: string -> bool)
    requires Items(reply) == None
    ensures NoEntry(Whole(reply), utf8) <==>
      forall chunks :: Flat(chunks) == reply && |chunks| <= READ_LIMIT ==> AsksForMore(chunks, maxBlockLen, utf8)
  {
    BeforeIsBody(reply);
    hide Collect, ParseEntry, OutputOf, Before, Items, Whole;
    if NoEntry(Whole(reply), utf8) {
      forall chunks: seq<string> | Flat(chunks) == reply && |chunks| <= READ_LIMIT
        ensures AsksForMore(chunks, maxBlockLen, utf8)
      {
        assert "" + Flat(chunks) == reply;
        ReadsAll(reply, "", chunks, READ_LIMIT, maxBlockLen, utf8);
      }
    } else {
      var i :| 0 <= i < |Whole(reply)| && ParseEntry(Whole(reply)[i], utf8) != None;
      var k := EntryLooksComplete(reply, i, utf8);
      StopsBefore(reply, k, maxBlockLen, utf8);
    }
  }

  lemma StopsBefore(reply: string, k: nat, maxBlockLen: nat, utf8: string -> bool)
    requires 0 < k < |reply| && Ending(reply[..k], utf8).Some?
    ensures Flat([reply[..k], reply[k..]]) == reply
    ensures !AsksForMore([reply[..k], reply[k..]], maxBlockLen, utf8)
  {
    hide ParseEntry, OutputOf, Items, Ending;
    var a, b := reply[..k], reply[k..];
    FlatTwo(a, b);
    assert Msgs([a, b])[0] == Msg(a) && "" + a == a;
    assert Collect("", Msgs([a, b]), READ_LIMIT, maxBlockLen, utf8).1 == Msgs([a, b])[1..] == [Msg(b)];
  }
  // Replies as a device writes them

  /** One part of a reply: a line of text, or a binary block. */
  datatype Item = Line(text: string) | Block(payload: string)

  /** Every output is followed by a newline. */
  function Wire(item: Item): string
    requires item.Block? ==> |item.payload| < Pow10(9)
  {
    (if item.Line? then item.text else Encoded(item.payload)) + "\n"
  }

  /** A line that does not start like a block header, or a block. */
  predicate WellFormed(item: Item) {
    match item
    case Line(text) => '\n' !in text && !BlockShaped(text)
    case Block(payload) => |payload| < Pow10(9)
  }

  predicate AllWellFormed(items: seq<Item>) {
    forall i :: 0 <= i < |items| ==> WellFormed(items[i])
  }

  function Wires(items: seq<Item>): seq<string>
    requires AllWellFormed(items)
  {
    seq(|items|, i requires 0 <= i < |items| => Wire(items[i]))
  }

  lemma EncodedHead(payload: string)
    requires |payload| < Pow10(9)
    ensures var e, nd := Encoded(payload), Digits(|payload|);
      && |e| == 2 + nd + |payload| && e[0] == '#' && '1' <= e[1] <= '9' && DigitValue(e[1]) == nd
      && e[2..2 + nd] == Dec(|payload|)
      && ParseUnsigned(e[2..2 + nd], USIZE_MAX) == Some(|payload|)
  {
    EncodedParts(payload);
    Pow10Table();
    ParseDecimal(|payload|, USIZE_MAX);
  }

  lemma BlockItem(payload: string, suffix: string)
    requires |payload| < Pow10(9)
    ensures var b := Encoded(payload) + suffix;
      ItemLen(b) == Some(|Encoded(payload)| + (if suffix != "" && suffix[0] == '\n' then 1 else 0))
  {
    hide *;
    EncodedHead(payload);
    BlockAtFront(Encoded(payload), suffix, Digits(|payload|), |payload|);
  }

  lemma BlockAtFront(e: string, suffix: string, nd: nat, n: nat)
    requires |e| == 2 + nd + n && e[0] == '#' && '1' <= e[1] <= '9' && DigitValue(e[1]) == nd
    requires ParseUnsigned(e[2..2 + nd], USIZE_MAX) == Some(n)
    ensures ItemLen(e + suffix) == Some(|e| + (if suffix != "" && suffix[0] == '\n' then 1 else 0))
  {
    hide ParseUnsigned;
    SliceOfAppend(e, suffix, 2, 2 + nd);
    assert (e + suffix)[0] == e[0] && (e + suffix)[1] == e[1];
  }

  lemma WireItem(item: Item, suffix: string)
    requires WellFormed(item)
    ensures ItemLen(Wire(item) + suffix) == Some(|Wire(item)|)
  {
    hide Encoded, Pow10;
    match item
    case Line(text) =>
      assert Wire(item) + suffix == text + ("\n" + suffix);
      IndexAfter(text, '\n', "\n" + suffix);
    case Block(payload) =>
      hide ItemLen;
      assert Wire(item) + suffix == Encoded(payload) + ("\n" + suffix);
      BlockItem(payload, "\n" + suffix);
  }

  /** Well-formed items at the front are split off as they were written, whatever
      follows. */
  lemma {:induction false} WholeAfter(items: seq<Item>, rest: string)
    requires AllWellFormed(items)
    ensures Whole(Flat(Wires(items)) + rest) == Wires(items) + Whole(rest)
    ensures Items(Flat(Wires(items)) + rest) ==
            if Items(rest) == None then None else Some(Wires(items) + Items(rest).value)
    decreases |items|
  {
    hide ItemLen, Whole, Items, Flat, Wires, Wire, WellFormed, AllWellFormed;
    if items == [] {
      NoWires();
      assert "" + rest == rest && [] + Whole(rest) == Whole(rest);
      if Items(rest).Some? { assert [] + Items(rest).value == Items(rest).value; }
    } else {
      WiresFront(items);
      WholeAfter(items[1..], rest);
      WireItem(items[0], Flat(Wires(items[1..])) + rest);
      WireNotEmpty(items[0]);
      PrependWhole(Wire(items[0]), Wires(items[1..]), rest);
    }
  }

  lemma NoWires()
    ensures AllWellFormed([]) && Wires([]) == [] && Flat(Wires([])) == ""
  {
  }

  lemma WiresFront(items: seq<Item>)
    requires items != [] && AllWellFormed(items)
    ensures WellFormed(items[0]) && AllWellFormed(items[1..])
    ensures (items[0].Block? ==> |items[0].payload| < Pow10(9))
            && Wires(items) == [Wire(items[0])] + Wires(items[1..])
  {
    hide Wire, Pow10;
  }

  lemma FrontItem(w: string, rest: string)
    requires w != "" && ItemLen(w + rest) == Some(|w|)
    ensures Whole(w + rest) == [w] + Whole(rest) && Items(w + rest) == Prepend(w, Items(rest))
  {
    hide ItemLen;
    assert (w + rest)[..|w|] == w && (w + rest)[|w|..] == rest;
  }

  lemma FlatCons(w: string, more: seq<string>)
    ensures Flat([w] + more) == w + Flat(more)
  {
    assert ([w] + more)[1..] == more;
  }

  lemma PrependWhole(w: string, more: seq<string>, rest: string)
    requires w != "" && ItemLen(w + (Flat(more) + rest)) == Some(|w|)
    requires Whole(Flat(more) + rest) == more + Whole(rest)
    requires Items(Flat(more) + rest) == if Items(rest) == None then None else Some(more + Items(rest).value)
    ensures Whole(Flat([w] + more) + rest) == [w] + more + Whole(rest)
    ensures Items(Flat([w] + more) + rest) ==
            if Items(rest) == None then None else Some([w] + more + Items(rest).value)
  {
    hide ItemLen, Items, Whole, Flat;
    FrontItem(w, Flat(more) + rest);
    FlatCons(w, more);
    Assoc(w, Flat(more), rest);
    Assoc([w], more, Whole(rest));
    if Items(rest).Some? { Assoc([w], more, Items(rest).value); }
  }

  lemma WireNotEmpty(item: Item)
    requires WellFormed(item)
    ensures Wire(item) != ""
  {
  }

  /** Received whole, a reply splits into exactly the items that were written. */
  lemma WholeReply(items: seq<Item>)
    requires AllWellFormed(items)
    ensures Items(Flat(Wires(items))) == Some(Wires(items))
  {
    hide ItemLen, Wires;
    WholeAfter(items, "");
    assert Flat(Wires(items)) + "" == Flat(Wires(items));
    assert Items("") == Some([]) && Wires(items) + [] == Wires(items);
  }

  /** The bytes of a reply: what the command put out, then the error entry. */
  function ReplyBytes(body: seq<Item>, entry: string): string
    requires AllWellFormed(body)
  {
    Flat(Wires(body)) + (entry + "\n")
  }

  /** For the replies a device writes, with lines that do not start like a block
      header: framing is independent exactly when no line of the command's own
      output has the shape of an entry. A block never has. */
  lemma DeviceFraming(body: seq<Item>, entry: string, first: ScpiError, maxBlockLen: nat, utf8: string -> bool)
    requires AllWellFormed(body) && WellFormed(Line(entry)) && ParseEntry(entry + "\n", utf8) == Some(first)
    ensures Body(ReplyBytes(body, entry)) == Wires(body) && Ending(ReplyBytes(body, entry), utf8) == Some(first)
    ensures (forall i :: 0 <= i < |body| && body[i].Line? ==> ParseEntry(body[i].text + "\n", utf8) == None) <==>
      forall chunks :: Flat(chunks) == ReplyBytes(body, entry) && |chunks| <= READ_LIMIT ==>
        ReadsExactly(ReplyBytes(body, entry), first, chunks, maxBlockLen, utf8)
  {
    DeviceItems(body, entry);
    BlocksAreNoEntries(body, utf8);
    hide ParseEntry, ReadsExactly, ItemLen, Wires, Wire;
    var reply, e := ReplyBytes(body, entry), entry + "\n";
    assert (Wires(body) + [e])[..|Wires(body)|] == Wires(body);
    FramingIndependence(reply, first, maxBlockLen, utf8);
  }

  lemma ReplyEnds(body: seq<Item>, entry: string, first: ScpiError, utf8: string -> bool)
    requires AllWellFormed(body) && WellFormed(Line(entry)) && ParseEntry(entry + "\n", utf8) == Some(first)
    ensures Body(ReplyBytes(body, entry)) == Wires(body) && Ending(ReplyBytes(body, entry), utf8) == Some(first)
  {
    hide ParseEntry, Items, Wires;
    DeviceItems(body, entry);
    assert (Wires(body) + [entry + "\n"])[..|Wires(body)|] == Wires(body);
  }

  lemma DeviceItems(body: seq<Item>, entry: string)
    requires AllWellFormed(body) && WellFormed(Line(entry))
    ensures Items(ReplyBytes(body, entry)) == Some(Wires(body) + [entry + "\n"])
  {
    var e := entry + "\n";
    hide ItemLen;
    WholeReply([Line(entry)]);
    assert Wires([Line(entry)]) == [e];
    FlatOne(e);
    hide Wires;
    WholeAfter(body, e);
  }

  lemma BlocksAreNoEntries(body: seq<Item>, utf8: string -> bool)
    requires AllWellFormed(body)
    ensures NoEntry(Wires(body), utf8) <==>
            forall i :: 0 <= i < |body| && body[i].Line? ==> ParseEntry(body[i].text + "\n", utf8) == None
  {
    hide ParseEntry;
    forall i | 0 <= i < |body| && body[i].Block? ensures ParseEntry(Wires(body)[i], utf8) == None {
      HashIsNoEntry(Wires(body)[i], utf8);
    }
    forall i | 0 <= i < |body| && body[i].Line? ensures Wires(body)[i] == body[i].text + "\n" {
    }
  }

  // Text that starts like a block header

  /** Where the block that the header at the front declares ends, newline aside. */
  function DeclaredEnd(rest: string): Option<nat>
    requires BlockShaped(rest)
  {
    var nd := DigitValue(rest[1]);
    if |rest| < 2 + nd then None
    else
      match ParseUnsigned(rest[2..2 + nd], USIZE_MAX)
      case None => None
      case Some(n) => Some(2 + nd + n)
  }

  /** The end with the newline that follows, if one does. */
  function WithNewline(rest: string, end: nat): (k: nat)
    requires end <= |rest|
    ensures end <= k <= |rest|
  {
    if end < |rest| && rest[end] == '\n' then end + 1 else end
  }

  lemma DeclaredItem(rest: string)
    requires BlockShaped(rest)
    ensures ItemLen(rest) ==
      if DeclaredEnd(rest) == None || DeclaredEnd(rest).value > |rest| then None
      else Some(WithNewline(rest, DeclaredEnd(rest).value))
  {
    hide ParseUnsigned;
  }

  /** What a line that starts like a block header does to the reply: it is cut where
      the number in its length field says, be that inside the line or after it; or,
      with no number there or one past the end, nothing from it on is an item. */
  lemma HashLineCut(before: seq<Item>, text: string, later: string)
    requires AllWellFormed(before) && BlockShaped(text)
    ensures var rest := text + "\n" + later;
      BlockShaped(rest) &&
      match DeclaredEnd(rest)
      case None => Items(Flat(Wires(before)) + rest) == None && Whole(Flat(Wires(before)) + rest) == Wires(before)
      case Some(end) =>
        if end > |rest| then
          Items(Flat(Wires(before)) + rest) == None && Whole(Flat(Wires(before)) + rest) == Wires(before)
        else
          var k := WithNewline(rest, end);
          Whole(Flat(Wires(before)) + rest) == Wires(before) + ([rest[..k]] + Whole(rest[k..]))
  {
    var rest := text + "\n" + later;
    assert BlockShaped(rest);
    hide ItemLen, Wires, DeclaredEnd, BlockShaped;
    DeclaredItem(rest);
    WholeAfter(before, rest);
    assert Wires(before) + [] == Wires(before);
  }

  // A reply of one line

  /** The line a command put out, then the error entry. */
  function LoneLine(line: string, entry: string): string {
    line + "\n" + (entry + "\n")
  }

  /** The block the line seems to be ends inside the line, or what is left of the
      reply after it starts like a block header again. */
  predicate GoesOn(line: string, entry: string)
    requires BlockShaped(line)
  {
    var reply := LoneLine(line, entry);
    assert reply[0] == line[0] && reply[1] == line[1];
    DeclaredEnd(reply).Some? && DeclaredEnd(reply).value <= |reply|
    && (DeclaredEnd(reply).value < |line| || BlockShaped(reply[DeclaredEnd(reply).value..]))
  }

  predicate IsText(o: Outcome) {
    o.NotUtf8? || (o.Answered? && o.output.Reply?)
  }

  lemma NewlineAt(a: string, b: string)
    requires '\n' !in a
    ensures Index(a + "\n" + b, '\n') == |a|
  {
    Assoc(a, "\n", b);
    IndexAfter(a, '\n', "\n" + b);
    IndexHere("\n" + b);
  }

  /** A line that does not start like a block header is one item, whatever follows. */
  lemma PlainFirst(line: string, later: string)
    requires '\n' !in line && !BlockShaped(line)
    ensures ItemLen(line + "\n" + later) == Some(|line| + 1)
  {
    hide Index, ParseUnsigned;
    NewlineAt(line, later);
    var r := line + "\n" + later;
    assert !BlockShaped(r) by {
      assert |line| >= 1 ==> r[0] == line[0];
      assert |line| >= 2 ==> r[1] == line[1];
      assert r[|line|] == '\n';
    }
  }

  lemma BodyStep(r: string, k: nat, utf8: string -> bool)
    requires r != "" && ItemLen(r) == Some(k) && Ending(r, utf8).Some?
    ensures k == |r| ==> Body(r) == [] && Ending(r, utf8) == ParseEntry(r, utf8)
    ensures k < |r| ==> Body(r) == [r[..k]] + Body(r[k..]) && Ending(r[k..], utf8) == Ending(r, utf8)
  {
    EndingStep(r, k, utf8);
    BeforeIsBody(r);
    hide ParseEntry, ItemLen, Items;
    assert Ending(r, utf8).Some? ==> Items(r).Some? by { if Ending(r, utf8).Some? { EndingIsItems(r, utf8); } }
    if k < |r| {
      EndingIsItems(r[k..], utf8);
      BeforeIsBody(r[k..]);
    }
  }

  lemma PlainBody(line: string, entry: string, utf8: string -> bool)
    requires '\n' !in line && !BlockShaped(line) && WellFormed(Line(entry))
    requires Ending(LoneLine(line, entry), utf8).Some?
    ensures Body(LoneLine(line, entry)) == [line + "\n"]
  {
    hide ItemLen, Ending, Body, BlockShaped;
    var r, e := LoneLine(line, entry), entry + "\n";
    PlainFirst(line, e);
    BodyStep(r, |line| + 1, utf8);
    assert r[..|line| + 1] == line + "\n" && r[|line| + 1..] == e;
    PlainFirst(entry, "");
    assert entry + "\n" + "" == e;
    BodyStep(e, |e|, utf8);
  }

  lemma HashBody(line: string, entry: string, utf8: string -> bool)
    requires '\n' !in line && BlockShaped(line) && WellFormed(Line(entry))
    requires Ending(LoneLine(line, entry), utf8).Some?
    ensures var b := Body(LoneLine(line, entry)); b != [] && b[0] != "" && b[0][0] == '#'
    ensures |Body(LoneLine(line, entry))| > 1 <==> GoesOn(line, entry)
  {
    var r := LoneLine(line, entry);
    assert r[0] == line[0] && r[1] == line[1];
    hide ItemLen, Ending, Body, DeclaredEnd, ParseEntry;
    DeclaredItem(r);
    assert ItemLen(r) != None by { if ItemLen(r) == None { Undecided(r, utf8); } }
    var end := DeclaredEnd(r).value;
    var k := WithNewline(r, end);
    assert k > 0 by { ItemNotEmpty(r); }
    BodyStep(r, k, utf8);
    HashIsNoEntry(r, utf8);
    TailGoesOn(line, entry, end, utf8);
  }

  lemma ItemNotEmpty(r: string)
    requires r != "" && ItemLen(r).Some?
    ensures 0 < ItemLen(r).value <= |r|
  {
  }

  /** After the block there is more than the last item exactly when the block ended
      inside the line or a header follows it. */
  lemma TailGoesOn(line: string, entry: string, end: nat, utf8: string -> bool)
    requires '\n' !in line && WellFormed(Line(entry)) && end <= |LoneLine(line, entry)|
    requires var r := LoneLine(line, entry); WithNewline(r, end) < |r| && Ending(r[WithNewline(r, end)..], utf8).Some?
    ensures var r := LoneLine(line, entry);
      Body(r[WithNewline(r, end)..]) != [] <==> end < |line| || BlockShaped(r[end..])
  {
    hide ItemLen, Ending, Body, ParseEntry;
    var r := LoneLine(line, entry);
    var k := WithNewline(r, end);
    var t := r[k..];
    assert ItemLen(t) != None by { if ItemLen(t) == None { Undecided(t, utf8); } }
    ItemNotEmpty(t);
    BodyStep(t, ItemLen(t).value, utf8);
    if BlockShaped(t) {
      HashIsNoEntry(t, utf8);
      HeaderAt(line, entry, end);
    } else if end < |line| {
      assert r[end] == line[end];
      assert t == line[end..] + "\n" + (entry + "\n");
      assert !BlockShaped(line[end..]);
      PlainFirst(line[end..], entry + "\n");
    } else {
      RestOfEntry(line, entry, k);
      PlainFirst(t[..|t| - 1], "");
      assert t[..|t| - 1] + "\n" + "" == t;
      assert !BlockShaped(r[end..]) by { if k == end { assert r[end..] == t; } }
    }
  }

  lemma RestOfEntry(line: string, entry: string, k: nat)
    requires WellFormed(Line(entry)) && |line| < k < |LoneLine(line, entry)|
    ensures var t := LoneLine(line, entry)[k..]; t[|t| - 1] == '\n' && '\n' !in t[..|t| - 1]
  {
    var t := LoneLine(line, entry)[k..];
    var m := k - |line| - 1;
    assert t == entry[m..] + "\n";
    assert t[..|t| - 1] == entry[m..];
  }

  lemma HeaderAt(line: string, entry: string, end: nat)
    requires '\n' !in line && WellFormed(Line(entry)) && end <= |LoneLine(line, entry)|
    requires var r := LoneLine(line, entry); BlockShaped(r[WithNewline(r, end)..])
    ensures end < |line| || BlockShaped(LoneLine(line, entry)[end..])
  {
    var r := LoneLine(line, entry);
    var k := WithNewline(r, end);
    if k == end + 1 && end == |line| {
      assert r[k..] == entry + "\n";
      NoHeader(entry);
    }
  }

  lemma NoHeader(s: string)
    requires !BlockShaped(s)
    ensures !BlockShaped(s + "\n")
  {
    var t := s + "\n";
    assert |s| == 1 ==> t[1] == '\n';
    assert |s| >= 2 ==> t[0] == s[0] && t[1] == s[1];
  }

  /** What a reply of one line comes out as, once it is complete: as text exactly
      when the line is empty, does not start with a hash, or seems to be a block that
      goes on; else it is taken for a block, so its payload comes out or it is
      refused. A line like the first two always completes the reply; one that starts
      like a block header may be read on (`HashLineCut`, `Unfinished`). */
  lemma LoneLineExact(line: string, entry: string, first: ScpiError, maxBlockLen: nat, utf8: string -> bool)
    requires '\n' !in line && WellFormed(Line(entry)) && Ending(LoneLine(line, entry), utf8) == Some(first)
    ensures var body := Body(LoneLine(line, entry));
      var o := OutputOf(body, first, maxBlockLen, utf8);
      && (IsText(o) <==> line == "" || line[0] != '#' || (BlockShaped(line) && GoesOn(line, entry)))
      && (!IsText(o) ==>
            |body| == 1 && o == match ParseSpec(body[0], maxBlockLen)
                                case Payload(bytes) => Answered(Binary(bytes), first)
                                case Bad(error) => BadBlock(error))
  {
    hide ParseSpec, Ending, Body, GoesOn, ParseEntry, TrimEol;
    if BlockShaped(line) {
      HashBody(line, entry, utf8);
    } else {
      PlainBody(line, entry, utf8);
    }
  }

  /** When such a reply is complete. A line that does not start like a block header
      always completes it, and so does one that ends its block by the newline or
      inside itself before plain text; a block with no number, or one past the end,
      never does; and of any other, what follows the block decides. */
  lemma LoneLineCompletes(line: string, entry: string, utf8: string -> bool)
    requires '\n' !in line && WellFormed(Line(entry))
    ensures var r := LoneLine(line, entry);
      if !BlockShaped(line) then Ending(r, utf8) == ParseEntry(entry + "\n", utf8)
      else
        BlockShaped(r) &&
        var end := DeclaredEnd(r);
        if end == None || end.value > |r| then Ending(r, utf8) == None
        else if end.value <= |line| + 1 && !BlockShaped(r[end.value..]) then
          Ending(r, utf8) == ParseEntry(entry + "\n", utf8)
        else Ending(r, utf8) == Ending(r[WithNewline(r, end.value)..], utf8)
  {
    var r, e := LoneLine(line, entry), entry + "\n";
    hide ItemLen, Ending, ParseEntry, DeclaredEnd;
    if BlockShaped(line) {
      assert r[0] == line[0] && r[1] == line[1];
      DeclaredItem(r);
      if DeclaredEnd(r) == None || DeclaredEnd(r).value > |r| {
        Undecided(r, utf8);
      } else {
        var end := DeclaredEnd(r).value;
        AfterBlock(r, WithNewline(r, end), utf8);
        if end <= |line| + 1 && !BlockShaped(r[end..]) { PlainAfter(line, entry, end, utf8); }
      }
    } else {
      PlainFirst(line, e);
      LastEntry(line, entry, utf8);
    }
  }

  lemma AfterBlock(r: string, k: nat, utf8: string -> bool)
    requires BlockShaped(r) && ItemLen(r) == Some(k)
    ensures k <= |r| && Ending(r, utf8) == Ending(r[k..], utf8)
  {
    hide ParseEntry, ItemLen, Ending;
    EndingStep(r, k, utf8);
    if k == |r| {
      HashIsNoEntry(r, utf8);
      EndingEmpty(utf8);
      assert r[k..] == "";
    }
  }

  lemma LastEntry(line: string, entry: string, utf8: string -> bool)
    requires '\n' !in line && !BlockShaped(line) && WellFormed(Line(entry))
    ensures Ending(LoneLine(line, entry), utf8) == ParseEntry(entry + "\n", utf8)
    ensures Ending(entry + "\n", utf8) == ParseEntry(entry + "\n", utf8)
  {
    hide ItemLen, Ending, ParseEntry;
    var r, e := LoneLine(line, entry), entry + "\n";
    PlainFirst(line, e);
    EndingStep(r, |line| + 1, utf8);
    assert r[|line| + 1..] == e;
    PlainFirst(entry, "");
    assert entry + "\n" + "" == e;
    EndingStep(e, |e|, utf8);
  }

  lemma PlainAfter(line: string, entry: string, end: nat, utf8: string -> bool)
    requires '\n' !in line && WellFormed(Line(entry)) && end <= |line| + 1 && end <= |LoneLine(line, entry)|
    requires !BlockShaped(LoneLine(line, entry)[end..])
    ensures var r := LoneLine(line, entry);
      Ending(r[WithNewline(r, end)..], utf8) == ParseEntry(entry + "\n", utf8)
  {
    hide Ending, ParseEntry;
    var r := LoneLine(line, entry);
    if end < |line| {
      var more := line[end..];
      assert r[end] == line[end] && r[end..] == LoneLine(more, entry);
      StillPlain(more, "\n" + (entry + "\n"));
      assert LoneLine(more, entry) == more + ("\n" + (entry + "\n"));
      LastEntry(more, entry, utf8);
    } else {
      LastEntry("", entry, utf8);
      assert r[|line| + 1..] == entry + "\n";
      if end == |line| + 1 && entry == "" {
        NoEntryInBlank(utf8);
        assert entry + "\n" == "\n" && r[|r|..] == "";
      }
    }
  }

  lemma StillPlain(a: string, b: string)
    requires !BlockShaped(a + b)
    ensures !BlockShaped(a)
  {
    assert |a| >= 2 ==> (a + b)[0] == a[0] && (a + b)[1] == a[1];
  }

  lemma NoEntryInBlank(utf8: string -> bool)
    ensures ParseEntry("\n", utf8) == None && Ending("", utf8) == None
  {
    assert "\n"[..0] == "";
    assert TrimEol("\n") == "";
    EndingEmpty(utf8);
  }

  /** A line that is a whole block, with no number or digit of it left over, is
      taken for that block; a sign in the length field, which the split accepts, is
      not accepted there. */
  lemma LoneBlockLine(line: string, entry: string, first: ScpiError, maxBlockLen: nat, utf8: string -> bool)
    requires '\n' !in line && WellFormed(Line(entry)) && Ending(LoneLine(line, entry), utf8) == Some(first)
    requires BlockShaped(line) && DeclaredEnd(line) == Some(|line|)
    ensures var nd := DigitValue(line[1]);
      OutputOf(Body(LoneLine(line, entry)), first, maxBlockLen, utf8) ==
      if !AllDigits(line[2..2 + nd]) then BadBlock(InvalidLength)
      else if |line| - 2 - nd > maxBlockLen then BadBlock(TooLarge(|line| - 2 - nd, maxBlockLen))
      else Answered(Binary(line[2 + nd..]), first)
  {
    hide Ending, Body, ParseEntry, ItemLen, LoneLine, DeclaredEnd;
    BlockLineBody(line, entry, utf8);
    BlockLineRead(line, maxBlockLen);
  }

  lemma BlockLineBody(line: string, entry: string, utf8: string -> bool)
    requires '\n' !in line && WellFormed(Line(entry)) && Ending(LoneLine(line, entry), utf8).Some?
    requires BlockShaped(line) && DeclaredEnd(line) == Some(|line|)
    ensures Body(LoneLine(line, entry)) == [line + "\n"]
  {
    hide ItemLen, DeclaredEnd, BlockShaped, Ending, Body, WellFormed;
    var r, e := LoneLine(line, entry), entry + "\n";
    Assoc(line, "\n", e);
    DeclaredStays(line, "\n" + e);
    DeclaredItem(r);
    assert r[..|line| + 1] == line + "\n" && r[|line| + 1..] == e;
    BodyStep(r, |line| + 1, utf8);
    EntryIsLast(entry, utf8);
  }

  lemma DeclaredStays(line: string, later: string)
    requires BlockShaped(line) && DeclaredEnd(line) == Some(|line|)
    ensures BlockShaped(line + later) && DeclaredEnd(line + later) == Some(|line|)
  {
    hide ParseUnsigned;
    SliceOfAppend(line, later, 2, 2 + DigitValue(line[1]));
    assert (line + later)[0] == line[0] && (line + later)[1] == line[1];
  }

  lemma EntryIsLast(entry: string, utf8: string -> bool)
    requires WellFormed(Line(entry)) && Ending(entry + "\n", utf8).Some?
    ensures Body(entry + "\n") == []
  {
    hide ItemLen, Ending, Body;
    PlainFirst(entry, "");
    assert entry + "\n" + "" == entry + "\n";
    BodyStep(entry + "\n", |entry| + 1, utf8);
  }

  lemma BlockLineRead(line: string, maxBlockLen: nat)
    requires BlockShaped(line) && DeclaredEnd(line) == Some(|line|)
    ensures var nd := DigitValue(line[1]);
      && |line| >= 2 + nd
      && ParseSpec(line + "\n", maxBlockLen) ==
         if !AllDigits(line[2..2 + nd]) then Bad(InvalidLength)
         else if |line| - 2 - nd > maxBlockLen then Bad(TooLarge(|line| - 2 - nd, maxBlockLen))
         else Payload(line[2 + nd..])
  {
    var nd, w := DigitValue(line[1]), line + "\n";
    var field := line[2..2 + nd];
    SliceOfAppend(line, "\n", 2, 2 + nd);
    SliceOfAppend(line, "\n", 2 + nd, |line|);
    assert w[0] == line[0] && w[1] == line[1];
    if AllDigits(field) { FieldIsNumber(field); }
    hide AllDigits, Value, ParseUnsigned;
  }

  lemma FieldIsNumber(field: string)
    requires AllDigits(field) && ParseUnsigned(field, USIZE_MAX).Some?
    ensures ParseUnsigned(field, USIZE_MAX) == Some(Value(field))
  {
  }

  /** So text can start with a hash and come out as text. */
  lemma HashTextComesOut(entry: string, first: ScpiError, maxBlockLen: nat, utf8: string -> bool)
    requires WellFormed(Line(entry)) && Ending(LoneLine("#12abXYZ", entry), utf8) == Some(first)
    ensures IsText(OutputOf(Body(LoneLine("#12abXYZ", entry)), first, maxBlockLen, utf8))
  {
    hide OutputOf, IsText, Ending, Body, GoesOn, ParseEntry;
    HashTextGoesOn(entry);
    LoneLineExact("#12abXYZ", entry, first, maxBlockLen, utf8);
  }

  lemma HashTextGoesOn(entry: string)
    ensures '\n' !in "#12abXYZ" && BlockShaped("#12abXYZ") && GoesOn("#12abXYZ", entry)
  {
    var r := LoneLine("#12abXYZ", entry);
    assert r[2..3] == "2" == Dec(2) && DigitValue(r[1]) == 1;
    ParseDecimal(2, USIZE_MAX);
    hide ParseUnsigned, Dec;
  }

  lemma AbIsBlock()
    ensures |"ab"| < Pow10(9) && Encoded("ab") == "#12ab"
  {
    Pow10Table();
    hide Pow10;
    assert Dec(2) == "2" && Digits(2) == 1;
  }

  lemma EntryZero(utf8: string -> bool)
    requires utf8("0,\"x\"\n")
    ensures ParseEntry("0,\"x\"\n", utf8) == Some(ScpiError(0, "x"))
  {
    hide ParseEntry;
    assert SignedDec(0) == "0";
    assert "0" + ",\"" + "x" + "\"\n" == "0,\"x\"\n";
    EntryRoundTrip(0, "x", utf8);
  }

  lemma CutInTwo()
    ensures Items("#12ab0,\"x\"\n") == Some(["#12ab", "0,\"x\"\n"])
  {
    hide ItemLen, Encoded;
    AbIsBlock();
    var line, x := "#12ab0,\"x\"\n", "0,\"x\"";
    assert line == "#12ab" + (x + "\n");
    BlockItem("ab", x + "\n");
    assert line[..5] == "#12ab" && line[5..] == x + "\n";
    assert forall i :: 0 <= i < |x| ==> x[i] != '\n';
    WholeReply([Line(x)]);
    assert Wires([Line(x)]) == [x + "\n"];
    FlatOne(x + "\n");
    assert x + "\n" == "0,\"x\"\n";
    assert ["#12ab"] + ["0,\"x\"\n"] == ["#12ab", "0,\"x\"\n"];
  }

  /** A line that is no entry, cut into a block and an entry: the exchange stops at
      it and the error entry of the command stays unread. */
  lemma HashLineStops(entry: string, maxBlockLen: nat, utf8: string -> bool)
    requires maxBlockLen >= 2 && utf8("0,\"x\"\n")
    ensures ParseEntry("#12ab0,\"x\"\n", utf8) == None
    ensures Collect("", [Msg("#12ab0,\"x\"\n"), Msg(entry)], READ_LIMIT, maxBlockLen, utf8)
            == (Answered(Binary("ab"), ScpiError(0, "x")), [Msg(entry)])
  {
    hide ParseEntry, Items, ParseSpec, Encoded;
    var line := "#12ab0,\"x\"\n";
    HashIsNoEntry(line, utf8);
    CutInTwo();
    EntryZero(utf8);
    AbIsBlock();
    RoundTrip("ab", "", maxBlockLen);
    assert "#12ab" + "" == "#12ab";
    assert "" + line == line;
    assert ["#12ab", "0,\"x\"\n"][..1] == ["#12ab"];
    assert [Msg(line), Msg(entry)][1..] == [Msg(entry)];
  }

  // What the outcome is

  /** A lone block reply comes out as its payload, exactly when the payload is
      within the cap. */
  lemma BlockReply(payload: string, first: ScpiError, maxBlockLen: nat, utf8: string -> bool)
    requires |payload| < Pow10(9)
    ensures OutputOf(Wires([Block(payload)]), first, maxBlockLen, utf8)
            == if |payload| <= maxBlockLen then Answered(Binary(payload), first)
               else BadBlock(TooLarge(|payload|, maxBlockLen))
  {
    var w := Wires([Block(payload)]);
    assert w == [Wire(Block(payload))];
    RoundTrip(payload, "\n", maxBlockLen);
  }

  /** Lines with newlines between them. */
  function Joined(lines: seq<string>): string {
    if lines == [] then ""
    else if |lines| == 1 then lines[0]
    else lines[0] + "\n" + Joined(lines[1..])
  }

  function TextItems(lines: seq<string>): seq<Item> {
    seq(|lines|, i requires 0 <= i < |lines| => Line(lines[i]))
  }

  /** A text reply comes out as its lines, the newlines between them kept and the
      line ends at its end dropped; no output at all comes out as none. What a lone
      line that starts with a hash comes out as, `LoneLineExact` says. */
  lemma TextReply(lines: seq<string>, first: ScpiError, maxBlockLen: nat, utf8: string -> bool)
    requires AllWellFormed(TextItems(lines))
    requires |lines| == 1 && lines[0] != "" ==> lines[0][0] != '#'
    ensures OutputOf(Wires(TextItems(lines)), first, maxBlockLen, utf8)
            == if lines == [] then Answered(Nothing, first)
               else if utf8(TrimEol(Joined(lines))) then Answered(Reply(TrimEol(Joined(lines))), first)
               else NotUtf8
    ensures lines != [] && lines[|lines| - 1] != "" && !IsEol(lines[|lines| - 1][|lines[|lines| - 1]| - 1]) ==>
              TrimEol(Joined(lines)) == Joined(lines)
  {
    if lines != [] {
      FlatOfLines(lines);
      if lines[|lines| - 1] != "" { JoinedEnds(lines); }
      TrimEolOf(Joined(lines));
      assert Wires(TextItems(lines))[0] == lines[0] + "\n";
    }
  }

  lemma {:induction false} FlatOfLines(lines: seq<string>)
    requires lines != [] && AllWellFormed(TextItems(lines))
    ensures Flat(Wires(TextItems(lines))) == Joined(lines) + "\n"
    decreases |lines|
  {
    var items := TextItems(lines);
    var ws := Wires(items);
    assert ws[0] == lines[0] + "\n" && items[1..] == TextItems(lines[1..]);
    assert ws[1..] == Wires(items[1..]);
    if |lines| == 1 {
      assert ws[1..] == [];
    } else {
      FlatOfLines(lines[1..]);
      Assoc(lines[0] + "\n", Joined(lines[1..]), "\n");
    }
  }

  lemma {:induction false} JoinedEnds(lines: seq<string>)
    requires lines != [] && lines[|lines| - 1] != ""
    ensures var last := lines[|lines| - 1];
      Joined(lines) != "" && Joined(lines)[|Joined(lines)| - 1] == last[|last| - 1]
    decreases |lines|
  {
    if |lines| > 1 { JoinedEnds(lines[1..]); }
  }

  /** A lone line that starts with a hash, but not like a block header, is refused. */
  lemma HashLineRefused(line: string, first: ScpiError, maxBlockLen: nat, utf8: string -> bool)
    requires WellFormed(Line(line)) && line != "" && line[0] == '#'
    ensures OutputOf(Wires([Line(line)]), first, maxBlockLen, utf8) == BadBlock(BadDigitCount)
  {
    var w := Wires([Line(line)]);
    assert w == [line + "\n"];
  }

  /** Decimal text of a signed number. */
  function SignedDec(n: int): string {
    if n < 0 then "-" + Dec(-n) else Dec(n)
  }

  /** The entry a device writes is read back as its code and message, for every
      32-bit code and every message. */
  lemma EntryRoundTrip(code: int, message: string, utf8: string -> bool)
    requires -0x8000_0000 <= code <= 0x7FFF_FFFF
    requires utf8(SignedDec(code) + ",\"" + message + "\"\n")
    ensures ParseEntry(SignedDec(code) + ",\"" + message + "\"\n", utf8) == Some(ScpiError(code, message))
  {
    hide TrimEol, Trim, ParseI32, SignedDec, Index, ParseEntry;
    var d, quoted := SignedDec(code), "\"" + message + "\"";
    var text := d + ("," + quoted);
    assert SignedDec(code) + ",\"" + message + "\"\n" == text + "\n";
    TrimEolOf(text);
    SignedIsSolid(code);
    SignedParses(code);
    TrimSolid(d);
    EntryReads(text + "\n", d, quoted, code, utf8);
    assert quoted[1..|quoted| - 1] == message;
  }

  lemma EntryReads(line: string, d: string, quoted: string, code: int, utf8: string -> bool)
    requires utf8(line) && TrimEol(line) == d + ("," + quoted) && ',' !in d
    requires Trim(d) == d && ParseI32(d) == Some(code)
    requires |quoted| >= 2 && quoted[0] == '"' == quoted[|quoted| - 1]
    ensures ParseEntry(line, utf8) == Some(ScpiError(code, quoted[1..|quoted| - 1]))
  {
    hide TrimEol, Trim, ParseI32, Index;
    var text := d + ("," + quoted);
    IndexAfter(d, ',', "," + quoted);
    IndexHere("," + quoted);
    assert text[..|d|] == d && text[|d| + 1..] == quoted;
    TrimSolid(quoted);
  }

  lemma TrimEolOf(text: string)
    ensures TrimEol(text + "\n") == TrimEol(text)
    ensures text != "" && !IsEol(text[|text| - 1]) ==> TrimEol(text) == text
  {
    assert (text + "\n")[..|text|] == text;
  }

  lemma SignedIsSolid(code: int)
    ensures var d := SignedDec(code);
      d != "" && ',' !in d && !IsWs(d[0]) && !IsWs(d[|d| - 1])
  {
    var d := if code < 0 then Dec(-code) else Dec(code);
    assert forall i :: 0 <= i < |d| ==> IsDigit(d[i]);
  }

  lemma TrimSolid(s: string)
    requires s != "" && !IsWs(s[0]) && !IsWs(s[|s| - 1])
    ensures Trim(s) == s
  {
  }

  lemma SignedParses(code: int)
    requires -0x8000_0000 <= code <= 0x7FFF_FFFF
    ensures ParseI32(SignedDec(code)) == Some(code)
  {
    if code < 0 {
      ValueOfDecimal(-code);
      assert SignedDec(code)[1..] == Dec(-code);
    } else {
      ParseDecimal(code, 0x7FFF_FFFF);
    }
  }

  // Every queued error comes back

  function EntryText(e: ScpiError): string {
    SignedDec(e.code) + ",\"" + e.message + "\""
  }

  const NO_ERROR := "0,\"No error\"" + "\n"

  /** A message that the lenient reading of the drain gives back. */
  predicate Reportable(e: ScpiError, utf8: string -> bool) {
    && -0x8000_0000 <= e.code <= 0x7FFF_FFFF && !IsNoError(e) && utf8(EntryText(e))
    && (e.message != "" ==> e.message[0] != '"' && e.message[|e.message| - 1] != '"')
  }

  lemma QuotesTrimmed(m: string)
    requires m != "" ==> m[0] != '"' && m[|m| - 1] != '"'
    ensures TrimQuotesRight(TrimQuotesLeft("\"" + m + "\"")) == m
  {
    var q := "\"" + m + "\"";
    assert q[1..] == m + "\"";
    if m == "" {
      assert q[1..][1..] == "" && q[1..][0] == '"';
      assert TrimQuotesLeft(q[1..]) == "" && TrimQuotesLeft(q) == TrimQuotesLeft(q[1..]);
    } else {
      assert TrimQuotesLeft(q[1..]) == m + "\"";
      assert (m + "\"")[..|m|] == m;
    }
  }

  lemma EntryIsQueueEntry(e: ScpiError)
    requires -0x8000_0000 <= e.code <= 0x7FFF_FFFF
    requires e.message != "" ==> e.message[0] != '"' && e.message[|e.message| - 1] != '"'
    ensures QueueEntry(EntryText(e)) == e
  {
    hide Trim, ParseI32, SignedDec, Index, TrimQuotesLeft, TrimQuotesRight;
    var d, quoted := SignedDec(e.code), "\"" + e.message + "\"";
    var text := d + ("," + quoted);
    assert EntryText(e) == text;
    SignedIsSolid(e.code);
    SignedParses(e.code);
    TrimSolid(d);
    TrimSolid(quoted);
    QuotesTrimmed(e.message);
    IndexAfter(d, ',', "," + quoted);
    IndexHere("," + quoted);
    assert text[..|d|] == d && text[|d| + 1..] == quoted;
  }

  lemma EntryIsText(e: ScpiError, maxBlockLen: nat)
    ensures ReplyText(EntryText(e) + "\n", maxBlockLen) == Payload(EntryText(e))
  {
    hide TrimEol, SignedDec, ParseSpec;
    var t := EntryText(e);
    assert t[|t| - 1] == '"';
    TrimEolOf(t);
    SignedIsSolid(e.code);
    SignedHead(e.code);
    assert (t + "\n")[0] == SignedDec(e.code)[0];
  }

  lemma SignedHead(code: int)
    ensures SignedDec(code) != "" && SignedDec(code)[0] != '#'
  {
    var d := if code < 0 then Dec(-code) else Dec(code);
    assert IsDigit(d[0]);
  }

  function EntryMsgs(errs: seq<ScpiError>): seq<Read> {
    seq(|errs|, i requires 0 <= i < |errs| => Msg(EntryText(errs[i]) + "\n"))
  }

  lemma DrainOne(done: seq<ScpiError>, e: ScpiError, later: seq<Read>, maxBlockLen: nat, utf8: string -> bool)
    requires Reportable(e, utf8)
    ensures var arrivals := [Msg(EntryText(e) + "\n")] + later;
      Drain(done, arrivals, maxBlockLen, utf8)
      == if |done| + 1 >= DRAIN_LIMIT then (Checked(Nothing, done + [e]), later, 1)
         else
           var d := Drain(done + [e], later, maxBlockLen, utf8);
           (d.0, d.1, 1 + d.2)
  {
    hide ReplyText, QueueEntry, EntryText;
    EntryIsText(e, maxBlockLen);
    EntryIsQueueEntry(e);
    var arrivals := [Msg(EntryText(e) + "\n")] + later;
    assert arrivals[0] == Msg(EntryText(e) + "\n") && arrivals[1..] == later;
  }

  lemma DrainEnds(done: seq<ScpiError>, later: seq<Read>, maxBlockLen: nat, utf8: string -> bool)
    requires utf8("0,\"No error\"")
    ensures Drain(done, [Msg(NO_ERROR)] + later, maxBlockLen, utf8) == (Checked(Nothing, done), later, 1)
  {
    hide ReplyText, QueueEntry;
    var e := ScpiError(0, "No error");
    assert SignedDec(0) == "0";
    assert EntryText(e) == "0,\"No error\"";
    EntryIsText(e, maxBlockLen);
    EntryIsQueueEntry(e);
    var arrivals := [Msg(NO_ERROR)] + later;
    assert arrivals[0] == Msg(NO_ERROR) && arrivals[1..] == later;
  }

  /** The drain fetches the queue in order: up to the entry that says it is empty,
      or up to the limit. */
  lemma {:induction false} DrainFetches(done: seq<ScpiError>, errs: seq<ScpiError>, later: seq<Read>,
                                        maxBlockLen: nat, utf8: string -> bool)
    requires |done| < DRAIN_LIMIT && |done| + |errs| <= DRAIN_LIMIT && utf8("0,\"No error\"")
    requires forall i :: 0 <= i < |errs| ==> Reportable(errs[i], utf8)
    ensures |done| + |errs| < DRAIN_LIMIT ==>
      Drain(done, EntryMsgs(errs) + ([Msg(NO_ERROR)] + later), maxBlockLen, utf8)
      == (Checked(Nothing, done + errs), later, |errs| + 1)
    ensures |done| + |errs| == DRAIN_LIMIT ==>
      Drain(done, EntryMsgs(errs) + later, maxBlockLen, utf8) == (Checked(Nothing, done + errs), later, |errs|)
    decreases |errs|
  {
    hide Drain, Reportable, EntryText;
    if errs == [] {
      assert done + errs == done;
      assert EntryMsgs(errs) + ([Msg(NO_ERROR)] + later) == [Msg(NO_ERROR)] + later;
      DrainEnds(done, later, maxBlockLen, utf8);
    } else {
      var m, more := Msg(EntryText(errs[0]) + "\n"), EntryMsgs(errs[1..]);
      assert EntryMsgs(errs) == [m] + more;
      assert done + errs == done + [errs[0]] + errs[1..];
      DrainOne(done, errs[0], more + ([Msg(NO_ERROR)] + later), maxBlockLen, utf8);
      DrainOne(done, errs[0], more + later, maxBlockLen, utf8);
      Assoc([m], more, [Msg(NO_ERROR)] + later);
      Assoc([m], more, later);
      if |done| + 1 < DRAIN_LIMIT {
        DrainFetches(done + [errs[0]], errs[1..], later, maxBlockLen, utf8);
      } else {
        assert more + later == later;
        assert done + errs == done + [errs[0]];
      }
    }
  }

  /** Why a reply that is no entry is none: no reply, a malformed block, or bytes that
      are no text. */
  function Fault(bad: Read, maxBlockLen: nat, utf8: string -> bool): Option<Outcome> {
    match bad
    case Failure => Some(ReadFailed)
    case Msg(raw) =>
      match ReplyText(raw, maxBlockLen)
      case Bad(error) => Some(BadBlock(error))
      case Payload(text) => if utf8(text) then None else Some(NotUtf8)
  }

  lemma DrainStops(done: seq<ScpiError>, bad: Read, later: seq<Read>, maxBlockLen: nat, utf8: string -> bool)
    requires Fault(bad, maxBlockLen, utf8).Some?
    ensures Drain(done, [bad] + later, maxBlockLen, utf8) == (Failed(Fault(bad, maxBlockLen, utf8).value), later, 1)
  {
    hide ReplyText;
    var arrivals := [bad] + later;
    assert arrivals[0] == bad && arrivals[1..] == later;
  }

  /** A drain that meets such a reply fails with that reason, after as many queries as it
      took to get there. */
  lemma {:induction false} DrainFails(done: seq<ScpiError>, errs: seq<ScpiError>, bad: Read, later: seq<Read>,
                                      maxBlockLen: nat, utf8: string -> bool)
    requires |done| + |errs| < DRAIN_LIMIT && Fault(bad, maxBlockLen, utf8).Some?
    requires forall i :: 0 <= i < |errs| ==> Reportable(errs[i], utf8)
    ensures Drain(done, EntryMsgs(errs) + ([bad] + later), maxBlockLen, utf8)
            == (Failed(Fault(bad, maxBlockLen, utf8).value), later, |errs| + 1)
    decreases |errs|
  {
    hide Drain, Reportable, EntryText, Fault;
    if errs == [] {
      assert EntryMsgs(errs) + ([bad] + later) == [bad] + later;
      DrainStops(done, bad, later, maxBlockLen, utf8);
    } else {
      var m, more := Msg(EntryText(errs[0]) + "\n"), EntryMsgs(errs[1..]);
      assert EntryMsgs(errs) == [m] + more;
      DrainOne(done, errs[0], more + ([bad] + later), maxBlockLen, utf8);
      Assoc([m], more, [bad] + later);
      DrainFails(done + [errs[0]], errs[1..], bad, later, maxBlockLen, utf8);
    }
  }

  /** What fails is final: a reply that does not come to an answer is reported with its
      reason and nothing further is asked; and if the drain after a first error fails,
      the whole command does, the output and the errors so far with it. */
  lemma FailureIsFinal(arrivals: seq<Read>, maxBlockLen: nat, utf8: string -> bool)
    ensures var c := Collect("", arrivals, READ_LIMIT, maxBlockLen, utf8);
      var d := Drain([], c.1, maxBlockLen, utf8);
      && (!c.0.Answered? ==> Exchange(arrivals, maxBlockLen, utf8) == (Failed(c.0), c.1, 0))
      && (c.0.Answered? && c.0.first.code != 0 && d.0.Failed? ==> Exchange(arrivals, maxBlockLen, utf8) == d)
  {
    hide Collect, Drain;
  }

  lemma {:induction false} NothingLeft(chunks: seq<string>)
    requires Flat(chunks) == "" && forall i :: 0 <= i < |chunks| ==> chunks[i] != ""
    ensures chunks == []
  {
  }

  /** Reads that all carry something are used up by the reply. */
  lemma CollectsExactly(reply: string, first: ScpiError, chunks: seq<string>, later: seq<Read>,
                        maxBlockLen: nat, utf8: string -> bool)
    requires Ending(reply, utf8) == Some(first) && NoEntry(Body(reply), utf8)
    requires Flat(chunks) == reply && |chunks| <= READ_LIMIT && forall i :: 0 <= i < |chunks| ==> chunks[i] != ""
    ensures Collect("", Msgs(chunks) + later, READ_LIMIT, maxBlockLen, utf8)
            == (OutputOf(Body(reply), first, maxBlockLen, utf8), later)
  {
    hide Collect, ParseEntry, OutputOf, Flat, Before, Ending, Items, Body, Msgs, NoEntry;
    BeforeIsBody(reply);
    EndingIsItems(reply, utf8);
    EndingEmpty(utf8);
    assert "" + Flat(chunks) == Flat(chunks);
    var left := CollectsReply(reply, first, "", chunks, later, READ_LIMIT, maxBlockLen, utf8);
    NothingLeft(left);
    NoMsgs(later);
  }

  lemma NoMsgs(later: seq<Read>)
    ensures Msgs([]) + later == later
  {
  }

  lemma AnswerNamesEntry(body: seq<string>, first: ScpiError, maxBlockLen: nat, utf8: string -> bool)
    requires OutputOf(body, first, maxBlockLen, utf8).Answered?
    ensures OutputOf(body, first, maxBlockLen, utf8).first == first
  {
    hide ParseSpec, TrimEol;
  }

  lemma EndingIsItems(reply: string, utf8: string -> bool)
    requires Ending(reply, utf8).Some?
    ensures Items(reply).Some?
  {
  }

  /** The checked command returns its output and the errors it queued, in order:
      all of them up to 65, asking until the queue is empty or the limit reached;
      of more the first 65, and the rest stays in the queue. When it queued none the
      list is empty and nothing more is asked. For any cut of the reply into reads
      that carry something. */
  lemma AllErrorsReturned(reply: string, chunks: seq<string>, errs: seq<ScpiError>, maxBlockLen: nat, utf8: string -> bool)
    requires errs != [] && Ending(reply, utf8) == Some(errs[0]) && NoEntry(Body(reply), utf8)
    requires OutputOf(Body(reply), errs[0], maxBlockLen, utf8).Answered?
    requires Flat(chunks) == reply && |chunks| <= READ_LIMIT && forall i :: 0 <= i < |chunks| ==> chunks[i] != ""
    requires utf8("0,\"No error\"")
    requires forall i :: 1 <= i < |errs| && i <= DRAIN_LIMIT ==> Reportable(errs[i], utf8)
    ensures var output := OutputOf(Body(reply), errs[0], maxBlockLen, utf8).output;
      if errs[0].code == 0 then Exchange(Msgs(chunks), maxBlockLen, utf8) == (Checked(output, []), [], 0)
      else if |errs| <= DRAIN_LIMIT then
        Exchange(Msgs(chunks) + (EntryMsgs(errs[1..]) + [Msg(NO_ERROR)]), maxBlockLen, utf8)
        == (Checked(output, errs), [], |errs|)
      else
        Exchange(Msgs(chunks) + EntryMsgs(errs[1..]), maxBlockLen, utf8)
        == (Checked(output, errs[..DRAIN_LIMIT + 1]), EntryMsgs(errs[DRAIN_LIMIT + 1..]), DRAIN_LIMIT)
  {
    hide Collect, ParseEntry, OutputOf, Flat, Body, Drain, Reportable, Ending, Msgs, EntryMsgs, Exchange, NoEntry;
    var first, output := errs[0], OutputOf(Body(reply), errs[0], maxBlockLen, utf8);
    AnswerNamesEntry(Body(reply), first, maxBlockLen, utf8);
    if first.code == 0 {
      CollectsExactly(reply, first, chunks, [], maxBlockLen, utf8);
      assert Msgs(chunks) + [] == Msgs(chunks);
      ExchangeIs(Msgs(chunks), output, [], maxBlockLen, utf8);
    } else {
      var more := EntryMsgs(errs[1..]) + if |errs| <= DRAIN_LIMIT then [Msg(NO_ERROR)] else [];
      assert |errs| > DRAIN_LIMIT ==> more == EntryMsgs(errs[1..]);
      CollectsExactly(reply, first, chunks, more, maxBlockLen, utf8);
      ExchangeIs(Msgs(chunks) + more, output, more, maxBlockLen, utf8);
      if |errs| <= DRAIN_LIMIT {
        FurtherErrors(errs[1..], maxBlockLen, utf8);
        assert [first] + errs[1..] == errs;
      } else {
        FirstErrors(errs[1..], maxBlockLen, utf8);
        assert [first] + errs[1..][..DRAIN_LIMIT] == errs[..DRAIN_LIMIT + 1];
        DropDrop(errs, 1, DRAIN_LIMIT);
      }
    }
  }

  lemma ExchangeIs(arrivals: seq<Read>, answer: Outcome, later: seq<Read>, maxBlockLen: nat, utf8: string -> bool)
    requires answer.Answered? && Collect("", arrivals, READ_LIMIT, maxBlockLen, utf8) == (answer, later)
    ensures Exchange(arrivals, maxBlockLen, utf8) ==
      if answer.first.code == 0 then (Checked(answer.output, []), later, 0)
      else
        var d := Drain([], later, maxBlockLen, utf8);
        (if d.0.Checked? then Checked(answer.output, [answer.first] + d.0.errors) else d.0, d.1, d.2)
  {
    hide Collect, Drain;
  }

  lemma FurtherErrors(errs: seq<ScpiError>, maxBlockLen: nat, utf8: string -> bool)
    requires |errs| < DRAIN_LIMIT && utf8("0,\"No error\"")
    requires forall i :: 0 <= i < |errs| ==> Reportable(errs[i], utf8)
    ensures Drain([], EntryMsgs(errs) + [Msg(NO_ERROR)], maxBlockLen, utf8) == (Checked(Nothing, errs), [], |errs| + 1)
  {
    hide Drain, Reportable, EntryMsgs;
    DrainFetches([], errs, [], maxBlockLen, utf8);
    assert [Msg(NO_ERROR)] + [] == [Msg(NO_ERROR)] && [] + errs == errs;
  }

  lemma FirstErrors(errs: seq<ScpiError>, maxBlockLen: nat, utf8: string -> bool)
    requires |errs| >= DRAIN_LIMIT && utf8("0,\"No error\"")
    requires forall i :: 0 <= i < DRAIN_LIMIT ==> Reportable(errs[i], utf8)
    ensures Drain([], EntryMsgs(errs), maxBlockLen, utf8)
            == (Checked(Nothing, errs[..DRAIN_LIMIT]), EntryMsgs(errs[DRAIN_LIMIT..]), DRAIN_LIMIT)
  {
    hide Drain, Reportable, EntryText;
    var front, rest := errs[..DRAIN_LIMIT], errs[DRAIN_LIMIT..];
    DrainFetches([], front, EntryMsgs(rest), maxBlockLen, utf8);
    assert EntryMsgs(errs) == EntryMsgs(front) + EntryMsgs(rest) && [] + front == front;
  }
}
