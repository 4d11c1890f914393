/** The raw USBTMC host (host/rust/src/usbtmc_raw.rs) against the device's
    bulk-IN side, over a bus that cuts each transfer into reads as it likes. */
module UsbtmcHost {
  import opened Common
  import opened LittleEndian
  import opened UsbtmcDevice
  import Wrapping

  const HEADER: nat := 12
  const DEV_DEP_MSG_OUT: Byte := 1
  const DEV_DEP_MSG_IN: Byte := 2
  const EOM_BIT: Byte := 1

  /** bTag runs through 1..255. */
  function NextTag(t: Byte): (r: Byte) {
    if (t + 1) % 256 == 0 then 1 else (t + 1) % 256
  }

  function TagAfter(t: Byte, n: nat): Byte {
    if n == 0 then t else NextTag(TagAfter(t, n - 1))
  }

  /** A tag is never zero and comes round again only after 255 transfers, so a
      stale answer from any of the last 254 is told apart. */
  lemma {:induction false} TagsRotate(t: Byte, n: nat)
    requires t != 0
    ensures TagAfter(t, n) == (t - 1 + n) % 255 + 1
  {
    if n > 0 {
      hide NextTag;
      TagsRotate(t, n - 1);
      Wrapping.WrappedAdvance(t - 1 + n - 1, 1, 255);
      TagStep((t - 1 + n - 1) % 255);
    }
  }

  lemma TagStep(r: nat)
    requires r < 255
    ensures NextTag(r + 1) == (r + 1) % 255 + 1
  {
  }

  lemma StaleTagsDiffer(t: Byte, i: nat, j: nat)
    requires t != 0 && i < j < i + 255
    ensures TagAfter(t, i) != TagAfter(t, j) && TagAfter(t, i) != 0
  {
    TagsRotate(t, i);
    TagsRotate(t, j);
    Wrapping.DistinctCells(t - 1 + i, t - 1 + j, 255);
  }

  /** The 12-byte header in front of a transfer's payload. */
  function Head(id: Byte, tag: Byte, size: nat, eom: bool): (h: seq<Byte>)
    ensures |h| == HEADER
  {
    [id, tag, 255 - tag, 0] + Le(size, 4) + [if eom then EOM_BIT else 0, 0, 0, 0]
  }

  lemma HeadReads(id: Byte, tag: Byte, size: nat, eom: bool, rest: seq<Byte>)
    requires size < Pow256(4)
    ensures var h := Head(id, tag, size, eom) + rest;
      && h[0] == id && h[1] == tag && h[2] == 255 - tag && Un(h[4..8]) == size
      && (h[8] % 2 != 0 <==> eom) && h[12..] == rest
      && h[3] == 0 && h[9] == 0 && h[10] == 0 && h[11] == 0
  {
    var h := Head(id, tag, size, eom) + rest;
    assert h[4..8] == Le(size, 4);
    UnLe(size, 4);
  }

  /** A command transfer: header, data, zeros up to a multiple of four. */
  method BuildMsgOut(data: seq<Byte>, tag: Byte, eom: bool) returns (buf: seq<Byte>)
    requires |data| < Pow256(4)
    ensures |buf| % 4 == 0 && HEADER + |data| <= |buf| < HEADER + |data| + 4
    ensures buf[..HEADER] == Head(DEV_DEP_MSG_OUT, tag, |data|, eom)
    ensures buf[HEADER..HEADER + |data|] == data
    ensures forall i :: HEADER + |data| <= i < |buf| ==> buf[i] == 0
  {
    hide Head, Pow256;
    var total := HEADER + |data|;
    var padded := (total + 3) / 4 * 4;
    var head := Head(DEV_DEP_MSG_OUT, tag, |data|, eom);
    buf := head + data;
    assert buf[..HEADER] == head && buf[HEADER..total] == data;
    while |buf| < padded
      invariant total <= |buf| <= padded
      invariant buf[..HEADER] == head && buf[HEADER..total] == data
      invariant forall i :: total <= i < |buf| ==> buf[i] == 0
    {
      ghost var before := buf;
      buf := buf + [0];
      SliceOfAppend(before, [0], 0, HEADER);
      SliceOfAppend(before, [0], HEADER, total);
    }
  }

  /** What one bulk-IN read comes to. */
  datatype Read = Got(bytes: seq<Byte>) | Lost

  datatype Answer =
    | Took(payload: seq<Byte>, eom: bool)
    | TransferFailed
    | TooShort
    | WrongId
    | WrongTag
    | EndedEarly

  /** The rest of a payload of `size` bytes, read by read, and the reads left. */
  function Gathered(payload: seq<Byte>, size: nat, eom: bool, rs: seq<Read>): (Answer, seq<Read>)
    requires |payload| <= size
    decreases |rs|
  {
    if |payload| == size then (Took(payload, eom), rs)
    else if rs == [] then (TransferFailed, [])
    else if rs[0].Lost? then (TransferFailed, rs[1..])
    else if rs[0].bytes == [] then (EndedEarly, rs[1..])
    else
      var take := Min(|rs[0].bytes|, size - |payload|);
      Gathered(payload + rs[0].bytes[..take], size, eom, rs[1..])
  }

  /** The answer to the request with this tag, whatever the reads return. */
  function AnswerOf(rs: seq<Read>, btag: Byte): (Answer, seq<Read>) {
    if rs == [] then (TransferFailed, [])
    else if rs[0].Lost? then (TransferFailed, rs[1..])
    else
      var buf := rs[0].bytes;
      if |buf| < HEADER then (TooShort, rs[1..])
      else if buf[0] != DEV_DEP_MSG_IN then (WrongId, rs[1..])
      else if buf[1] != btag then (WrongTag, rs[1..])
      else
        var size := Un(buf[4..8]);
        Gathered(buf[HEADER..HEADER + Min(|buf| - HEADER, size)], size, buf[8] % 2 != 0, rs[1..])
  }

  function BytesOf(rs: seq<Read>): seq<Byte> {
    if rs == [] then [] else (if rs[0].Got? then rs[0].bytes else []) + BytesOf(rs[1..])
  }

  /** Every read returns something. */
  predicate Flowing(rs: seq<Read>) {
    forall i :: 0 <= i < |rs| ==> rs[i].Got? && rs[i].bytes != []
  }

  /** The reads of one transfer, cut as the bus likes; the first packet, at least
      64 bytes long, is never split inside the header. */
  predicate Delivers(rs: seq<Read>, wire: seq<Byte>) {
    Flowing(rs) && rs != [] && |rs[0].bytes| >= HEADER && BytesOf(rs) == wire
  }

  lemma {:induction false} GathersAll(payload: seq<Byte>, out: seq<Byte>, eom: bool, rs: seq<Read>)
    requires Flowing(rs) && payload + BytesOf(rs) == out
    ensures Gathered(payload, |out|, eom, rs) == (Took(out, eom), [])
    decreases |rs|
  {
    if rs == [] {
      assert payload == out;
    } else {
      var more := rs[0].bytes;
      assert |payload| + |more| <= |out|;
      assert more[..|more|] == more;
      Assoc(payload, more, BytesOf(rs[1..]));
      GathersAll(payload + more, out, eom, rs[1..]);
    }
  }

  /** The answer of a device that sends what it declares is taken whole, however
      the bus cuts it: none of the error returns happens. */
  lemma ConformingAnswer(btag: Byte, out: seq<Byte>, last: bool, rs: seq<Read>)
    requires |out| < Pow256(4) && Delivers(rs, Head(DEV_DEP_MSG_IN, btag, |out|, last) + out)
    ensures AnswerOf(rs, btag) == (Took(out, last), [])
  {
    hide Head, Le, Un, Pow256, Gathered;
    HeadReads(DEV_DEP_MSG_IN, btag, |out|, last, out);
    var wire, buf := Head(DEV_DEP_MSG_IN, btag, |out|, last) + out, rs[0].bytes;
    CutAfterHead(wire, buf, BytesOf(rs[1..]));
    assert Min(|buf| - HEADER, |out|) == |buf| - HEADER && buf[HEADER..|buf|] == buf[HEADER..];
    GathersAll(buf[HEADER..], out, last, rs[1..]);
  }

  /** The bulk-IN pipe: the reads it will give, and how it will cut what a device
      sends. */
  class Pipe {
    var pending: seq<Read>
    var cuts: seq<nat>     // arbitrary

    constructor (cuts: seq<nat>)
      ensures pending == [] && this.cuts == cuts
    {
      pending, this.cuts := [], cuts;
    }

    method Carry(wire: seq<Byte>)
      requires |wire| >= HEADER && pending == []
      modifies this
      ensures Delivers(pending, wire)
    {
      var i := 0;
      while i < |wire|
        invariant i <= |wire| && Flowing(pending) && BytesOf(pending) == wire[..i]
        invariant i > 0 ==> pending != [] && |pending[0].bytes| >= HEADER
      {
        var n := if i == 0 then HEADER else 1;
        if cuts != [] {
          n := Min(Max(n, cuts[0]), |wire| - i);
          cuts := cuts[1..];
        }
        ghost var before := pending;
        pending := pending + [Got(wire[i..i + n])];
        BytesOneMore(before, wire[i..i + n]);
        SliceSplits(wire, 0, i, i + n);
        i := i + n;
      }
      assert wire[..i] == wire;
    }

    method BulkIn() returns (r: Read)
      modifies this`pending
      ensures if old(pending) == [] then r == Lost && pending == []
              else r == old(pending)[0] && pending == old(pending)[1..]
    {
      if pending == [] { return Lost; }
      r, pending := pending[0], pending[1..];
    }
  }

  lemma BytesFront(r: Read, rs: seq<Read>)
    ensures BytesOf([r] + rs) == (if r.Got? then r.bytes else []) + BytesOf(rs)
  {
    assert ([r] + rs)[1..] == rs;
  }

  lemma {:induction false} BytesOneMore(rs: seq<Read>, bytes: seq<Byte>)
    ensures BytesOf(rs + [Got(bytes)]) == BytesOf(rs) + bytes
  {
    if rs == [] {
      BytesFront(Got(bytes), []);
      assert rs + [Got(bytes)] == [Got(bytes)] + rs;
    } else {
      BytesOneMore(rs[1..], bytes);
      BytesFront(rs[0], rs[1..] + [Got(bytes)]);
      assert rs + [Got(bytes)] == [rs[0]] + (rs[1..] + [Got(bytes)]);
      Assoc(if rs[0].Got? then rs[0].bytes else [], BytesOf(rs[1..]), bytes);
    }
  }

  /** What a read of up to m bytes must return: the front of the queue, or the
      device's filler when there is nothing. */
  function ReadSpec(queue: seq<Byte>, m: nat): seq<Byte> {
    if queue == [] then [NEWLINE] else queue[..Min(Max(m, 1), |queue|)]
  }

  class Host {
    var btag: Byte

    constructor ()
      ensures btag == 0
    {
      btag := 0;
    }

    method NextBtag() returns (t: Byte)
      modifies this`btag
      ensures t == btag == NextTag(old(btag)) && t != 0
    {
      btag := (btag + 1) % 256;
      if btag == 0 { btag := 1; }
      t := btag;
    }

    /** The answer to a request: first the header with what came along, then the
        rest of the declared payload. */
    method TakeAnswer(pipe: Pipe, btag: Byte) returns (r: Answer)
      modifies pipe`pending
      ensures (r, pipe.pending) == AnswerOf(old(pipe.pending), btag)
    {
      hide Un;
      var first := pipe.BulkIn();
      if first.Lost? { return TransferFailed; }
      var buf := first.bytes;
      var n := |buf|;
      if n < HEADER { return TooShort; }
      if buf[0] != DEV_DEP_MSG_IN { return WrongId; }
      if buf[1] != btag { return WrongTag; }
      var size := Un(buf[4..8]);
      var eom := buf[8] % 2 != 0;
      var got := Min(n - HEADER, size);
      var payload := buf[HEADER..HEADER + got];
      while got < size
        invariant got == |payload| <= size
        invariant Gathered(payload, size, eom, pipe.pending) == AnswerOf(old(pipe.pending), btag)
        decreases size - got
      {
        var left := size - got;
        var more := pipe.BulkIn();
        if more.Lost? { return TransferFailed; }
        if more.bytes == [] { return EndedEarly; }
        var take := Min(|more.bytes|, left);
        payload := payload + more.bytes[..take];
        got := got + take;
      }
      r := Took(payload, eom);
    }

    /** One exchange: request up to `want` bytes and take the whole answer. */
    method Exchange(dev: Glue, pipe: Pipe, want: nat) returns (payload: seq<Byte>, eom: bool)
      requires dev.Valid() && !dev.inFlight && pipe.pending == [] && want >= 1
      modifies this`btag, dev, pipe
      ensures dev.Valid() && !dev.inFlight && pipe.pending == []
      ensures 1 <= |payload| <= want
      ensures var (_, p, e) := Requested(old(dev.State()), want % Pow256(4)); (payload, eom) == (p, e)
      ensures dev.State() == Completed(Requested(old(dev.State()), want % Pow256(4)).0)
    {
      hide Head, Pow256, NextTag, AnswerOf, Delivers;
      Pow256Table();
      var btag := NextBtag();
      var out, last := dev.RequestIn(want % Pow256(4));
      assert 1 <= |out| <= want && |out| <= TX_BUF_SIZE;
      pipe.Carry(Head(DEV_DEP_MSG_IN, btag, |out|, last) + out);
      ConformingAnswer(btag, out, last, pipe.pending);
      var r := TakeAnswer(pipe, btag);
      payload, eom := r.payload, r.eom;
      dev.CompleteIn();
    }

    /** The front of the queue, at most m bytes of it but at least one; the rest
        stays queued for the next call. */
    method ReadMsgIn(dev: Glue, pipe: Pipe, m: nat) returns (result: seq<Byte>)
      requires dev.Valid() && !dev.inFlight && pipe.pending == []
      modifies this`btag, dev, pipe
      ensures dev.Valid() && !dev.inFlight && pipe.pending == []
      ensures result == ReadSpec(old(Undelivered(dev.State())), m)
      ensures old(Undelivered(dev.State())) != [] ==>
        result + Undelivered(dev.State()) == old(Undelivered(dev.State()))
      ensures old(Undelivered(dev.State())) == [] ==> Undelivered(dev.State()) == []
    {
      hide Requested, Completed, Pow256;
      ghost var queue := Undelivered(dev.State());
      result := [];
      while true
        invariant dev.Valid() && !dev.inFlight && pipe.pending == []
        invariant result + Undelivered(dev.State()) == queue
        invariant result == [] || |result| < m
        invariant result != [] ==> Undelivered(dev.State()) != []
        decreases |Undelivered(dev.State())|
      {
        var left := if m < |result| then 0 else m - |result|;
        var want := if left < 1 then 1 else left;
        ghost var before, soFar := dev.State(), result;
        var payload, eom := Exchange(dev, pipe, want);
        result := result + payload;
        Pow256Table();
        ExchangeMoves(before, want % Pow256(4));
        if Undelivered(before) != [] {
          Assoc(soFar, payload, Undelivered(dev.State()));
          assert queue[..|result|] == result;
        }
        if eom || |result| >= m { break; }
      }
    }
  }

  /** What the host says of an answer it cannot take: the first read failed, is too
      short for a header, is of the wrong kind, or has another tag, in that order; any
      other is judged by the payload it declares. */
  lemma AnswerErrors(rs: seq<Read>, btag: Byte)
    ensures var a := AnswerOf(rs, btag).0;
      if rs == [] || rs[0].Lost? then a == TransferFailed
      else if |rs[0].bytes| < 12 then a == TooShort
      else if rs[0].bytes[0] != 2 then a == WrongId
      else if rs[0].bytes[1] != btag then a == WrongTag
      else a.Took? || a == TransferFailed || a == EndedEarly
  {
    if rs != [] && rs[0].Got? && |rs[0].bytes| >= HEADER {
      var buf := rs[0].bytes;
      var size := Un(buf[4..8]);
      GatherErrors(buf[HEADER..HEADER + Min(|buf| - HEADER, size)], size, buf[8] % 2 != 0, rs[1..]);
    }
  }

  /** Of a payload that goes on: it is taken when the reads bring it up to its size, and
      fails only if they do not or one of them failed; it ends early only at an empty
      one. */
  lemma {:induction false} GatherErrors(payload: seq<Byte>, size: nat, eom: bool, rs: seq<Read>)
    requires |payload| <= size
    ensures match Gathered(payload, size, eom, rs).0
      case Took(p, e) => |p| == size && payload <= p && e == eom
      case TransferFailed => |payload| + |BytesOf(rs)| < size || exists i :: 0 <= i < |rs| && rs[i].Lost?
      case EndedEarly => exists i :: 0 <= i < |rs| && rs[i] == Got([])
      case _ => false
    decreases |rs|
  {
    if |payload| < size && rs != [] && rs[0].Got? && rs[0].bytes != [] {
      var take := Min(|rs[0].bytes|, size - |payload|);
      GatherErrors(payload + rs[0].bytes[..take], size, eom, rs[1..]);
    }
  }

  /** The first read holds the header as it was sent and the front of the payload. */
  lemma CutAfterHead(answer: seq<Byte>, buf: seq<Byte>, wire: seq<Byte>)
    requires answer == buf + wire && HEADER <= |buf|
    ensures buf[0] == answer[0] && buf[1] == answer[1] && buf[8] == answer[8]
    ensures buf[4..8] == answer[4..8] && buf[HEADER..] + wire == answer[HEADER..]
  {
  }

  /** One request and its completion move the front of the queue out, and end
      the message exactly when nothing is left. */
  lemma ExchangeMoves(s: Tx, size: nat)
    requires Inv(s) && !s.inFlight
    ensures var (t, payload, eom) := Requested(s, size);
      && Inv(Completed(t)) && payload != []
      && (eom <==> Undelivered(Completed(t)) == [])
      && (Undelivered(s) == [] ==> payload == [NEWLINE] && eom)
      && (Undelivered(s) != [] ==> payload + Undelivered(Completed(t)) == Undelivered(s))
  {
    var (t, payload, eom) := Requested(s, size);
    if s.pending {
      SliceSplits(s.buf, s.sent, s.sent + t.chunk, |s.buf|);
    }
  }

  /** The results of a series of reads, and the queue they leave. */
  function Reads(queue: seq<Byte>, ms: seq<nat>): (seq<seq<Byte>>, seq<Byte>) {
    if ms == [] || queue == [] then ([], queue)
    else
      var r := ReadSpec(queue, ms[0]);
      var (more, left) := Reads(queue[|r|..], ms[1..]);
      ([r] + more, left)
  }

  lemma EmptyRead(m: nat)
    ensures ReadSpec([], m) == [10]
  {
  }

  lemma ReadIsFront(queue: seq<Byte>, m: nat)
    requires queue != []
    ensures var r := ReadSpec(queue, m);
      1 <= |r| <= |queue| && |r| <= Max(m, 1) && queue == r + queue[|r|..]
  {
  }

  /** Successive reads, whatever their sizes, put the queue back together; as
      many of them as there are bytes always empty it. */
  lemma {:induction false} ReadsReassemble(queue: seq<Byte>, ms: seq<nat>)
    ensures var (got, left) := Reads(queue, ms);
      && Flat(got) + left == queue && |got| <= |ms|
      && (|ms| >= |queue| ==> left == [])
      && forall i :: 0 <= i < |got| ==> 1 <= |got[i]| <= Max(ms[i], 1)
    decreases |ms|
  {
    hide ReadSpec, Max;
    if ms != [] && queue != [] {
      var r := ReadSpec(queue, ms[0]);
      ReadIsFront(queue, ms[0]);
      ReadsReassemble(queue[|r|..], ms[1..]);
      var (more, left) := Reads(queue[|r|..], ms[1..]);
      assert ([r] + more)[1..] == more;
      Assoc(r, Flat(more), left);
      forall i | 0 <= i < |[r] + more| ensures 1 <= |([r] + more)[i]| <= Max(ms[i], 1) {
        assert i > 0 ==> ([r] + more)[i] == more[i - 1] && ms[i] == ms[1..][i - 1];
      }
    }
  }
}
