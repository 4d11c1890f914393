/** Received CAN frames over the USB vendor pipe
    (examples/stm32f4disco/can_stream.h): whole records into the ring in the
    receive interrupt, framed records out of it in the main loop. */
module CanStream {
  import opened Common
  import opened LittleEndian
  import opened RingBuffer
  import opened Framing
  import opened Wrapping
  import Streams = StreamSessions

  const STRIDE: nat := 32
  const FRAME_SIZE: nat := 36

  /** The 32-byte record of one received frame. */
  function Record(ts: nat, dropped: nat, bus: Byte, id: nat, ext: bool, rtr: bool, len: nat, data: seq<Byte>)
    : (r: seq<Byte>)
    requires |data| >= 8
    ensures |r| == STRIDE
  {
    var n: nat := if len > 8 then 8 else len;
    var flags: Byte := (if ext then 1 else 0) + (if rtr then 2 else 0);
    Le(ts, 8) + Le(dropped, 8) + Le(id, 4) + [n as Byte, flags, bus, 0] + Padded(if rtr then [] else data[..n], 8)
  }

  function Frames(records: seq<seq<Byte>>): (fs: seq<Frame>)
    ensures |fs| == |records|
  {
    seq(|records|, i requires 0 <= i < |records| => Rec(records[i]))
  }

  /** A frame off the bus, as the receive interrupt gets it. */
  datatype Received =
    Received(ts: nat, bus: Byte, id: nat, ext: bool, rtr: bool, len: nat, data: seq<Byte>)

  predicate AllSized(fs: seq<Received>) {
    forall i :: 0 <= i < |fs| ==> |fs[i].data| >= 8
  }

  /** Before each test of the pump's loop: the interrupts that came, and the room
      the endpoint then reports. */
  datatype Turn = Turn(interrupts: seq<Received>, room: nat)

  predicate SizedTurns(turns: seq<Turn>) {
    forall i :: 0 <= i < |turns| ==> AllSized(turns[i].interrupts)
  }

  /** The records queued and the counters. */
  datatype Queue = Queue(records: seq<seq<Byte>>, count: nat, dropped: nat)

  /** Whole records or nothing: the record is queued if a ring of this size has
      room, otherwise it is counted as lost. */
  function Pushed(q: Queue, f: Received, size: nat): Queue
    requires |f.data| >= 8
  {
    if size - STRIDE * |q.records| < STRIDE then q.(dropped := q.dropped + 1)
    else
      var r := Record(f.ts, q.dropped, f.bus, f.id, f.ext, f.rtr, f.len, f.data);
      q.(records := q.records + [r], count := q.count + 1)
  }

  function PushedAll(q: Queue, fs: seq<Received>, size: nat): Queue
    requires AllSized(fs)
  {
    if fs == [] then q
    else
      assert AllSized(fs[..|fs| - 1]);
      Pushed(PushedAll(q, fs[..|fs| - 1], size), fs[|fs| - 1], size)
  }

  /** The pump with a host listening: the queue after it and the records sent. */
  function Pumped(q: Queue, turns: seq<Turn>, size: nat): (Queue, seq<seq<Byte>>)
    requires SizedTurns(turns)
    decreases |turns|
  {
    if turns == [] then (q, [])
    else
      var q1 := PushedAll(q, turns[0].interrupts, size);
      if q1.records == [] || turns[0].room < FRAME_SIZE then (q1, [])
      else
        assert SizedTurns(turns[1..]);
        var (q2, sent) := Pumped(q1.(records := q1.records[1..]), turns[1..], size);
        (q2, [q1.records[0]] + sent)
  }

  class CanStream {
    const ring: Ring<Byte>
    var framing: bool
    var count: nat
    var dropped: nat
    ghost var records: seq<seq<Byte>>    // what the ring holds, record by record

    ghost predicate Valid()
      reads this, ring, ring.buf
    {
      && ring.Valid() && Streams.Uniform(records, STRIDE) && ring.Contents() == Flat(records)
    }

    constructor (ring: Ring<Byte>)
      requires ring.Valid() && ring.Contents() == []
      ensures Valid() && this.ring == ring && records == [] && !framing && count == dropped == 0
    {
      this.ring, framing, count, dropped, records := ring, false, 0, 0, [];
    }

    ghost function Now(): Queue
      reads this
    {
      Queue(records, count, dropped)
    }

    /** The receive interrupt. */
    method Push(f: Received)
      requires Valid() && |f.data| >= 8
      modifies this`count, this`dropped, this`records, ring`head, ring`written, ring.buf
      ensures Valid() && Now() == Pushed(old(Now()), f, ring.buf.Length)
    {
      hide Record, Window;
      Streams.FlatUniform(records, STRIDE);
      var free := ring.Free();
      if free < STRIDE {
        dropped := dropped + 1;
        return;
      }
      var r := Record(f.ts, dropped, f.bus, f.id, f.ext, f.rtr, f.len, f.data);
      Streams.FlatSnoc(records, r);
      var n := ring.Write(r);
      assert r[..n] == r;
      records := records + [r];
      count := count + 1;
    }

    method Interrupts(fs: seq<Received>)
      requires Valid() && AllSized(fs)
      modifies this`count, this`dropped, this`records, ring`head, ring`written, ring.buf
      ensures Valid() && Now() == PushedAll(old(Now()), fs, ring.buf.Length)
    {
      hide Pushed;
      for i := 0 to |fs|
        invariant Valid() && AllSized(fs[..i]) && Now() == PushedAll(old(Now()), fs[..i], ring.buf.Length)
      {
        assert fs[..i + 1][..i] == fs[..i];
        Push(fs[i]);
      }
      assert fs[..|fs|] == fs;
    }

    method TakeRecord() returns (record: seq<Byte>)
      requires Valid() && records != []
      modifies this`records, ring`tail, ring`taken
      ensures Valid() && record == old(records)[0] && records == old(records)[1..]
    {
      hide Window;
      Streams.FlatHead(records);
      Streams.FlatUniform(records[1..], STRIDE);
      ghost var first, later := records[0], Flat(records[1..]);
      record := ring.Read(STRIDE);
      assert first + later == record + ring.Contents();
      assert (first + later)[..STRIDE] == first && (first + later)[STRIDE..] == later;
      assert (record + ring.Contents())[..STRIDE] == record;
      assert (record + ring.Contents())[STRIDE..] == ring.Contents();
      records := records[1..];
    }

    /** Nobody listens: what is queued is discarded, but for what `late` interrupts
        add after it was counted. */
    method Discard(late: seq<Received>)
      requires Valid() && AllSized(late)
      modifies this`count, this`dropped, this`records, ring`head, ring`written, ring`tail, ring`taken, ring.buf
      ensures Valid()
      ensures var q := PushedAll(old(Now()), late, ring.buf.Length);
        |old(records)| <= |q.records| && Now() == q.(records := q.records[|old(records)|..])
    {
      hide Pushed, PushedAll, Window, Flat, Streams.Uniform, Word, Pow2;
      var n := Available();
      ghost var old', size := Now(), ring.buf.Length;
      Interrupts(late);
      ghost var more := OnlyAppends(old', late, size);
      FrontDropped(records, |old'.records|);
      if n > 0 { ring.Advance(n); }
      records := records[|old'.records|..];
    }

    /** A host listens: one record after another goes out in its envelope, as long
        as there is one and the endpoint has room, whatever interrupts come and
        whatever room they find. */
    method Send(turns: seq<Turn>) returns (sent: seq<Byte>)
      requires Valid() && SizedTurns(turns)
      modifies this`count, this`dropped, this`records, ring`head, ring`written, ring`tail, ring`taken, ring.buf
      ensures Valid()
      ensures var (q, out) := Pumped(old(Now()), turns, ring.buf.Length);
        Now() == q && sent == Wires(Frames(out))
    {
      hide Window, Wires, Wire, PushedAll;
      sent := [];
      var k := 0;
      ghost var done: seq<seq<Byte>> := [];
      ghost var all := Pumped(Now(), turns, ring.buf.Length);
      NoWires();
      assert turns[0..] == turns && [] + all.1 == all.1;
      while k < |turns|
        invariant k <= |turns| && Valid() && SizedTurns(turns[k..])
        invariant sent == Wires(Frames(done))
        invariant PumpedOn(all, done, Now(), turns[k..], ring.buf.Length)
      {
        hide Pumped, Frames;
        PumpOne(all, done, Now(), turns[k..], ring.buf.Length);
        Interrupts(turns[k].interrupts);
        var available := Available();
        if available < STRIDE || turns[k].room < FRAME_SIZE { return; }
        var record := TakeRecord();
        sent := sent + ([FRAME_REC, 0, STRIDE as Byte, 0] + record);
        EnvelopeIsWire(record);
        WiresSnoc(done, record);
        done := done + [record];
        DropDrop(turns, k, 1);
        k := k + 1;
      }
      PumpEnds(all, done, Now(), ring.buf.Length);
    }

    /** One pass of the main loop. */
    method Pump(mounted: bool, turns: seq<Turn>) returns (sent: seq<Byte>)
      requires Valid() && SizedTurns(turns)
      modifies this`count, this`dropped, this`records, ring`head, ring`written, ring`tail, ring`taken, ring.buf
      ensures Valid()
      ensures mounted && framing ==>
        var (q, out) := Pumped(old(Now()), turns, ring.buf.Length);
        Now() == q && sent == Wires(Frames(out))
      ensures !(mounted && framing) ==>
        var q := if turns == [] then old(Now()) else PushedAll(old(Now()), turns[0].interrupts, ring.buf.Length);
        |old(records)| <= |q.records| && Now() == q.(records := q.records[|old(records)|..]) && sent == []
    {
      hide Pumped, PushedAll, Wires, Frames;
      if !mounted || !framing {
        if turns == [] { NoInterrupts(Now(), ring.buf.Length); }
        Discard(if turns == [] then [] else turns[0].interrupts);
        return [];
      }
      sent := Send(turns);
    }

    method Available() returns (n: nat)
      requires Valid()
      ensures n == STRIDE * |records|
    {
      hide Window;
      Streams.FlatUniform(records, STRIDE);
      n := ring.Count();
    }
  }

  /** With `done` sent, the pump goes on from this queue with these turns. */
  ghost predicate PumpedOn(all: (Queue, seq<seq<Byte>>), done: seq<seq<Byte>>, q: Queue, turns: seq<Turn>, size: nat)
    requires SizedTurns(turns)
  {
    var (q', out) := Pumped(q, turns, size);
    all.0 == q' && all.1 == done + out
  }

  lemma PumpOne(all: (Queue, seq<seq<Byte>>), done: seq<seq<Byte>>, q: Queue, turns: seq<Turn>, size: nat)
    requires SizedTurns(turns) && turns != [] && PumpedOn(all, done, q, turns, size)
    ensures AllSized(turns[0].interrupts) && SizedTurns(turns[1..])
    ensures var q1 := PushedAll(q, turns[0].interrupts, size);
      if q1.records == [] || turns[0].room < FRAME_SIZE then all == (q1, done)
      else PumpedOn(all, done + [q1.records[0]], q1.(records := q1.records[1..]), turns[1..], size)
  {
    hide PushedAll;
    var q1 := PushedAll(q, turns[0].interrupts, size);
    if q1.records != [] && turns[0].room >= FRAME_SIZE {
      var out := Pumped(q1.(records := q1.records[1..]), turns[1..], size).1;
      Assoc(done, [q1.records[0]], out);
    } else {
      assert done + [] == done;
    }
  }

  lemma NoInterrupts(q: Queue, size: nat)
    ensures PushedAll(q, [], size) == q
  {
  }

  lemma FrontDropped(records: seq<seq<Byte>>, m: nat)
    requires Streams.Uniform(records, STRIDE) && m <= |records|
    ensures STRIDE * m <= |Flat(records)| && Flat(records)[STRIDE * m..] == Flat(records[m..])
    ensures Streams.Uniform(records[m..], STRIDE)
  {
    Streams.FlatSplit(records, m, STRIDE);
    hide Flat;
    var front, rest := Flat(records[..m]), Flat(records[m..]);
    assert (front + rest)[|front|..] == rest;
  }

  lemma PumpEnds(all: (Queue, seq<seq<Byte>>), done: seq<seq<Byte>>, q: Queue, size: nat)
    requires PumpedOn(all, done, q, [], size)
    ensures all == (q, done)
  {
    assert done + [] == done;
  }

  lemma NoWires()
    ensures Wires(Frames([])) == []
  {
  }

  /** Interrupts only append. */
  lemma {:induction false} OnlyAppends(q: Queue, fs: seq<Received>, size: nat) returns (more: seq<seq<Byte>>)
    requires AllSized(fs)
    ensures PushedAll(q, fs, size).records == q.records + more
    ensures PushedAll(q, fs, size).count == q.count + |more|
    ensures |more| + (PushedAll(q, fs, size).dropped - q.dropped) == |fs|
  {
    if fs == [] {
      more := [];
      assert q.records + [] == q.records;
    } else {
      hide Record;
      var n := |fs| - 1;
      assert AllSized(fs[..n]);
      more := OnlyAppends(q, fs[..n], size);
      var before := PushedAll(q, fs[..n], size);
      var after := PushedAll(q, fs, size);
      if after.records != before.records {
        Assoc(q.records, more, [after.records[|before.records|]]);
        more := more + [after.records[|before.records|]];
      }
    }
  }

  /** A record is queued exactly when its 32 bytes fit behind those queued, and is then
      the last; otherwise only the loss is counted. */
  lemma PushExact(q: Queue, f: Received, size: nat)
    requires |f.data| >= 8
    ensures var t := Pushed(q, f, size);
      if 32 * |q.records| + 32 <= size then
        && |t.records| == |q.records| + 1 && t.records[..|q.records|] == q.records
        && t.records[|q.records|] == Record(f.ts, q.dropped, f.bus, f.id, f.ext, f.rtr, f.len, f.data)
        && t.count == q.count + 1 && t.dropped == q.dropped
      else t == Queue(q.records, q.count, q.dropped + 1)
  {
    hide Record;
  }

  /** An empty ring takes as many records as it has room for, the first of them. */
  lemma {:induction false} FillsUp(fs: seq<Received>, size: nat)
    requires AllSized(fs)
    ensures var q, room := PushedAll(Queue([], 0, 0), fs, size), size / 32;
      && |q.records| == q.count == Min(|fs|, room) && q.dropped == |fs| - Min(|fs|, room)
      && forall i :: 0 <= i < q.count ==>
           q.records[i] == Record(fs[i].ts, 0, fs[i].bus, fs[i].id, fs[i].ext, fs[i].rtr, fs[i].len, fs[i].data)
    decreases |fs|
  {
    hide Record, Pushed;
    if fs != [] {
      var before := fs[..|fs| - 1];
      assert AllSized(before);
      FillsUp(before, size);
      var q := PushedAll(Queue([], 0, 0), before, size);
      PushExact(q, fs[|fs| - 1], size);
      RoomFor(|q.records|, size);
    }
  }

  lemma RoomFor(n: nat, size: nat)
    ensures 32 * n + 32 <= size <==> n < size / 32
  {
  }

  /** First in, first out: what was queued and what the interrupts queued during the
      pass are, in order, what was sent and what is queued after it. */
  lemma {:induction false} PumpIsFifo(q: Queue, turns: seq<Turn>, size: nat) returns (queued: seq<seq<Byte>>)
    requires SizedTurns(turns)
    ensures var (q', out) := Pumped(q, turns, size);
      q.records + queued == out + q'.records && q'.count == q.count + |queued|
    decreases |turns|
  {
    if turns == [] {
      queued := [];
      assert q.records + [] == [] + q.records;
    } else {
      hide PushedAll;
      var first := OnlyAppends(q, turns[0].interrupts, size);
      var q1 := PushedAll(q, turns[0].interrupts, size);
      if q1.records == [] || turns[0].room < FRAME_SIZE {
        queued := first;
        assert [] + q1.records == q1.records;
      } else {
        assert SizedTurns(turns[1..]);
        var next := q1.(records := q1.records[1..]);
        var later := PumpIsFifo(next, turns[1..], size);
        queued := first + later;
        var (q', out) := Pumped(next, turns[1..], size);
        FifoStep(q.records, first, q1.records, later, out, q'.records);
      }
    }
  }

  lemma FifoStep<T>(was: seq<T>, first: seq<T>, all: seq<T>, later: seq<T>, out: seq<T>, left: seq<T>)
    requires all != [] && was + first == all && all[1..] + later == out + left
    ensures was + (first + later) == [all[0]] + out + left
  {
    assert all == [all[0]] + all[1..];
    Assoc(was, first, later);
    Assoc([all[0]], all[1..], later);
    Assoc([all[0]], out, left);
  }

  /** Turns without interrupts and with no room freed during the pass. */
  predicate Undisturbed(turns: seq<Turn>, room: nat) {
    forall i :: 0 <= i < |turns| ==>
      turns[i].interrupts == [] && turns[i].room == if room >= FRAME_SIZE * i then room - FRAME_SIZE * i else 0
  }

  /** Left alone, a pass sends as many records as are queued and have room. */
  lemma {:induction false} UndisturbedPump(q: Queue, turns: seq<Turn>, room: nat, size: nat)
    requires SizedTurns(turns) && Undisturbed(turns, room) && |turns| > Min(|q.records|, room / FRAME_SIZE)
    ensures var n := Min(|q.records|, room / FRAME_SIZE);
      Pumped(q, turns, size) == (q.(records := q.records[n..]), q.records[..n])
    decreases |turns|
  {
    assert PushedAll(q, turns[0].interrupts, size) == q;
    if q.records != [] && turns[0].room >= FRAME_SIZE {
      var next := q.(records := q.records[1..]);
      assert SizedTurns(turns[1..]);
      LessRoom(turns, room);
      UndisturbedPump(next, turns[1..], room - FRAME_SIZE, size);
      var n := Min(|next.records|, (room - FRAME_SIZE) / FRAME_SIZE);
      DropDrop(q.records, 1, n);
      assert [q.records[0]] + q.records[1..][..n] == q.records[..n + 1];
    }
  }

  lemma LessRoom(turns: seq<Turn>, room: nat)
    requires turns != [] && Undisturbed(turns, room) && room >= FRAME_SIZE
    ensures Undisturbed(turns[1..], room - FRAME_SIZE)
  {
    var later := turns[1..];
    forall i | 0 <= i < |later|
      ensures later[i].interrupts == []
      ensures later[i].room == if room - FRAME_SIZE >= FRAME_SIZE * i then room - FRAME_SIZE - FRAME_SIZE * i else 0
    {
      assert later[i] == turns[i + 1];
    }
  }

  lemma EnvelopeIsWire(record: seq<Byte>)
    requires |record| == STRIDE
    ensures [FRAME_REC, 0, STRIDE as Byte, 0] + record == Wire(Rec(record))
  {
    assert Le(STRIDE, 2) == [STRIDE % 256] + Le(STRIDE / 256, 1);
    assert Le(0, 1) == [0] + Le(0, 0);
  }

  lemma {:induction false} WiresAppend(a: seq<Frame>, b: seq<Frame>)
    ensures Wires(a + b) == Wires(a) + Wires(b)
  {
    hide Wire;
    if a == [] {
      assert a + b == b;
    } else {
      assert (a + b)[1..] == a[1..] + b;
      WiresAppend(a[1..], b);
      Assoc(Wire(a[0]), Wires(a[1..]), Wires(b));
    }
  }

  lemma WiresSnoc(records: seq<seq<Byte>>, record: seq<Byte>)
    ensures Wires(Frames(records + [record])) == Wires(Frames(records)) + Wire(Rec(record))
  {
    hide Wire;
    var last := Rec(record);
    assert Frames(records + [record]) == Frames(records) + [last];
    WiresAppend(Frames(records), [last]);
    assert [last][1..] == [];
    assert Wires([last]) == Wire(last);
  }

  /** What the pump sends, the host decodes: the records in ring order, nothing
      skipped and nothing left over. */
  lemma PumpedRecordsDecode(records: seq<seq<Byte>>)
    requires Streams.Uniform(records, STRIDE)
    ensures Decode(Wires(Frames(records))) == Decoded(Frames(records), [], 0)
  {
    FramesRoundTrip(Frames(records), []);
    assert Wires(Frames(records)) + [] == Wires(Frames(records));
    assert Decode([]) == Decoded([], [], 0);
    assert Frames(records) + [] == Frames(records);
  }

  /** Every field of a record is where the stream's format line says, and holds
      what was received: identifier, clamped length, flag bits, bus, and the data
      with zeros behind it, none for a remote request. */
  lemma RecordLayout(ts: nat, dropped: nat, bus: Byte, id: nat, ext: bool, rtr: bool, len: nat, data: seq<Byte>)
    requires |data| >= 8 && ts < Pow256(8) && dropped < Pow256(8) && id < Pow256(4)
    ensures var r := Record(ts, dropped, bus, id, ext, rtr, len, data);
      && Un(r[0..8]) == ts && Un(r[8..16]) == dropped && Un(r[16..20]) == id
      && r[20] == Min(len, 8) && (r[21] % 2 == 1 <==> ext) && (r[21] / 2 == 1 <==> rtr) && r[22] == bus && r[23] == 0
      && (forall i :: 0 <= i < 8 ==> r[24 + i] == if !rtr && i < len then data[i] else 0)
  {
    var r := Record(ts, dropped, bus, id, ext, rtr, len, data);
    assert r[0..8] == Le(ts, 8) && r[8..16] == Le(dropped, 8) && r[16..20] == Le(id, 4);
    hide Le, Un, Pow256;
    UnLe(ts, 8);
    UnLe(dropped, 8);
    UnLe(id, 4);
  }
}
