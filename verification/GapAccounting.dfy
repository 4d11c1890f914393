/** In-band loss accounting: the SocketCAN producer (examples/can/main.c) stamps
    each record with its running loss total, and the host's gap tracker
    (host/rust/src/dataplane.rs) reads the losses off the stamps. */
module GapAccounting {
  import opened Common
  import opened LittleEndian
  import opened RingBuffer
  import Streams = StreamSessions
  import Wrapping

  const STRIDE: nat := 88
  const STAMP: nat := 8            // offset of the total within a record
  const WORD: nat := 0x1_0000_0000

  /** A frame as the kernel hands it over; the data buffer is always 64 bytes. */
  datatype CanFrame = CanFrame(canId: nat, len: nat, flags: nat, fd: bool, data: seq<Byte>)

  function Bit(x: nat, b: nat): nat
    requires b > 0
  {
    x / b % 2
  }

  function Flags(f: CanFrame): (r: Byte) {
    Bit(f.canId, 0x8000_0000) + 2 * Bit(f.canId, 0x4000_0000) + 4 * Bit(f.canId, 0x2000_0000)
    + (if f.fd then 8 + 16 * Bit(f.flags, 1) + 32 * Bit(f.flags, 2) else 0)
  }

  /** The 88-byte record of one frame. */
  function Record(f: CanFrame, ts: nat, dropped: nat): (r: seq<Byte>)
    requires |f.data| == 64
    ensures |r| == STRIDE
  {
    var n: nat := if f.len > 64 then 64 else f.len;
    Le(ts, 8) + Le(dropped, 8) + Le(f.canId % 0x2000_0000, 4) + [n as Byte, Flags(f), 0, 0] + Padded(f.data[..n], 64)
  }

  lemma RecordStamp(f: CanFrame, ts: nat, dropped: nat)
    requires |f.data| == 64 && dropped < Pow256(8)
    ensures Un(Record(f, ts, dropped)[STAMP..STAMP + 8]) == dropped
  {
    hide Flags;
    assert Record(f, ts, dropped)[8..16] == Le(dropped, 8);
    UnLe(dropped, 8);
  }

  /** Every field of a record is where the schema says and holds what the frame
      carried; the low 29 identifier bits are kept, the three above become flags. */
  lemma RecordLayout(f: CanFrame, ts: nat, dropped: nat)
    requires |f.data| == 64 && ts < Pow256(8) && dropped < Pow256(8)
    ensures var r := Record(f, ts, dropped);
      && Un(r[0..8]) == ts && Un(r[8..16]) == dropped && Un(r[16..20]) == f.canId % 0x2000_0000
      && r[20] == Min(f.len, 64)
      && r[21] % 2 == Bit(f.canId, 0x8000_0000) && r[21] / 2 % 2 == Bit(f.canId, 0x4000_0000)
      && r[21] / 4 % 2 == Bit(f.canId, 0x2000_0000) && (r[21] / 8 % 2 == 1 <==> f.fd)
      && (f.fd ==> r[21] / 16 % 2 == Bit(f.flags, 1) && r[21] / 32 % 2 == Bit(f.flags, 2))
      && r[22] == 0 && r[23] == 0
      && (forall i :: 0 <= i < 64 ==> r[24 + i] == if i < f.len then f.data[i] else 0)
  {
    var r := Record(f, ts, dropped);
    assert r[0..8] == Le(ts, 8) && r[8..16] == Le(dropped, 8) && r[16..20] == Le(f.canId % 0x2000_0000, 4);
    assert r[21] == Flags(f);
    FlagBits(f);
    hide Le, Un, Pow256, Flags, Bit;
    UnLe(ts, 8);
    UnLe(dropped, 8);
    Pow256Table();
    UnLe(f.canId % 0x2000_0000, 4);
  }

  lemma FlagBits(f: CanFrame)
    ensures var b := Flags(f);
      && b % 2 == Bit(f.canId, 0x8000_0000) && b / 2 % 2 == Bit(f.canId, 0x4000_0000)
      && b / 4 % 2 == Bit(f.canId, 0x2000_0000) && (b / 8 % 2 == 1 <==> f.fd)
      && (f.fd ==> b / 16 % 2 == Bit(f.flags, 1) && b / 32 % 2 == Bit(f.flags, 2))
  {
    BitIsBit(f.canId, 0x8000_0000);
    BitIsBit(f.canId, 0x4000_0000);
    BitIsBit(f.canId, 0x2000_0000);
    BitIsBit(f.flags, 1);
    BitIsBit(f.flags, 2);
    assert Flags(f) == Bit(f.canId, 0x8000_0000) + 2 * Bit(f.canId, 0x4000_0000) + 4 * Bit(f.canId, 0x2000_0000)
      + 8 * (if f.fd then 1 + 2 * Bit(f.flags, 1) + 4 * Bit(f.flags, 2) else 0);
    hide Bit, Flags;
    var high := if f.fd then 1 + 2 * Bit(f.flags, 1) + 4 * Bit(f.flags, 2) else 0;
    ThreeBits(Bit(f.canId, 0x8000_0000), Bit(f.canId, 0x4000_0000), Bit(f.canId, 0x2000_0000), high);
    if f.fd { ThreeBits(1, Bit(f.flags, 1), Bit(f.flags, 2), 0); }
  }

  lemma ThreeBits(a: nat, b: nat, c: nat, high: nat)
    requires a <= 1 && b <= 1 && c <= 1
    ensures var v := a + 2 * b + 4 * c + 8 * high;
      v % 2 == a && v / 2 % 2 == b && v / 4 % 2 == c && v / 8 == high && v / 16 == high / 2 && v / 32 == high / 4
  {
    var v := a + 2 * b + 4 * c + 8 * high;
    Halves(v);
    assert v / 2 == b + 2 * c + 4 * high;
    assert v / 2 / 2 == c + 2 * high;
    Halves(high);
  }

  lemma Halves(x: nat)
    ensures x / 4 == x / 2 / 2 && x / 8 == x / 2 / 2 / 2
    ensures x / 16 == x / 8 / 2 && x / 32 == x / 8 / 4
  {
  }

  lemma BitIsBit(x: nat, b: nat)
    requires b > 0
    ensures Bit(x, b) == 0 || Bit(x, b) == 1
  {
  }

  // What happened, in order

  datatype Entry = Lost(n: nat) | Kept(record: seq<Byte>)

  function Losses(log: seq<Entry>): nat {
    if log == [] then 0
    else Losses(log[..|log| - 1]) + (if log[|log| - 1].Lost? then log[|log| - 1].n else 0)
  }

  predicate StampIs(record: seq<Byte>, total: nat) {
    |record| >= STAMP + 8 && Un(record[STAMP..STAMP + 8]) == total
  }

  /** If entry i is a record, it carries the total of the losses before it. */
  predicate StampedAt(log: seq<Entry>, start: nat, i: nat)
    requires i < |log|
  {
    log[i].Kept? ==> StampIs(log[i].record, start + Losses(log[..i]))
  }

  predicate Stamped(log: seq<Entry>, start: nat) {
    forall i :: 0 <= i < |log| ==> StampedAt(log, start, i)
  }

  lemma LossesSnoc(log: seq<Entry>, e: Entry)
    ensures Losses(log + [e]) == Losses(log) + (if e.Lost? then e.n else 0)
  {
    assert (log + [e])[..|log|] == log;
  }

  lemma StampedSnoc(log: seq<Entry>, e: Entry, start: nat)
    requires Stamped(log, start)
    requires e.Kept? ==> StampIs(e.record, start + Losses(log))
    ensures Stamped(log + [e], start)
  {
    var more := log + [e];
    assert StampedAt(more, start, |log|) by {
      assert more[..|log|] == log && more[|log|] == e;
    }
    hide StampedAt;
    forall i | 0 <= i < |more| ensures StampedAt(more, start, i) {
      if i < |log| { StampStays(log, more, start, i); }
    }
  }

  lemma StampStays(log: seq<Entry>, more: seq<Entry>, start: nat, i: nat)
    requires log <= more && i < |log|
    ensures StampedAt(more, start, i) == StampedAt(log, start, i)
  {
    hide StampIs, Losses;
    assert more[..i] == log[..i];
  }

  /** The counters are those of the log, and until the total outgrows its field
      every record carries it. */
  ghost predicate LogOk(log: seq<Entry>, dropped: nat, captured: nat) {
    && dropped == Losses(log) && captured == |Records(log)|
    && (dropped < Pow256(8) ==> Stamped(log, 0))
  }

  lemma LogLost(log: seq<Entry>, dropped: nat, captured: nat, n: nat)
    requires LogOk(log, dropped, captured)
    ensures LogOk(log + [Lost(n)], dropped + n, captured)
  {
    hide Losses, Records, Stamped, Pow256;
    LossesSnoc(log, Lost(n));
    RecordsSnoc(log, Lost(n));
    if dropped < Pow256(8) { StampedSnoc(log, Lost(n), 0); }
  }

  lemma LogKept(log: seq<Entry>, dropped: nat, captured: nat, f: CanFrame, ts: nat)
    requires LogOk(log, dropped, captured) && |f.data| == 64
    ensures LogOk(log + [Kept(Record(f, ts, dropped))], dropped, captured + 1)
  {
    hide Losses, Records, Stamped, Record, Pow256;
    var e := Kept(Record(f, ts, dropped));
    LossesSnoc(log, e);
    RecordsSnoc(log, e);
    if dropped < Pow256(8) {
      RecordStamp(f, ts, dropped);
      StampedSnoc(log, e, 0);
    }
  }

  class Producer {
    const ring: Ring<Byte>
    var dropped: nat
    var lastKernelOvfl: nat
    var haveKernelOvfl: bool
    var captured: nat
    ghost var kernelSeen: nat            // the kernel's own count, unwrapped
    ghost var log: seq<Entry>

    ghost predicate Valid()
      reads this, ring, ring.buf
    {
      && ring.Valid()
      && lastKernelOvfl == kernelSeen % WORD
      && LogOk(log, dropped, captured)
    }

    constructor (ring: Ring<Byte>)
      requires ring.Valid()
      ensures Valid() && this.ring == ring && dropped == 0 && !haveKernelOvfl && log == []
    {
      this.ring, dropped, lastKernelOvfl, haveKernelOvfl, captured := ring, 0, 0, false, 0;
      kernelSeen, log := 0, [];
    }

    /** The kernel reports how many frames it has dropped, as a 32-bit counter.
        After the first report the counter's step, wrapped or not, is added to
        the losses: all that was dropped since the last report, exactly when that
        is less than a full turn of the counter. */
    method OnKernelOvfl(ovfl: nat, ghost kernel: nat)
      requires Valid() && ovfl == kernel % WORD
      requires haveKernelOvfl ==> kernelSeen <= kernel
      modifies this
      ensures Valid() && haveKernelOvfl && kernelSeen == kernel && ring.Contents() == old(ring.Contents())
      ensures var step := if old(haveKernelOvfl) then (kernel - old(kernelSeen)) % WORD else 0;
        && log == old(log) + (if step != 0 then [Lost(step)] else [])
        && (old(haveKernelOvfl) ==> (step == kernel - old(kernelSeen) <==> kernel - old(kernelSeen) < WORD))
    {
      hide Window, LogOk;
      if haveKernelOvfl {
        Wrapping.CounterStep(kernel, kernelSeen, WORD);
        if ovfl != lastKernelOvfl {
          var step := (ovfl - lastKernelOvfl) % WORD;
          dropped := dropped + step;
          LogLost(log, old(dropped), captured, step);
          log := log + [Lost(step)];
        }
      }
      lastKernelOvfl := ovfl;
      haveKernelOvfl := true;
      kernelSeen := kernel;
    }

    /** One frame: queued whole as a record stamped with the losses so far, or
        counted as lost with the queue untouched. */
    method OnFrame(f: CanFrame, ts: nat)
      requires Valid() && |f.data| == 64
      modifies this`dropped, this`captured, this`log, ring`head, ring`written, ring.buf
      ensures Valid()
      ensures if ring.buf.Length - |old(ring.Contents())| >= STRIDE
              then var r := Record(f, ts, old(dropped));
                   log == old(log) + [Kept(r)] && ring.Contents() == old(ring.Contents()) + r
              else log == old(log) + [Lost(1)] && ring.Contents() == old(ring.Contents())
    {
      hide Record, Window, LogOk;
      var r := Record(f, ts, dropped);
      LogKept(log, dropped, captured, f, ts);
      LogLost(log, dropped, captured, 1);
      var free := ring.Free();
      if free < STRIDE {
        dropped := dropped + 1;
        log := log + [Lost(1)];
        return;
      }
      var n := ring.Write(r);
      assert r[..n] == r;
      captured := captured + 1;
      log := log + [Kept(r)];
    }
  }

  /** The records among the entries. */
  function Records(log: seq<Entry>): seq<seq<Byte>> {
    if log == [] then []
    else Records(log[..|log| - 1]) + (if log[|log| - 1].Kept? then [log[|log| - 1].record] else [])
  }

  lemma RecordsSnoc(log: seq<Entry>, e: Entry)
    ensures Records(log + [e]) == Records(log) + (if e.Kept? then [e.record] else [])
  {
    assert (log + [e])[..|log|] == log;
  }

  // The host's tracker

  datatype Tracker = Tracker(last: Option<nat>, total: nat)

  function Observed(t: Tracker, offset: nat, rec: seq<Byte>): (Tracker, nat) {
    if |rec| < offset + 8 then (t, 0)
    else
      var dropped := Un(rec[offset..offset + 8]);
      var delta := if t.last.Some? && dropped > t.last.value then dropped - t.last.value else 0;
      (Tracker(Some(dropped), t.total + delta), delta)
  }

  /** A record too short for the total is passed over; the first total is no loss, a
      total that is not above the last one neither; any other step is one. */
  lemma ObserveExact(t: Tracker, offset: nat, rec: seq<Byte>)
    ensures var (after, delta) := Observed(t, offset, rec);
      if |rec| < offset + 8 then after == t && delta == 0
      else
        var now := Un(rec[offset..offset + 8]);
        && after.last == Some(now) && after.total == t.total + delta
        && (t.last.None? || now <= t.last.value ==> delta == 0)
        && (t.last.Some? && now > t.last.value ==> t.last.value + delta == now)
  {
    hide Un;
  }

  class GapTracker {
    const offset: nat
    var last: Option<nat>
    var total: nat

    constructor (offset: nat)
      ensures this.offset == offset && last == None && total == 0
    {
      this.offset, last, total := offset, None, 0;
    }

    method Observe(rec: seq<Byte>) returns (delta: nat)
      modifies this
      ensures (Tracker(last, total), delta) == Observed(Tracker(old(last), old(total)), offset, rec)
    {
      if |rec| < offset + 8 { return 0; }
      var dropped := Un(rec[offset..offset + 8]);
      delta := 0;
      if last.Some? && dropped > last.value { delta := dropped - last.value; }
      last := Some(dropped);
      total := total + delta;
    }
  }

  /** The tracker over records in order: its end state and what it reported. */
  function ObserveAll(t: Tracker, offset: nat, recs: seq<seq<Byte>>): (Tracker, seq<nat>) {
    if recs == [] then (t, [])
    else
      var (before, deltas) := ObserveAll(t, offset, recs[..|recs| - 1]);
      var (after, delta) := Observed(before, offset, recs[|recs| - 1]);
      (after, deltas + [delta])
  }

  /** Losses since the last record; None before the first. */
  function Since(log: seq<Entry>): Option<nat> {
    if log == [] then None
    else
      match log[|log| - 1]
      case Kept(_) => Some(0)
      case Lost(n) =>
        match Since(log[..|log| - 1])
        case None => None
        case Some(m) => Some(m + n)
  }

  /** What should be reported at each record: the losses since the one before,
      nothing at the first. */
  function Gaps(log: seq<Entry>): seq<nat> {
    if log == [] then []
    else
      var before := log[..|log| - 1];
      if log[|log| - 1].Lost? then Gaps(before)
      else Gaps(before) + [if Since(before).Some? then Since(before).value else 0]
  }

  function Sum(s: seq<nat>): nat {
    if s == [] then 0 else Sum(s[..|s| - 1]) + s[|s| - 1]
  }

  /** The tracker reports, at each record, exactly the losses between it and the
      record before; its total is the losses between the first record and the
      last. */
  lemma {:induction false} LossesAreReported(log: seq<Entry>, start: nat)
    requires Stamped(log, start)
    ensures var (t, deltas) := ObserveAll(Tracker(None, 0), STAMP, Records(log));
      && deltas == Gaps(log) && t.total == Sum(Gaps(log))
      && (t.last.Some? <==> Since(log).Some?)
      && (t.last.Some? ==> t.last.value + Since(log).value == start + Losses(log))
    decreases |log|
  {
    hide StampIs, Losses, Records, ObserveAll, Gaps, Since, Sum;
    if log == [] {
      NothingHappened();
    } else {
      var before, e := log[..|log| - 1], log[|log| - 1];
      assert log == before + [e];
      StampedPrefix(log, |before|, start);
      LossesAreReported(before, start);
      LossesSnoc(before, e);
      RecordsSnoc(before, e);
      GapsSnoc(before, e);
      if e.Kept? {
        StampReads(e.record, start + Losses(before));
        ObserveSnoc(Tracker(None, 0), STAMP, Records(before), e.record);
        SumSnoc(Gaps(before), if Since(before).Some? then Since(before).value else 0);
      } else {
        assert Records(before) + [] == Records(before);
      }
    }
  }

  lemma NothingHappened()
    ensures Losses([]) == 0 && Records([]) == [] && Gaps([]) == [] && Since([]) == None && Sum([]) == 0
    ensures ObserveAll(Tracker(None, 0), STAMP, []) == (Tracker(None, 0), [])
  {
  }

  lemma StampedPrefix(log: seq<Entry>, n: nat, start: nat)
    requires n <= |log| && Stamped(log, start)
    ensures Stamped(log[..n], start)
    ensures n < |log| && log[n].Kept? ==> StampIs(log[n].record, start + Losses(log[..n]))
  {
    forall i | 0 <= i < n ensures StampedAt(log[..n], start, i) {
      StampStays(log[..n], log, start, i);
    }
    assert n < |log| ==> StampedAt(log, start, n);
  }

  lemma GapsSnoc(log: seq<Entry>, e: Entry)
    ensures Gaps(log + [e]) == if e.Lost? then Gaps(log)
                               else Gaps(log) + [if Since(log).Some? then Since(log).value else 0]
    ensures Since(log + [e]) == if e.Kept? then Some(0)
                                else if Since(log).None? then None else Some(Since(log).value + e.n)
  {
    var more := log + [e];
    assert more[..|log|] == log && more[|log|] == e;
    assert Since(more) == if e.Kept? then Some(0)
                          else if Since(log).None? then None else Some(Since(log).value + e.n);
    hide Since;
  }

  lemma ObserveSnoc(t: Tracker, offset: nat, recs: seq<seq<Byte>>, rec: seq<Byte>)
    ensures var (before, deltas) := ObserveAll(t, offset, recs);
      var (after, delta) := Observed(before, offset, rec);
      ObserveAll(t, offset, recs + [rec]) == (after, deltas + [delta])
  {
    hide Observed;
    assert (recs + [rec])[..|recs|] == recs;
  }

  lemma SumSnoc(s: seq<nat>, n: nat)
    ensures Sum(s + [n]) == Sum(s) + n
  {
    assert (s + [n])[..|s|] == s;
  }

  lemma StampReads(record: seq<Byte>, total: nat)
    requires StampIs(record, total)
    ensures |record| >= STAMP + 8 && Un(record[STAMP..STAMP + 8]) == total
  {
  }
}
