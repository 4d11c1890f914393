/** From the producer's loss counter to the host's report: the gap tracker of a
    session's host (host/rust/src/bin/iotsploit-host.rs) over the records that
    host reads. */
module HostLosses {
  import opened Common
  import opened DataPlane
  import opened GapAccounting
  import opened LittleEndian
  import Streams = StreamSessions

  // A stretch of the producer's log, from one record to another

  /** Where record n stands in the log. */
  function At(log: seq<Entry>, n: nat): (p: nat)
    requires n < |Records(log)|
    ensures p < |log| && log[p] == Kept(Records(log)[n]) && Records(log[..p]) == Records(log)[..n]
    decreases |log|
  {
    var before := log[..|log| - 1];
    if n < |Records(before)| then
      var p := At(before, n);
      assert before[..p] == log[..p];
      assert Records(before) <= Records(log);
      p
    else
      assert Records(log)[..n] == Records(before);
      |log| - 1
  }

  lemma {:induction false} AtMonotone(log: seq<Entry>, m: nat, n: nat)
    requires m <= n < |Records(log)|
    ensures At(log, m) <= At(log, n)
    decreases |log|
  {
    var before := log[..|log| - 1];
    if n < |Records(before)| { AtMonotone(before, m, n); }
  }

  /** The log from record m to record n - 1, both included. */
  function Stretch(log: seq<Entry>, m: nat, n: nat): seq<Entry>
    requires m < n <= |Records(log)|
  {
    AtMonotone(log, m, n - 1);
    log[At(log, m)..At(log, n - 1) + 1]
  }

  lemma {:induction false} RecordsAppend(a: seq<Entry>, b: seq<Entry>)
    ensures Records(a + b) == Records(a) + Records(b)
    decreases |b|
  {
    if b == [] {
      assert a + b == a;
    } else {
      var before, e := b[..|b| - 1], b[|b| - 1];
      assert b == before + [e];
      hide Records;
      Assoc(a, before, [e]);
      RecordsAppend(a, before);
      RecordsSnoc(before, e);
      RecordsSnoc(a + before, e);
      Assoc(Records(a), Records(before), if e.Kept? then [e.record] else []);
    }
  }

  lemma {:induction false} LossesAppend(a: seq<Entry>, b: seq<Entry>)
    ensures Losses(a + b) == Losses(a) + Losses(b)
    decreases |b|
  {
    if b == [] {
      assert a + b == a;
    } else {
      var before, e := b[..|b| - 1], b[|b| - 1];
      assert b == before + [e];
      hide Losses;
      Assoc(a, before, [e]);
      LossesAppend(a, before);
      LossesSnoc(before, e);
      LossesSnoc(a + before, e);
    }
  }

  lemma RecordsThrough(log: seq<Entry>, n: nat)
    requires n < |Records(log)|
    ensures Records(log[..At(log, n) + 1]) == Records(log)[..n + 1]
  {
    hide Records, At;
    var p := At(log, n);
    assert log[..p + 1] == log[..p] + [log[p]];
    RecordsSnoc(log[..p], log[p]);
  }

  lemma FrontSplits<T>(s: seq<T>, i: nat, j: nat)
    requires i <= j <= |s|
    ensures s[..j] == s[..i] + s[i..j]
  {
  }

  lemma MiddleOf<T>(whole: seq<T>, m: nat, n: nat, middle: seq<T>)
    requires m <= n <= |whole| && whole[..n] == whole[..m] + middle
    ensures middle == whole[m..n]
  {
    assert whole[m..n] == whole[..n][m..];
  }

  lemma RecordsBetween(log: seq<Entry>, from: nat, to: nat, m: nat, n: nat)
    requires from <= to <= |log| && m <= n <= |Records(log)|
    requires Records(log[..from]) == Records(log)[..m] && Records(log[..to]) == Records(log)[..n]
    ensures Records(log[from..to]) == Records(log)[m..n]
  {
    hide Records;
    FrontSplits(log, from, to);
    RecordsAppend(log[..from], log[from..to]);
    MiddleOf(Records(log), m, n, Records(log[from..to]));
  }

  lemma StretchRecords(log: seq<Entry>, m: nat, n: nat)
    requires m < n <= |Records(log)|
    ensures Records(Stretch(log, m, n)) == Records(log)[m..n]
  {
    hide Records, At;
    AtMonotone(log, m, n - 1);
    RecordsThrough(log, n - 1);
    RecordsBetween(log, At(log, m), At(log, n - 1) + 1, m, n);
  }

  lemma StretchEnds(log: seq<Entry>, m: nat, n: nat)
    requires m < n <= |Records(log)|
    ensures var part := Stretch(log, m, n); part != [] && part[0].Kept? && part[|part| - 1].Kept?
  {
    hide Records, At;
    AtMonotone(log, m, n - 1);
  }

  lemma StretchStampedAt(log: seq<Entry>, from: nat, to: nat, i: nat)
    requires from + i < to <= |log| && StampedAt(log, 0, from + i)
    ensures StampedAt(log[from..to], Losses(log[..from]), i)
  {
    hide StampIs, Losses;
    var part := log[from..to];
    assert part[i] == log[from + i];
    FrontSplits(log, from, from + i);
    DropTake(log, from, 0, i);
    assert part[..i] == log[from..from + i];
    LossesAppend(log[..from], part[..i]);
  }

  lemma StretchStamped(log: seq<Entry>, from: nat, to: nat)
    requires Stamped(log, 0) && from <= to <= |log|
    ensures Stamped(log[from..to], Losses(log[..from]))
  {
    hide Losses, StampedAt;
    forall i | 0 <= i < to - from ensures StampedAt(log[from..to], Losses(log[..from]), i) {
      assert StampedAt(log, 0, from + i);
      StretchStampedAt(log, from, to, i);
    }
  }

  /** In a log that begins with a record all losses but those after the last
      record are gaps. */
  lemma {:induction false} GapsAreLosses(log: seq<Entry>)
    requires log != [] && log[0].Kept?
    ensures Since(log).Some? && Sum(Gaps(log)) + Since(log).value == Losses(log)
    decreases |log|
  {
    var before, e := log[..|log| - 1], log[|log| - 1];
    assert log == before + [e];
    NothingHappened();
    hide Losses, Gaps, Since, Sum;
    GapsSnoc(before, e);
    LossesSnoc(before, e);
    if before != [] {
      GapsAreLosses(before);
    }
    if e.Kept? {
      SumSnoc(Gaps(before), if Since(before).Some? then Since(before).value else 0);
    }
  }

  lemma EndsKept(log: seq<Entry>)
    requires log != [] && log[|log| - 1].Kept?
    ensures Since(log) == Some(0)
  {
  }

  /** What the tracker makes of some of the records, one after another: at each the
      losses since the one before, in all those between the first and the last. */
  ghost predicate Reports(log: seq<Entry>, m: nat, n: nat, recs: seq<seq<Byte>>) {
    && m <= n <= |Records(log)|
    && recs == Records(log)[m..n]
    && var (t, deltas) := ObserveAll(Tracker(None, 0), STAMP, recs);
    if m == n then deltas == [] && t.total == 0
    else var part := Stretch(log, m, n);
         Records(part) == recs && deltas == Gaps(part) && t.total == Losses(part)
  }

  lemma StretchIsReported(log: seq<Entry>, m: nat, n: nat)
    requires Stamped(log, 0) && m <= n <= |Records(log)|
    ensures Reports(log, m, n, Records(log)[m..n])
  {
    hide Records, Losses, Gaps, Stamped, ObserveAll, At;
    if m == n {
      NothingHappened();
    } else {
      AtMonotone(log, m, n - 1);
      var part := Stretch(log, m, n);
      StretchRecords(log, m, n);
      StretchEnds(log, m, n);
      StretchStamped(log, At(log, m), At(log, n - 1) + 1);
      LossesAreReported(part, Losses(log[..At(log, m)]));
      GapsAreLosses(part);
      EndsKept(part);
    }
  }

  /** End to end: the records a producer keeps go to the ring, the stream serves
      them to one host after another, and each host's tracker reports what the
      producer lost between the records that host read, record by record and in
      all; however the threads interleave and the network cuts the stream. */
  lemma HostReportsTheLosses(s0: Streams.State<Byte>, k: nat, w: nat, acts: seq<Streams.Action<Byte>>,
                             i: nat, flow: seq<Arrival<Byte>>, log: seq<Entry>, dropped: nat, captured: nat)
    requires Streams.Initial(s0, k, w) && Streams.Run(s0, acts).Some?
    requires i < |Streams.Run(s0, acts).value.sessions|
    requires Flowing(flow) && Bytes(flow) == Streams.Run(s0, acts).value.sessions[i].bytes
    requires LogOk(log, dropped, captured) && dropped < Pow256(8)
    requires Records(log) == Streams.Run(s0, acts).value.records
    ensures var x := Streams.Run(s0, acts).value.sessions[i];
      Reports(log, x.first, x.first + Streams.Whole(x, s0.stride), ReadAll(s0.stride, [], flow + [Got([])]).0)
  {
    hide Streams.Run, Streams.Initial, Flowing, Bytes, ReadAll, Records, Losses, Stamped, Reports, Streams.Whole, Pow256;
    HostReadsTheRecords(s0, k, w, acts, i, flow);
    var x := Streams.Run(s0, acts).value.sessions[i];
    StretchIsReported(log, x.first, x.first + Streams.Whole(x, s0.stride));
  }
}
