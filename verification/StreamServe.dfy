/** The serving loop of the record stream (glue/usbscpi_stream.c) as its own
    thread runs it; what the producer and the network do between its steps is
    in StreamSessions. */
module StreamServe {
  import opened Common
  import opened RingBuffer
  import opened Wrapping
  import Streams = StreamSessions

  /** What one send returns. */
  datatype Send = Took(n: nat) | WouldBlock | Interrupted | Broken

  /** What one poll finds: an error or hang-up, a close, bytes to discard, just
      the timeout, or nothing because a signal came. */
  datatype Poll = Failed | HangUp | Closed | Chatter | Quiet | Signalled

  datatype Drained = Idle | Behind | Gone

  // What becomes of a queue, from what the sends return

  /** How much was sent, in how many sends, and why it stopped. */
  datatype Flowed = Flowed(sent: nat, used: nat, end: Drained) {
    function After(n: nat, m: nat): Flowed {
      Flowed(n + sent, m + used, end)
    }
  }

  /** Draining `count` elements from position `at` of a ring on. */
  function Flow(sends: seq<Send>, at: nat, count: nat, size: nat): (f: Flowed)
    requires size > 0
    ensures f.sent <= count && f.used <= |sends|
    decreases |sends|
  {
    if count == 0 then Flowed(0, 0, Idle)
    else if sends == [] then Flowed(0, 0, Behind)
    else
      match sends[0]
      case Took(k) =>
        if k == 0 then Flowed(0, 1, Gone)
        else
          var n := Min(k, Min(count, size - Slot(at, size)));
          Flow(sends[1..], at + n, count - n, size).After(n, 1)
      case WouldBlock => Flowed(0, 1, Behind)
      case Interrupted => Flow(sends[1..], at, count, size).After(0, 1)
      case Broken => Flowed(0, 1, Gone)
  }

  predicate Takes(s: Send) {
    s.Took? && s.n > 0
  }

  /** A broken connection, or a send of nothing. */
  predicate Breaks(s: Send) {
    s.Broken? || (s.Took? && s.n == 0)
  }

  /** All of them took something or were interrupted. */
  predicate Moving(sends: seq<Send>) {
    forall i :: 0 <= i < |sends| ==> Takes(sends[i]) || sends[i].Interrupted?
  }

  function TakeCount(sends: seq<Send>): nat {
    if sends == [] then 0 else (if Takes(sends[0]) then 1 else 0) + TakeCount(sends[1..])
  }

  function TakeSum(sends: seq<Send>): nat {
    if sends == [] then 0 else (if Takes(sends[0]) then sends[0].n else 0) + TakeSum(sends[1..])
  }

  lemma TakesOfFront(sends: seq<Send>, n: nat)
    requires 0 < n <= |sends|
    ensures TakeCount(sends[..n]) == (if Takes(sends[0]) then 1 else 0) + TakeCount(sends[1..][..n - 1])
    ensures TakeSum(sends[..n]) == (if Takes(sends[0]) then sends[0].n else 0) + TakeSum(sends[1..][..n - 1])
  {
    assert sends[..n][1..] == sends[1..][..n - 1];
  }

  lemma NoTakes()
    ensures TakeCount([]) == 0 && TakeSum([]) == 0
  {
  }

  /** A drain sends no more than the sends took, and an element with each. */
  lemma {:induction false} FlowSends(sends: seq<Send>, at: nat, count: nat, size: nat)
    requires size > 0
    ensures var f := Flow(sends, at, count, size); TakeCount(sends[..f.used]) <= f.sent <= TakeSum(sends[..f.used])
    decreases |sends|
  {
    hide Slot, TakeCount, TakeSum;
    var f := Flow(sends, at, count, size);
    NoTakes();
    if f.used == 0 {
      assert sends[..0] == [];
    } else {
      TakesOfFront(sends, f.used);
      if Takes(sends[0]) || sends[0].Interrupted? {
        var n := if Takes(sends[0]) then Min(sends[0].n, Min(count, size - Slot(at, size))) else 0;
        FlowSends(sends[1..], at + n, count - n, size);
      } else {
        assert sends[1..][..0] == [];
      }
    }
  }

  /** Which sends a drain makes before it stops as it does. */
  predicate Stops(sends: seq<Send>, used: nat, end: Drained)
    requires used <= |sends|
  {
    match end
    case Idle => Moving(sends[..used])
    case Behind =>
      (used == |sends| && Moving(sends)) || (used > 0 && sends[used - 1].WouldBlock? && Moving(sends[..used - 1]))
    case Gone => used > 0 && Breaks(sends[used - 1]) && Moving(sends[..used - 1])
  }

  lemma StopsLater(sends: seq<Send>, used: nat, end: Drained)
    requires 0 < used <= |sends| && (Takes(sends[0]) || sends[0].Interrupted?) && Stops(sends[1..], used - 1, end)
    ensures Stops(sends, used, end)
  {
    assert forall i :: 0 < i < |sends| ==> sends[i] == sends[1..][i - 1];
  }

  /** A drain is idle exactly when nothing is left; it is behind only after a send
      that would block, or when the sends are over; gone only after a broken send or
      one that took nothing; and every send before that moved. */
  lemma {:induction false} FlowTells(sends: seq<Send>, at: nat, count: nat, size: nat)
    requires size > 0
    ensures var f := Flow(sends, at, count, size); (f.end == Idle <==> f.sent == count) && Stops(sends, f.used, f.end)
    decreases |sends|
  {
    hide Slot, Stops;
    var f := Flow(sends, at, count, size);
    if count == 0 || sends == [] || !(Takes(sends[0]) || sends[0].Interrupted?) {
      StopsAtOnce(sends, f.used, f.end);
    } else {
      var n := if Takes(sends[0]) then Min(sends[0].n, Min(count, size - Slot(at, size))) else 0;
      FlowTells(sends[1..], at + n, count - n, size);
      StopsLater(sends, f.used, f.end);
    }
  }

  lemma StopsAtOnce(sends: seq<Send>, used: nat, end: Drained)
    requires if used == 0 then end == Idle || (end == Behind && sends == [])
             else sends != [] && used == 1 && ((end == Gone && Breaks(sends[0])) || (end == Behind && sends[0].WouldBlock?))
    ensures Stops(sends, used, end)
  {
  }

  /** As many taking sends as there are elements, interrupted or not, send them all. */
  lemma {:induction false} TakingEmpties(sends: seq<Send>, at: nat, count: nat, size: nat)
    requires size > 0 && Moving(sends) && TakeCount(sends) >= count
    ensures Flow(sends, at, count, size).sent == count && Flow(sends, at, count, size).end == Idle
    decreases |sends|
  {
    hide Slot;
    if count > 0 {
      assert Takes(sends[0]) || sends[0].Interrupted?;
      if sends[0].Interrupted? {
        TakingEmpties(sends[1..], at, count, size);
      } else {
        var n := Min(sends[0].n, Min(count, size - Slot(at, size)));
        TakingEmpties(sends[1..], at + n, count - n, size);
      }
    }
  }

  /** Two sends that take all they are offered are enough for any queue. */
  lemma TwoSendsEmpty(a: nat, b: nat, at: nat, count: nat, size: nat)
    requires 0 < count <= size <= a && size <= b
    ensures var f := Flow([Took(a), Took(b)], at, count, size);
      f.sent == count && f.end == Idle && f.used == if Slot(at, size) + count <= size then 1 else 2
  {
    var n := Min(count, size - Slot(at, size));
    assert [Took(a), Took(b)][1..] == [Took(b)] && [Took(b)][1..] == [];
    if n < count { SlotWraps(at, size); }
    hide Slot;
    assert Flow([], at + count, 0, size) == Flowed(0, 0, Idle);
  }

  lemma SlotWraps(at: nat, size: nat)
    requires size > 0
    ensures Slot(at + (size - Slot(at, size)), size) == 0
  {
    ModUnique(at + (size - at % size), size, at / size + 1, 0);
  }

  /** A send that was interrupted changes nothing. */
  lemma InterruptedIsNothing(sends: seq<Send>, at: nat, count: nat, size: nat)
    requires size > 0 && count > 0
    ensures Flow([Interrupted] + sends, at, count, size) == Flow(sends, at, count, size).After(0, 1)
  {
    assert ([Interrupted] + sends)[1..] == sends;
  }

  /** What one more send does, seen from the whole drain. */
  lemma FlowNext(sends: seq<Send>, at: nat, count: nat, size: nat, sent: nat, used: nat)
    requires size > 0 && count > 0 && sends != []
    ensures var f := Flow(sends, at, count, size).After(sent, used);
      match sends[0]
      case Took(k) =>
        if k == 0 then f == Flowed(sent, used + 1, Gone)
        else var n := Min(k, Min(count, size - Slot(at, size)));
             f == Flow(sends[1..], at + n, count - n, size).After(sent + n, used + 1)
      case WouldBlock => f == Flowed(sent, used + 1, Behind)
      case Interrupted => f == Flow(sends[1..], at, count, size).After(sent, used + 1)
      case Broken => f == Flowed(sent, used + 1, Gone)
  {
    hide Slot;
  }

  lemma FlowDone(sends: seq<Send>, at: nat, count: nat, size: nat, sent: nat, used: nat)
    requires size > 0 && (count == 0 || sends == [])
    ensures Flow(sends, at, count, size).After(sent, used) == Flowed(sent, used, if count == 0 then Idle else Behind)
  {
  }

  lemma AfterNothing(f: Flowed)
    ensures f.After(0, 0) == f
  {
  }

  // And of a session, from what the polls find besides

  datatype Ended = PollsOver | ByPoll | BySend

  datatype Served = Served(sent: nat, used: nat, end: Ended) {
    function After(n: nat, m: nat): Served {
      Served(n + sent, m + used, end)
    }
  }

  predicate Ending(p: Poll) {
    p.Failed? || p.HangUp? || p.Closed?
  }

  function Serve(polls: seq<Poll>, sends: seq<Send>, at: nat, count: nat, size: nat): (x: Served)
    requires size > 0
    ensures x.sent <= count && x.used <= |sends|
    decreases |polls|
  {
    if polls == [] then Served(0, 0, PollsOver)
    else if Ending(polls[0]) then Served(0, 0, ByPoll)
    else if polls[0].Signalled? then Serve(polls[1..], sends, at, count, size)
    else
      var f := Flow(sends, at, count, size);
      if f.end == Gone then Served(f.sent, f.used, BySend)
      else Serve(polls[1..], sends[f.used..], at + f.sent, count - f.sent, size).After(f.sent, f.used)
  }

  lemma ServeNext(polls: seq<Poll>, sends: seq<Send>, at: nat, count: nat, size: nat, sent: nat, used: nat)
    requires size > 0 && polls != []
    ensures var x := Serve(polls, sends, at, count, size).After(sent, used);
      if Ending(polls[0]) then x == Served(sent, used, ByPoll)
      else if polls[0].Signalled? then x == Serve(polls[1..], sends, at, count, size).After(sent, used)
      else var f := Flow(sends, at, count, size);
           if f.end == Gone then x == Served(sent + f.sent, used + f.used, BySend)
           else x == Serve(polls[1..], sends[f.used..], at + f.sent, count - f.sent, size)
                     .After(sent + f.sent, used + f.used)
  {
    hide Flow;
  }

  lemma ServeOver(sends: seq<Send>, at: nat, count: nat, size: nat, sent: nat, used: nat)
    requires size > 0
    ensures Serve([], sends, at, count, size).After(sent, used) == Served(sent, used, PollsOver)
  {
  }

  lemma ServeAfterNothing(x: Served)
    ensures x.After(0, 0) == x
  {
  }

  /** A session ends only by a poll that finds the consumer gone, or by a broken send
      or one of nothing. */
  lemma {:induction false} ServeEnds(polls: seq<Poll>, sends: seq<Send>, at: nat, count: nat, size: nat)
    requires size > 0
    ensures var x := Serve(polls, sends, at, count, size);
      match x.end
      case PollsOver => forall i :: 0 <= i < |polls| ==> polls[i].Chatter? || polls[i].Quiet? || polls[i].Signalled?
      case ByPoll => exists i :: 0 <= i < |polls| && (polls[i].Failed? || polls[i].HangUp? || polls[i].Closed?)
      case BySend => x.used > 0 && Breaks(sends[x.used - 1])
    decreases |polls|
  {
    if polls != [] && !Ending(polls[0]) {
      if polls[0].Signalled? {
        ServeEnds(polls[1..], sends, at, count, size);
      } else {
        var f := Flow(sends, at, count, size);
        FlowTells(sends, at, count, size);
        hide Flow, Moving;
        if f.end != Gone {
          ServeEnds(polls[1..], sends[f.used..], at + f.sent, count - f.sent, size);
        }
      }
    }
  }

  /** One of the polls, before any that ends the session, lets it drain. */
  predicate GetsPolled(polls: seq<Poll>) {
    polls != [] && (polls[0].Chatter? || polls[0].Quiet? || (polls[0].Signalled? && GetsPolled(polls[1..])))
  }

  /** A session with one ordinary poll and sends that take is sent the whole queue,
      and no send ends it. */
  lemma {:induction false} PolledIsServed(polls: seq<Poll>, sends: seq<Send>, at: nat, count: nat, size: nat)
    requires size > 0 && GetsPolled(polls) && Moving(sends) && TakeCount(sends) >= count
    ensures var x := Serve(polls, sends, at, count, size); x.sent == count && x.end != BySend
    decreases |polls|
  {
    hide Flow, TakeCount, Breaks;
    if polls[0].Signalled? {
      PolledIsServed(polls[1..], sends, at, count, size);
    } else {
      TakingEmpties(sends, at, count, size);
      var f := Flow(sends, at, count, size);
      NothingToServe(polls[1..], sends[f.used..], at + f.sent, size);
    }
  }

  lemma {:induction false} NothingToServe(polls: seq<Poll>, sends: seq<Send>, at: nat, size: nat)
    requires size > 0
    ensures Serve(polls, sends, at, 0, size).sent == 0 && Serve(polls, sends, at, 0, size).end != BySend
    decreases |polls|
  {
    if polls != [] && !Ending(polls[0]) { NothingToServe(polls[1..], sends, at, size); }
  }

  function Rem(n: nat, d: nat): (r: nat)
    requires d >= 1
    ensures r <= n
  {
    n % d
  }

  /** The first n of the queue went to the consumer, the rest is still queued. */
  ghost predicate Handed<T>(sent: seq<T>, queue: seq<T>, sent': seq<T>, queue': seq<T>, n: nat) {
    n <= |queue| && sent' == sent + queue[..n] && queue' == queue[n..]
  }

  lemma HandedNone<T>(sent: seq<T>, queue: seq<T>)
    ensures Handed(sent, queue, sent, queue, 0)
  {
  }

  lemma HandedOn<T>(sent: seq<T>, queue: seq<T>, sent1: seq<T>, queue1: seq<T>, n: nat,
                    sent2: seq<T>, queue2: seq<T>, m: nat)
    requires Handed(sent, queue, sent1, queue1, n) && Handed(sent1, queue1, sent2, queue2, m)
    ensures Handed(sent, queue, sent2, queue2, n + m)
  {
    SliceSplits(queue, 0, n, n + m);
    DropTake(queue, n, 0, m);
    DropDrop(queue, n, m);
    Assoc(sent, queue[..n], queue[n..][..m]);
    assert queue[n..][..m] == queue[n..n + m] && queue[0..n + m] == queue[..n + m] && queue[0..n] == queue[..n];
  }

  class Server<T(0)> {
    const ring: Ring<T>
    var attached: bool
    var wantWrite: bool         // the socket owes a sign that it can take more
    var torn: nat
    var sent: seq<T>            // everything the consumer's socket took
    var sends: seq<Send>        // what the sends will return, in order

    constructor (ring: Ring<T>, sends: seq<Send>)
      ensures this.ring == ring && !attached && !wantWrite && torn == 0 && sent == [] && this.sends == sends
    {
      this.ring, attached, wantWrite, torn, sent, this.sends := ring, false, false, 0, [], sends;
    }

    method NextSend() returns (r: Send)
      modifies this`sends
      ensures if old(sends) == [] then r == WouldBlock && sends == [] else r == old(sends)[0] && sends == old(sends)[1..]
    {
      if sends == [] { return WouldBlock; }
      r, sends := sends[0], sends[1..];
    }

    /** Advances past what the socket took of a peeked run. */
    method TakeSent(index: nat, n: nat, took: nat)
      requires ring.Valid() && 0 < took <= n <= |ring.Contents()| && index + n <= ring.buf.Length
      requires ring.buf[index..index + n] == ring.Contents()[..n]
      modifies this`sent, ring`tail, ring`taken
      ensures ring.Valid() && ring.taken == old(ring.taken) + took
      ensures Handed(old(sent), old(ring.Contents()), sent, ring.Contents(), took)
    {
      hide Window;
      var bytes := ring.buf[index..index + took];
      assert bytes == ring.buf[index..index + n][..took] == ring.Contents()[..took];
      ring.Advance(took);
      sent := sent + bytes;
    }

    /** Sends what is queued until the ring is empty, the consumer is behind, or
        it is gone. Exactly what the socket took leaves the ring, in order. */
    method Drain() returns (r: Drained)
      requires ring.Valid()
      modifies this`sent, this`sends, this`wantWrite, ring`tail, ring`taken
      ensures ring.Valid()
      ensures var f := Flow(old(sends), old(ring.taken), |old(ring.Contents())|, ring.buf.Length);
        && Handed(old(sent), old(ring.Contents()), sent, ring.Contents(), f.sent)
        && sends == old(sends)[f.used..] && r == f.end && ring.taken == old(ring.taken) + f.sent
        && wantWrite == if r == Gone then old(wantWrite) else r == Behind
    {
      hide Window, Slot, Flow, Handed, Word, Pow2, Flowed.After;
      HandedNone(sent, ring.Contents());
      AfterNothing(Flow(sends, ring.taken, |ring.Contents()|, ring.buf.Length));
      ghost var all := Flow(sends, ring.taken, |ring.Contents()|, ring.buf.Length);
      ghost var done: nat, used: nat := 0, 0;
      while true
        invariant ring.Valid() && wantWrite == old(wantWrite)
        invariant Handed(old(sent), old(ring.Contents()), sent, ring.Contents(), done)
        invariant ring.taken == old(ring.taken) + done
        invariant used <= |old(sends)| && sends == old(sends)[used..]
        invariant all == Flow(sends, ring.taken, |ring.Contents()|, ring.buf.Length).After(done, used)
        decreases |sends| + |ring.Contents()|
      {
        ghost var count := |ring.Contents()|;
        var index, n := ring.PeekLinear();
        if n == 0 {
          FlowDone(sends, ring.taken, count, ring.buf.Length, done, used);
          wantWrite := false;
          return Idle;
        }
        if sends == [] {
          FlowDone(sends, ring.taken, count, ring.buf.Length, done, used);
          wantWrite := true;
          return Behind;
        }
        FlowNext(sends, ring.taken, count, ring.buf.Length, done, used);
        DropDrop(old(sends), used, 1);
        var s := NextSend();
        used := used + 1;
        match s {
          case Took(k) =>
            if k == 0 { return Gone; }
            var took := Min(k, n);
            hide Min;
            ghost var sent1, queue1 := sent, ring.Contents();
            TakeSent(index, n, took);
            HandedOn(old(sent), old(ring.Contents()), sent1, queue1, done, sent, ring.Contents(), took);
            done := done + took;
          case WouldBlock =>
            wantWrite := true;
            return Behind;
          case Interrupted =>
          case Broken => return Gone;
        }
      }
    }

    /** Drops what is left of a record that was only partly sent, and counts it. */
    method Realign(stride: nat)
      requires ring.Valid() && stride >= 1
      modifies this`torn, ring`tail, ring`taken
      ensures ring.Valid()
      ensures var rem := Rem(|old(ring.Contents())|, stride);
        ring.Contents() == old(ring.Contents())[rem..] && torn == old(torn) + (if rem != 0 then 1 else 0)
    {
      hide Window;
      if stride <= 1 { return; }
      var count := ring.Count();
      var rem := Rem(count, stride);
      if rem != 0 {
        ring.Advance(rem);
        torn := torn + 1;
      }
    }

    /** Polls and drains until the consumer is gone. */
    method ServeUntilGone(polls: seq<Poll>) returns (ghost got: nat)
      requires ring.Valid()
      modifies this`sent, this`sends, this`wantWrite, ring`tail, ring`taken
      ensures ring.Valid() && Handed(old(sent), old(ring.Contents()), sent, ring.Contents(), got)
      ensures var x := Serve(polls, old(sends), old(ring.taken), |old(ring.Contents())|, ring.buf.Length);
        got == x.sent && sends == old(sends)[x.used..]
    {
      hide Window, Flow, Serve, Handed, Word, Pow2, Served.After;
      HandedNone(sent, ring.Contents());
      ghost var size := ring.buf.Length;
      ghost var all := Serve(polls, sends, ring.taken, |ring.Contents()|, size);
      ghost var done: nat, used: nat := 0, 0;
      var k: nat := 0;
      ServeAfterNothing(all);
      assert polls[0..] == polls;
      while k < |polls|
        invariant k <= |polls| && ring.Valid()
        invariant Handed(old(sent), old(ring.Contents()), sent, ring.Contents(), done)
        invariant used <= |old(sends)| && sends == old(sends)[used..]
        invariant all == Serve(polls[k..], sends, ring.taken, |ring.Contents()|, size).After(done, used)
      {
        var p := polls[k];
        ServeNext(polls[k..], sends, ring.taken, |ring.Contents()|, size, done, used);
        DropDrop(polls, k, 1);
        k := k + 1;
        if p == Signalled { continue; }
        if p == Failed || p == HangUp || p == Closed { break; }
        ghost var f := Flow(sends, ring.taken, |ring.Contents()|, size);
        DropDrop(old(sends), used, f.used);
        ghost var sent1, queue1 := sent, ring.Contents();
        var r := Drain();
        HandedOn(old(sent), old(ring.Contents()), sent1, queue1, done, sent, ring.Contents(), f.sent);
        done, used := done + f.sent, used + f.used;
        if r == Gone { break; }
      }
      assert k == |polls| ==> polls[k..] == [];
      ServeOver(sends, ring.taken, |ring.Contents()|, size, done, used);
      got := done;
    }

    /** One session, attach to detach: the consumer gets the front of the queue,
        as much of it as polls and sends allow, a record cut by its departure is
        dropped and counted, and the queue that is left is whole records again. */
    method ServeConsumer(polls: seq<Poll>, stride: nat) returns (ghost got: nat)
      requires ring.Valid() && stride >= 1 && Rem(|ring.Contents()|, stride) == 0
      modifies this`attached, this`torn, this`sent, this`sends, this`wantWrite, ring`tail, ring`taken
      ensures ring.Valid() && !attached && Rem(|ring.Contents()|, stride) == 0
      ensures got <= |old(ring.Contents())| && sent == old(sent) + old(ring.Contents())[..got]
      ensures got == Serve(polls, old(sends), old(ring.taken), |old(ring.Contents())|, ring.buf.Length).sent
      ensures var left := |old(ring.Contents())| - got;
        ring.Contents() == old(ring.Contents())[got + Rem(left, stride)..]
      ensures torn == old(torn) + (if Rem(got, stride) != 0 then 1 else 0)
    {
      hide Window, Rem, Serve;
      attached := true;
      wantWrite := false;
      ghost var queue := ring.Contents();
      got := ServeUntilGone(polls);
      Remainder(|queue|, got, stride);
      Realign(stride);
      DropDrop(queue, got, Rem(|queue| - got, stride));
      attached := false;
    }
  }

  /** What is left over of a whole number of records after part was sent. */
  lemma Remainder(total: nat, got: nat, stride: nat)
    requires stride >= 1 && got <= total && Rem(total, stride) == 0
    ensures var rem := Rem(total - got, stride);
      (rem != 0 <==> Rem(got, stride) != 0) && got + rem <= total && Rem(total - got - rem, stride) == 0
  {
    hide Streams.Used;
    Streams.RoundsUp(stride, 0, got, total);
    var used, j := Streams.Used(0, got, stride), total / stride;
    Streams.DivMod(total, stride);
    Streams.Aligned(stride, 0, used, j);
  }
}
