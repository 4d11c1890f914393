/** The device's bulk-IN side of USBTMC (glue/usbscpi_tinyusb.c): replies are
    buffered as they are produced and handed out when the host asks, at most as
    much at a time as the host allows. */
module UsbtmcDevice {
  import opened Common
  import opened LittleEndian

  const TX_BUF_SIZE: nat := 4096
  const NEWLINE: Byte := 10

  /** The transmit state: buf holds the s_tx_len bytes queued. */
  datatype Tx = Tx(
    buf: seq<Byte>, sent: nat, chunk: nat, pending: bool, inFlight: bool,
    mav: bool, srq: bool)

  const IDLE := Tx([], 0, 0, false, false, false, false)

  predicate Inv(s: Tx) {
    && s.sent + s.chunk <= |s.buf| <= TX_BUF_SIZE
    && (s.pending <==> s.sent < |s.buf|)
    && (s.mav <==> s.sent < |s.buf|)
    && (s.sent == |s.buf| ==> s.buf == [])
    && (!s.inFlight ==> s.chunk == 0)
    && (s.inFlight && s.sent < |s.buf| ==> s.chunk > 0)
  }

  /** Queued and not yet delivered. */
  function Undelivered(s: Tx): seq<Byte>
    requires s.sent <= |s.buf|
  {
    s.buf[s.sent..]
  }

  /** Queued and not yet handed to the controller. */
  function Unstarted(s: Tx): seq<Byte> {
    if s.sent + s.chunk <= |s.buf| then s.buf[s.sent + s.chunk..] else []
  }

  function Queued(s: Tx, data: seq<Byte>): (r: (Tx, bool)) {
    if data == [] then (s, true)
    else if s.inFlight || |s.buf| + |data| > TX_BUF_SIZE then (s, false)
    else (s.(buf := s.buf + data, pending := true, mav := true), true)
  }

  /** How much goes out for a request of `size` bytes; 0 is no limit. */
  function ChunkFor(left: nat, size: nat): nat {
    if size != 0 && left > size then size else left
  }

  /** The transmit a request starts: new state, payload, end-of-message. */
  function Requested(s: Tx, size: nat): (Tx, seq<Byte>, bool)
    requires s.sent <= |s.buf|
  {
    if s.pending && |s.buf| > s.sent then
      var chunk := ChunkFor(|s.buf| - s.sent, size);
      (s.(chunk := chunk, inFlight := true), s.buf[s.sent..s.sent + chunk], s.sent + chunk >= |s.buf|)
    else (s.(chunk := 0, inFlight := true), [NEWLINE], true)
  }

  function Completed(s: Tx): Tx {
    var t := s.(sent := s.sent + s.chunk, chunk := 0, inFlight := false);
    if t.sent >= |t.buf| then t.(buf := [], sent := 0, pending := false, mav := false) else t
  }

  class Glue {
    const txBuf: array<Byte>
    var len: nat
    var sent: nat
    var chunk: nat
    var pending: bool
    var inFlight: bool
    var mav: bool
    var srq: bool

    ghost function State(): Tx
      requires len <= txBuf.Length
      reads this, txBuf
    {
      Tx(txBuf[..len], sent, chunk, pending, inFlight, mav, srq)
    }

    ghost predicate Valid()
      reads this, txBuf
    {
      txBuf.Length == TX_BUF_SIZE && len <= TX_BUF_SIZE && Inv(State())
    }

    constructor ()
      ensures Valid() && State() == IDLE && fresh(txBuf)
    {
      txBuf := new Byte[TX_BUF_SIZE](_ => 0);
      len, sent, chunk, pending, inFlight, mav, srq := 0, 0, 0, false, false, false, false;
    }

    method QueueResponse(data: seq<Byte>) returns (ok: bool)
      requires Valid()
      modifies this, txBuf
      ensures Valid() && (State(), ok) == Queued(old(State()), data)
    {
      if |data| == 0 { return true; }
      if inFlight { return false; }
      if len + |data| > TX_BUF_SIZE { return false; }
      ghost var before := txBuf[..len];
      forall i | 0 <= i < |data| {
        txBuf[len + i] := data[i];
      }
      assert txBuf[..len + |data|] == before + data;
      len := len + |data|;
      pending := true;
      mav := true;
      ok := true;
    }

    /** The host asked for up to `size` bytes: what is transmitted. */
    method RequestIn(size: nat) returns (payload: seq<Byte>, eom: bool)
      requires Valid() && !inFlight
      modifies this`chunk, this`inFlight
      ensures Valid() && (State(), payload, eom) == Requested(old(State()), size)
    {
      if pending && len > sent {
        var n := len - sent;
        if size != 0 && n > size { n := size; }
        eom := sent + n >= len;
        chunk := n;
        inFlight := true;
        payload := txBuf[sent..sent + n];
        SliceOfPrefix(txBuf, len, sent, sent + n);
      } else {
        chunk := 0;
        inFlight := true;
        payload, eom := [NEWLINE], true;
      }
    }

    method CompleteIn()
      requires Valid() && inFlight
      modifies this
      ensures Valid() && State() == Completed(old(State()))
    {
      sent := sent + chunk;
      chunk := 0;
      inFlight := false;
      if sent >= len {
        len := 0;
        sent := 0;
        pending := false;
        mav := false;
      }
    }

    method GetStb() returns (srqWas: bool, mavIs: bool)
      requires Valid()
      modifies this`srq
      ensures Valid() && State() == old(State()).(srq := false)
      ensures srqWas == old(srq) && (mavIs <==> Undelivered(State()) != [])
    {
      srqWas, mavIs := srq, mav;
      srq := false;
    }

    method SetSrq()
      requires Valid()
      modifies this`srq
      ensures Valid() && State() == old(State()).(srq := true)
    {
      srq := true;
    }

    method ClearOut()
      requires Valid()
      modifies this
      ensures Valid() && State() == IDLE
    {
      len, sent, chunk := 0, 0, 0;
      pending, inFlight := false, false;
      mav, srq := false, false;
    }

    method ClearIn()
      requires Valid()
      modifies this
      ensures Valid() && State() == IDLE.(srq := old(srq))
    {
      len, sent, chunk := 0, 0, 0;
      pending, inFlight := false, false;
      mav := false;
    }
  }

  lemma SliceOfPrefix(a: array<Byte>, len: nat, i: nat, j: nat)
    requires i <= j <= len <= a.Length
    ensures a[i..j] == a[..len][i..j]
  {
  }

  // Every run of the callbacks

  datatype Action =
    | Queue(data: seq<Byte>)
    | Request(size: nat)
    | Complete
    | Stb
    | Srq
    | ClearOut
    | ClearIn

  /** A transmit as the host's controller sees it. */
  datatype Transfer = Transfer(payload: seq<Byte>, eom: bool, dummy: bool)

  /** What became of reply bytes: handed to the controller, or dropped by a clear
      while none of them had been. */
  datatype Event = Started(x: Transfer) | Dropped(bytes: seq<Byte>)

  datatype World = World(tx: Tx, accepted: seq<Byte>, log: seq<Event>)

  /** TinyUSB takes a new request only once the last transmit has completed or the
      endpoint was cleared. */
  predicate Enabled(w: World, a: Action) {
    match a
    case Request(_) => !w.tx.inFlight && w.tx.sent <= |w.tx.buf|
    case Complete => w.tx.inFlight
    case _ => true
  }

  function Step(w: World, a: Action): World
    requires Enabled(w, a)
  {
    match a
    case Queue(data) =>
      var (tx, ok) := Queued(w.tx, data);
      w.(tx := tx, accepted := if ok then w.accepted + data else w.accepted)
    case Request(size) =>
      var (tx, payload, eom) := Requested(w.tx, size);
      w.(tx := tx, log := w.log + [Started(Transfer(payload, eom, !w.tx.pending))])
    case Complete => w.(tx := Completed(w.tx))
    case Stb => w.(tx := w.tx.(srq := false))
    case Srq => w.(tx := w.tx.(srq := true))
    case ClearOut => w.(tx := IDLE, log := w.log + [Dropped(Unstarted(w.tx))])
    case ClearIn => w.(tx := IDLE.(srq := w.tx.srq), log := w.log + [Dropped(Unstarted(w.tx))])
  }

  function Run(w: World, acts: seq<Action>): Option<World>
    decreases |acts|
  {
    if acts == [] then Some(w)
    else if !Enabled(w, acts[0]) then None
    else Run(Step(w, acts[0]), acts[1..])
  }

  /** The reply bytes accounted for, in the order of the events. */
  function Settled(log: seq<Event>): seq<Byte> {
    if log == [] then []
    else Settled(log[..|log| - 1]) + Bytes(log[|log| - 1])
  }

  function Bytes(e: Event): seq<Byte> {
    match e
    case Started(x) => if x.dummy then [] else x.payload
    case Dropped(bytes) => bytes
  }

  /** What is in flight has been handed to the controller but is still the
      device's to keep. */
  ghost predicate Conserved(w: World) {
    && Inv(w.tx)
    && w.accepted == Settled(w.log) + Unstarted(w.tx)
  }

  lemma QueuedKeepsInv(s: Tx, data: seq<Byte>)
    requires Inv(s)
    ensures var (t, ok) := Queued(s, data);
      Inv(t) && if ok && data != [] then Unstarted(t) == Unstarted(s) + data else t == s
  {
    DropOfAppend(s.buf, data, s.sent + s.chunk);
  }

  lemma QueueConserves(w: World, data: seq<Byte>)
    requires Conserved(w)
    ensures Conserved(Step(w, Queue(data)))
  {
    hide Settled, Queued, Inv, Unstarted;
    QueuedKeepsInv(w.tx, data);
    if data == [] {
      assert w.accepted + [] == w.accepted;
    } else {
      Assoc(Settled(w.log), Unstarted(w.tx), data);
    }
  }

  lemma RequestConserves(w: World, size: nat)
    requires Conserved(w) && Enabled(w, Request(size))
    ensures Conserved(Step(w, Request(size)))
    ensures |Step(w, Request(size)).log| == |w.log| + 1
  {
    var (t, payload, eom) := Requested(w.tx, size);
    var x := Transfer(payload, eom, !w.tx.pending);
    RequestKeepsInv(w.tx, size);
    hide Conserved, Requested, Inv, Bytes, Unstarted;
    EventConserves(w, t, Started(x));
  }

  lemma ClearedIsIdle(srq: bool)
    ensures var t := IDLE.(srq := srq); Inv(t) && Unstarted(t) == []
  {
  }

  /** A clear drops exactly what was accepted and not handed over. */
  lemma ClearConserves(w: World, a: Action)
    requires Conserved(w) && (a.ClearOut? || a.ClearIn?)
    ensures Conserved(Step(w, a))
  {
    hide Conserved, Inv, Unstarted;
    var srq := a.ClearIn? && w.tx.srq;
    ClearedIsIdle(srq);
    assert Unstarted(w.tx) + [] == Unstarted(w.tx);
    EventConserves(w, IDLE.(srq := srq), Dropped(Unstarted(w.tx)));
    assert IDLE.(srq := false) == IDLE;
  }

  lemma EventConserves(w: World, t: Tx, e: Event)
    requires Conserved(w) && Inv(t)
    requires Unstarted(w.tx) == Bytes(e) + Unstarted(t)
    ensures Conserved(w.(tx := t, log := w.log + [e]))
  {
    SettledOneMore(w.log, e);
    hide Settled, Inv, Bytes, Unstarted;
    Assoc(Settled(w.log), Bytes(e), Unstarted(t));
  }

  lemma RequestKeepsInv(s: Tx, size: nat)
    requires Inv(s) && !s.inFlight
    ensures var (t, payload, eom) := Requested(s, size);
      && Inv(t) && Unstarted(s) == Bytes(Started(Transfer(payload, eom, !s.pending))) + Unstarted(t)
  {
    if s.pending {
      SliceSplits(s.buf, s.sent, s.sent + ChunkFor(|s.buf| - s.sent, size), |s.buf|);
    }
  }

  lemma SettledOneMore(log: seq<Event>, e: Event)
    ensures Settled(log + [e]) == Settled(log) + Bytes(e)
  {
    assert (log + [e])[..|log|] == log;
  }

  lemma QuietStepConserves(w: World, a: Action)
    requires Conserved(w) && Enabled(w, a) && (a.Complete? || a.Stb? || a.Srq?)
    ensures Conserved(Step(w, a))
  {
    hide Settled, Requested, Queued;
    var t := Step(w, a).tx;
    assert Inv(t) && Unstarted(t) == Unstarted(w.tx);
  }

  lemma StepConserves(w: World, a: Action)
    requires Conserved(w) && Enabled(w, a)
    ensures Conserved(Step(w, a))
  {
    hide Conserved, Step;
    match a
    case Queue(data) => QueueConserves(w, data);
    case Request(size) => RequestConserves(w, size);
    case ClearOut => ClearConserves(w, a);
    case ClearIn => ClearConserves(w, a);
    case _ => QuietStepConserves(w, a);
  }

  lemma {:induction false} RunConserves(w: World, acts: seq<Action>)
    requires Conserved(w) && Run(w, acts).Some?
    ensures Conserved(Run(w, acts).value)
    decreases |acts|
  {
    hide Conserved, Step;
    if acts != [] {
      StepConserves(w, acts[0]);
      RunConserves(Step(w, acts[0]), acts[1..]);
    }
  }

  /** Over every run of the callbacks, clears at any moment included: the accepted
      reply bytes are, once and in order, those handed to the host's transfers,
      those a clear dropped, and those still queued; MAV is up exactly while some
      have not been delivered; and a transfer is the end of the message exactly
      when it leaves nothing. */
  lemma DeliveredOnceInOrder(acts: seq<Action>, size: nat)
    requires Run(World(IDLE, [], []), acts).Some?
    ensures var w := Run(World(IDLE, [], []), acts).value;
      && Inv(w.tx)
      && w.accepted == Settled(w.log) + Unstarted(w.tx)
      && (w.tx.mav <==> Undelivered(w.tx) != [])
      && (!w.tx.inFlight ==>
            var w' := Step(w, Request(size));
            && |w'.log| == |w.log| + 1 && w'.log[|w.log|].Started?
            && var x := w'.log[|w.log|].x;
               && x.payload != []
               && (x.dummy <==> Undelivered(w.tx) == [])
               && (!x.dummy ==> (x.eom <==> Settled(w'.log) == w.accepted)))
  {
    var w0 := World(IDLE, [], []);
    assert w0.accepted == Settled(w0.log) + IDLE.buf[0..];
    RunConserves(w0, acts);
    var w := Run(w0, acts).value;
    if !w.tx.inFlight {
      RequestConserves(w, size);
      var w' := Step(w, Request(size));
      assert |w'.accepted| == |Settled(w'.log)| + |Unstarted(w'.tx)|;
    }
  }

  /** On every run a reply is taken exactly when it is empty, or nothing is in flight
      and it fits behind what was queued since the queue was last empty; one that is
      taken is queued whole behind the rest, one that is not changes nothing. */
  lemma AcceptedExactly(acts: seq<Action>, data: seq<Byte>)
    requires Run(World(IDLE, [], []), acts).Some?
    ensures var w := Run(World(IDLE, [], []), acts).value;
      var w' := Step(w, Queue(data));
      Inv(w.tx) && Inv(w'.tx) &&
      if data == [] || (!w.tx.inFlight && |w.tx.buf| + |data| <= TX_BUF_SIZE) then
        w'.accepted == w.accepted + data && Undelivered(w'.tx) == Undelivered(w.tx) + data && w'.log == w.log
      else w' == w
    ensures var tx := Run(World(IDLE, [], []), acts).value.tx; Inv(tx) && (Undelivered(tx) == [] ==> tx.buf == [])
  {
    var w0 := World(IDLE, [], []);
    assert w0.accepted == Settled(w0.log) + IDLE.buf[0..];
    RunConserves(w0, acts);
    var w := Run(w0, acts).value;
    hide Run, Settled;
    assert w.accepted + [] == w.accepted && Undelivered(w.tx) + [] == Undelivered(w.tx);
    DropOfAppend(w.tx.buf, data, w.tx.sent);
  }

  /** The front of what is undelivered, all of it or as much as was asked for, and the
      end of the message exactly when that is all; one newline and the end of the
      message when there is nothing. */
  function Answered(left: seq<Byte>, size: nat): Transfer {
    if left == [] then Transfer([10], true, true)
    else if size == 0 || size >= |left| then Transfer(left, true, false)
    else Transfer(left[..size], false, false)
  }

  lemma RequestedIs(s: Tx, size: nat)
    requires Inv(s) && !s.inFlight
    ensures var (t, payload, eom) := Requested(s, size);
      t.inFlight && Transfer(payload, eom, !s.pending) == Answered(Undelivered(s), size)
  {
    if s.pending {
      var left := Undelivered(s);
      assert left[..|left|] == left;
      var n := ChunkFor(|left|, size);
      DropTake(s.buf, s.sent, 0, n);
      assert s.buf[s.sent..s.sent + n] == left[..n];
    }
  }

  /** On every run that is how a request is answered. */
  lemma AnsweredExactly(acts: seq<Action>, size: nat)
    requires Run(World(IDLE, [], []), acts).Some? && !Run(World(IDLE, [], []), acts).value.tx.inFlight
    ensures var w := Run(World(IDLE, [], []), acts).value;
      Inv(w.tx) && Step(w, Request(size)).log == w.log + [Started(Answered(Undelivered(w.tx), size))]
  {
    var w0 := World(IDLE, [], []);
    assert w0.accepted == Settled(w0.log) + IDLE.buf[0..];
    RunConserves(w0, acts);
    hide Run, Settled, Answered, Requested;
    RequestedIs(Run(w0, acts).value.tx, size);
  }

  /** Replies queued one after another. */
  function QueueAll(replies: seq<seq<Byte>>): (acts: seq<Action>)
    ensures |acts| == |replies|
  {
    seq(|replies|, i requires 0 <= i < |replies| => Queue(replies[i]))
  }

  lemma {:induction false} RunAppend(w: World, a: seq<Action>, b: seq<Action>)
    ensures Run(w, a + b) == match Run(w, a)
                             case None => None
                             case Some(t) => Run(t, b)
    decreases |a|
  {
    hide Step, Enabled;
    if a == [] {
      assert a + b == b;
    } else {
      assert (a + b)[1..] == a[1..] + b;
      if Enabled(w, a[0]) { RunAppend(Step(w, a[0]), a[1..], b); }
    }
  }

  /** Replies that fit are all taken by a device that holds nothing, and a request for
      at least as much hands them out as one message. */
  lemma {:induction false} AllQueued(w: World, replies: seq<seq<Byte>>)
    requires !w.tx.inFlight && |w.tx.buf| + |Flat(replies)| <= TX_BUF_SIZE
    ensures var tx := w.tx.(buf := w.tx.buf + Flat(replies),
                            pending := w.tx.pending || Flat(replies) != [], mav := w.tx.mav || Flat(replies) != []);
      Run(w, QueueAll(replies)) == Some(w.(tx := tx, accepted := w.accepted + Flat(replies)))
    decreases |replies|
  {
    if replies == [] {
      assert w.tx.buf + [] == w.tx.buf && w.accepted + [] == w.accepted;
    } else {
      var data, more := replies[0], replies[1..];
      var t := Step(w, Queue(data));
      if data == [] {
        assert w.accepted + [] == w.accepted && w.tx.buf + [] == w.tx.buf;
      }
      assert t.tx.buf == w.tx.buf + data && t.accepted == w.accepted + data;
      assert QueueAll(replies)[1..] == QueueAll(more);
      AllQueued(t, more);
      Assoc(w.tx.buf, data, Flat(more));
      Assoc(w.accepted, data, Flat(more));
    }
  }

  lemma OneMessage(replies: seq<seq<Byte>>, size: nat)
    requires 0 < |Flat(replies)| <= TX_BUF_SIZE && (size == 0 || size >= |Flat(replies)|)
    ensures var t := Run(World(IDLE, [], []), QueueAll(replies) + [Request(size), Complete]);
      t == Some(World(IDLE, Flat(replies), [Started(Transfer(Flat(replies), true, false))]))
  {
    var all := Flat(replies);
    var w0 := World(IDLE, [], []);
    AllQueued(w0, replies);
    hide QueueAll, Flat;
    hide Step;
    RunAppend(w0, QueueAll(replies), [Request(size), Complete]);
    assert [] + all == all;
    var w1 := World(Tx(all, 0, 0, true, false, true, false), all, []);
    assert Run(w0, QueueAll(replies)) == Some(w1);
    OneTransfer(all, size);
  }

  lemma OneTransfer(all: seq<Byte>, size: nat)
    requires 0 < |all| <= TX_BUF_SIZE && (size == 0 || size >= |all|)
    ensures Run(World(Tx(all, 0, 0, true, false, true, false), all, []), [Request(size), Complete])
            == Some(World(IDLE, all, [Started(Transfer(all, true, false))]))
  {
    var w1 := World(Tx(all, 0, 0, true, false, true, false), all, []);
    assert all[0..|all|] == all;
    var w2 := Step(w1, Request(size));
    assert w2.log == [Started(Transfer(all, true, false))];
    var w3 := Step(w2, Complete);
    hide Step;
    assert [Request(size), Complete][1..] == [Complete] && [Complete][1..] == [];
    assert Run(w2, [Complete]) == Some(w3);
  }

  function Drops(log: seq<Event>): seq<Byte> {
    if log == [] then []
    else Drops(log[..|log| - 1]) + if log[|log| - 1].Dropped? then log[|log| - 1].bytes else []
  }

  /** Without a clear nothing is dropped. */
  lemma {:induction false} OnlyClearsDrop(w: World, acts: seq<Action>)
    requires Run(w, acts).Some? && forall i :: 0 <= i < |acts| ==> !acts[i].ClearOut? && !acts[i].ClearIn?
    ensures Drops(Run(w, acts).value.log) == Drops(w.log)
    decreases |acts|
  {
    hide Requested, Queued, Completed;
    if acts != [] {
      var t := Step(w, acts[0]);
      if acts[0].Request? {
        assert t.log[..|w.log|] == w.log;
        assert Drops(w.log) + [] == Drops(w.log);
      }
      OnlyClearsDrop(t, acts[1..]);
    }
  }
}
