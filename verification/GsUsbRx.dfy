/** The gs_usb receive path (examples/stm32f4disco-socketcan/main.c): frames
    from the two buses wait in one queue for the host, and a frame that follows
    a loss on its bus says so. */
module GsUsbRx {
  import opened Common
  import Wrapping

  const CHANNELS: nat := 2
  const CAPACITY: nat := 2048 / 20   // whole frames in the ring
  const WORD: nat := 0x1_0000_0000   // the drop counters are 32 bits wide

  datatype Frame = Frame(canId: nat, channel: nat, data: seq<nat>)

  /** A frame as the host gets it. */
  datatype Out = Out(frame: Frame, overflow: bool)

  datatype Rx = Rx(queue: seq<Frame>, dropped: seq<nat>, seen: seq<nat>, up: seq<bool>)

  predicate Shape(s: Rx) {
    && |s.dropped| == |s.seen| == |s.up| == CHANNELS && |s.queue| <= CAPACITY
    && (forall i :: 0 <= i < |s.queue| ==> s.queue[i].channel < CHANNELS)
  }

  function Queued(s: Rx, f: Frame): (t: Rx)
    requires Shape(s) && f.channel < CHANNELS
    ensures Shape(t)
  {
    if |s.queue| == CAPACITY then s.(dropped := s.dropped[f.channel := (s.dropped[f.channel] + 1) % WORD])
    else s.(queue := s.queue + [f])
  }

  /** Frames of stopped channels are passed over; the first other one goes out,
      marked if its channel's drop counter has moved. */
  function Delivered(s: Rx): (r: (Rx, Option<Out>))
    requires Shape(s)
    ensures Shape(r.0) && |r.0.queue| <= |s.queue|
    ensures r.1.Some? ==> r.1.value.frame.channel < CHANNELS
    decreases |s.queue|
  {
    if s.queue == [] then (s, None)
    else
      var f, t := s.queue[0], s.(queue := s.queue[1..]);
      if !s.up[f.channel] then Delivered(t)
      else (t.(seen := s.seen[f.channel := s.dropped[f.channel]]), Some(Out(f, s.dropped[f.channel] != s.seen[f.channel])))
  }

  /** After reset: nothing queued, the counters zero, both channels down. */
  const BOOT := Rx([], [0, 0], [0, 0], [false, false])

  class Receiver {
    var queue: seq<Frame>
    const dropped: array<nat>
    const seen: array<nat>
    const up: array<bool>

    ghost function Now(): Rx
      reads this, dropped, seen, up
    {
      Rx(queue, dropped[..], seen[..], up[..])
    }

    constructor ()
      ensures Now() == BOOT && Shape(Now()) && dropped != seen
      ensures fresh(dropped) && fresh(seen) && fresh(up)
    {
      queue := [];
      dropped := new nat[CHANNELS](c => 0);
      seen := new nat[CHANNELS](c => 0);
      up := new bool[CHANNELS](c => false);
      new;
      assert dropped[..] == [0, 0] && seen[..] == [0, 0] && up[..] == [false, false];
    }

    /** A frame off the bus, in the receive interrupt. */
    method Enqueue(f: Frame)
      requires Shape(Now()) && dropped != seen && f.channel < CHANNELS
      modifies this`queue, dropped
      ensures Now() == Queued(old(Now()), f)
    {
      if |queue| == CAPACITY {
        dropped[f.channel] := (dropped[f.channel] + 1) % WORD;
      } else {
        queue := queue + [f];
      }
    }

    /** The tail of the main loop's pass: at most one frame to the host. */
    method Deliver() returns (out: Option<Out>)
      requires Shape(Now()) && dropped != seen
      modifies this`queue, seen
      ensures (Now(), out) == Delivered(old(Now()))
    {
      while queue != []
        invariant Shape(Now()) && Delivered(Now()) == Delivered(old(Now()))
        decreases |queue|
      {
        var f := queue[0];
        queue := queue[1..];
        if up[f.channel] {
          out := Some(Out(f, dropped[f.channel] != seen[f.channel]));
          seen[f.channel] := dropped[f.channel];
          return;
        }
      }
      out := None;
    }
  }

  // Every interleaving of the interrupt, the main loop and the host's requests

  datatype Action = Arrive(f: Frame) | Pass | Start(ch: nat) | Stop(ch: nat)

  datatype World = World(
    s: Rx,
    unreported: seq<nat>,      // losses per channel since its last frame out or start
    arrived: nat,
    lost: nat,
    accepted: seq<Frame>,      // frames that found room
    taken: seq<Frame>,         // frames taken off the queue, sent or passed over
    sent: seq<Out>)

  predicate Enabled(w: World, a: Action) {
    match a
    case Arrive(f) => f.channel < CHANNELS == |w.s.up| && w.s.up[f.channel]   // others go elsewhere
    case Pass => true
    case Start(ch) => ch < CHANNELS
    case Stop(ch) => ch < CHANNELS
  }

  ghost predicate Inv(w: World) {
    && Shape(w.s) && |w.unreported| == CHANNELS
    && (forall ch :: 0 <= ch < CHANNELS ==> CounterOk(w, ch))
    && Recorded(w)
  }

  /** The drop counter has moved by what is not reported yet, modulo its width. */
  predicate CounterOk(w: World, ch: nat)
    requires Shape(w.s) && |w.unreported| == CHANNELS && ch < CHANNELS
  {
    w.s.seen[ch] < WORD && w.s.dropped[ch] == (w.s.seen[ch] + w.unreported[ch]) % WORD
  }

  predicate Recorded(w: World) {
    && w.accepted == w.taken + w.s.queue
    && w.arrived == |w.accepted| + w.lost
    && Within(FramesOf(w.sent), w.taken)
  }

  /** The machine at reset. */
  const FRESH := World(BOOT, [0, 0], 0, 0, [], [], [])

  function FramesOf(sent: seq<Out>): (r: seq<Frame>)
    ensures |r| == |sent|
  {
    seq(|sent|, i requires 0 <= i < |sent| => sent[i].frame)
  }

  /** a is b with some of its elements left out. */
  predicate Within(a: seq<Frame>, b: seq<Frame>)
    decreases |b|
  {
    || a == []
    || (b != [] && ((a[|a| - 1] == b[|b| - 1] && Within(a[..|a| - 1], b[..|b| - 1])) || Within(a, b[..|b| - 1])))
  }

  lemma {:induction false} WithinMore(a: seq<Frame>, b: seq<Frame>, more: seq<Frame>)
    requires Within(a, b)
    ensures Within(a, b + more)
    decreases |more|
  {
    if more == [] {
      assert b + more == b;
    } else {
      var n := |more| - 1;
      WithinMore(a, b, more[..n]);
      assert (b + more)[..|b| + n] == b + more[..n];
    }
  }

  lemma WithinBoth(a: seq<Frame>, b: seq<Frame>, x: Frame)
    requires Within(a, b)
    ensures Within(a + [x], b + [x])
  {
    assert (a + [x])[..|a|] == a && (b + [x])[..|b|] == b;
  }

  lemma WithinNext(a: seq<Frame>, b: seq<Frame>, more: seq<Frame>)
    requires Within(a, b) && more != []
    ensures Within(a + [more[|more| - 1]], b + more)
  {
    hide Within;
    var n := |more| - 1;
    WithinMore(a, b, more[..n]);
    WithinBoth(a, b + more[..n], more[n]);
    assert more == more[..n] + [more[n]];
    Assoc(b, more[..n], [more[n]]);
  }

  function Step(w: World, a: Action): World
    requires Shape(w.s) && |w.unreported| == CHANNELS && Enabled(w, a)
  {
    match a
    case Arrive(f) =>
      var t := w.(s := Queued(w.s, f), arrived := w.arrived + 1);
      if |w.s.queue| == CAPACITY then
        t.(lost := w.lost + 1, unreported := w.unreported[f.channel := w.unreported[f.channel] + 1])
      else t.(accepted := w.accepted + [f])
    case Pass =>
      var (s, out) := Delivered(w.s);
      var t := w.(s := s, taken := w.taken + w.s.queue[..|w.s.queue| - |s.queue|]);
      if out.None? then t
      else t.(sent := w.sent + [out.value], unreported := w.unreported[out.value.frame.channel := 0])
    case Start(ch) =>
      w.(s := w.s.(seen := w.s.seen[ch := w.s.dropped[ch]], up := w.s.up[ch := true]),
         unreported := w.unreported[ch := 0])
    case Stop(ch) => w.(s := w.s.(up := w.s.up[ch := false]))
  }

  function Run(w: World, acts: seq<Action>): Option<World>
    decreases |acts|
  {
    if acts == [] then Some(w)
    else if !(Shape(w.s) && |w.unreported| == CHANNELS && Enabled(w, acts[0])) then None
    else Run(Step(w, acts[0]), acts[1..])
  }

  /** What goes out is the first frame whose channel is up; those before it are
      of stopped channels; nothing goes out only if all are. */
  lemma {:induction false} DeliveredIsFirstUp(s: Rx)
    requires Shape(s)
    ensures var (t, out) := Delivered(s);
      && |t.queue| <= |s.queue| && t.queue == s.queue[|s.queue| - |t.queue|..]
      && t.dropped == s.dropped && t.up == s.up
      && (out.None? ==> t.queue == [] && t.seen == s.seen && forall i :: 0 <= i < |s.queue| ==> !s.up[s.queue[i].channel])
      && (out.Some? ==>
            var n := |s.queue| - |t.queue|;
            && n > 0 && out.value.frame == s.queue[n - 1] && s.up[s.queue[n - 1].channel]
            && (forall i :: 0 <= i < n - 1 ==> !s.up[s.queue[i].channel])
            && t.seen == s.seen[s.queue[n - 1].channel := s.dropped[s.queue[n - 1].channel]]
            && out.value.overflow == (s.dropped[s.queue[n - 1].channel] != s.seen[s.queue[n - 1].channel]))
    decreases |s.queue|
  {
    if s.queue != [] && !s.up[s.queue[0].channel] {
      var u := s.(queue := s.queue[1..]);
      DeliveredIsFirstUp(u);
      var (t, out) := Delivered(u);
      forall i | 0 <= i < |s.queue| - |t.queue| - 1 ensures !s.up[s.queue[i].channel] {
        if i > 0 { assert u.queue[i - 1] == s.queue[i]; }
      }
      if out.None? {
        forall i | 0 <= i < |s.queue| ensures !s.up[s.queue[i].channel] {
          if i > 0 { assert u.queue[i - 1] == s.queue[i]; }
        }
      }
    }
  }

  lemma ArriveKeepsInv(w: World, f: Frame)
    requires Inv(w) && Enabled(w, Arrive(f))
    ensures Inv(Step(w, Arrive(f)))
  {
    hide Within;
    var t := Step(w, Arrive(f));
    Wrapping.WrappedAdvance(w.s.seen[f.channel] + w.unreported[f.channel], 1, WORD);
    forall ch | 0 <= ch < CHANNELS ensures CounterOk(t, ch) { assert CounterOk(w, ch); }
    Assoc(w.taken, w.s.queue, [f]);
  }

  lemma PassKeepsCounters(w: World)
    requires Inv(w)
    ensures var t := Step(w, Pass);
      Shape(t.s) && |t.unreported| == CHANNELS && forall ch :: 0 <= ch < CHANNELS ==> CounterOk(t, ch)
  {
    hide Delivered, Recorded;
    DeliveredIsFirstUp(w.s);
    var t := Step(w, Pass);
    forall ch | 0 <= ch < CHANNELS ensures CounterOk(t, ch) { assert CounterOk(w, ch); }
  }

  lemma PassKeepsRecord(w: World)
    requires Shape(w.s) && |w.unreported| == CHANNELS && Recorded(w)
    ensures Recorded(Step(w, Pass))
  {
    hide Delivered, Within, FramesOf;
    DeliveredIsFirstUp(w.s);
    var (s, out) := Delivered(w.s);
    var n := |w.s.queue| - |s.queue|;
    RecordMoves(w, n, out);
    assert w.sent + [] == w.sent;
  }

  /** The front of the queue leaves it, and possibly its last frame goes out. */
  lemma RecordMoves(w: World, n: nat, out: Option<Out>)
    requires Recorded(w) && n <= |w.s.queue|
    requires out.Some? ==> n > 0 && out.value.frame == w.s.queue[n - 1]
    ensures w.accepted == w.taken + w.s.queue[..n] + w.s.queue[n..]
    ensures Within(FramesOf(w.sent + if out.Some? then [out.value] else []), w.taken + w.s.queue[..n])
  {
    hide Within;
    Assoc(w.taken, w.s.queue[..n], w.s.queue[n..]);
    assert w.s.queue == w.s.queue[..n] + w.s.queue[n..];
    if out.None? {
      assert w.sent + [] == w.sent;
      WithinMore(FramesOf(w.sent), w.taken, w.s.queue[..n]);
    } else {
      WithinNext(FramesOf(w.sent), w.taken, w.s.queue[..n]);
      assert FramesOf(w.sent + [out.value]) == FramesOf(w.sent) + [out.value.frame];
    }
  }

  lemma StepKeepsInv(w: World, a: Action)
    requires Inv(w) && Enabled(w, a)
    ensures Inv(Step(w, a))
  {
    var t := Step(w, a);
    match a
    case Arrive(f) => hide Step, Inv; ArriveKeepsInv(w, f);
    case Pass =>
      hide Step, Recorded;
      PassKeepsCounters(w);
      PassKeepsRecord(w);
    case Start(ch) =>
      hide Within;
      forall c | 0 <= c < CHANNELS ensures CounterOk(t, c) { assert CounterOk(w, c); }
    case Stop(ch) =>
      hide Within;
      forall c | 0 <= c < CHANNELS ensures CounterOk(t, c) { assert CounterOk(w, c); }
  }

  lemma {:induction false} RunKeepsInv(w: World, acts: seq<Action>)
    requires Inv(w) && Run(w, acts).Some?
    ensures Inv(Run(w, acts).value)
    decreases |acts|
  {
    hide Inv, Step;
    if acts != [] {
      StepKeepsInv(w, acts[0]);
      RunKeepsInv(Step(w, acts[0]), acts[1..]);
    }
  }

  lemma FreshInv()
    ensures Inv(FRESH)
  {
    assert FramesOf([]) == [];
    assert CounterOk(FRESH, 0) && CounterOk(FRESH, 1);
    assert [] + FRESH.s.queue == [];
  }

  /** Over every run from reset, the next frame out is marked exactly when frames
      of its channel were lost since the last one sent or the start, unless the
      32-bit counter has come round to the same value; the frames sent are frames
      taken, in the order they came, and none of those accepted disappears. */
  lemma LossesAreMarked(acts: seq<Action>)
    requires Run(FRESH, acts).Some?
    ensures var w := Run(FRESH, acts).value;
      && Shape(w.s) && |w.unreported| == CHANNELS
      && w.accepted == w.taken + w.s.queue && w.arrived == |w.accepted| + w.lost
      && Within(FramesOf(w.sent), w.taken)
      && var out := Delivered(w.s).1;
         out.Some? ==>
           (out.value.overflow <==> w.unreported[out.value.frame.channel] % WORD != 0)
  {
    FreshInv();
    RunKeepsInv(FRESH, acts);
    hide Run, Delivered, Within, FramesOf, CounterOk, Shape;
    NextIsMarked(Run(FRESH, acts).value);
  }

  lemma NextIsMarked(w: World)
    requires Shape(w.s) && |w.unreported| == CHANNELS && forall ch :: 0 <= ch < CHANNELS ==> CounterOk(w, ch)
    ensures var out := Delivered(w.s).1;
      out.Some? ==> (out.value.overflow <==> w.unreported[out.value.frame.channel] % WORD != 0)
  {
    hide Delivered;
    DeliveredIsFirstUp(w.s);
    var out := Delivered(w.s).1;
    if out.Some? {
      var ch := out.value.frame.channel;
      assert CounterOk(w, ch);
      MovedOn(w.s.seen[ch], w.unreported[ch]);
    }
  }

  lemma MovedOn(seen: nat, n: nat)
    requires seen < WORD
    ensures (seen + n) % WORD == seen <==> n % WORD == 0
  {
    Wrapping.WrappedAdvance(n, seen, WORD);
    var r := n % WORD;
    assert (r + seen) % WORD == if r + seen < WORD then r + seen else r + seen - WORD;
  }

  /** A channel that was stopped is silent: its frames are passed over, whatever was
      queued. */
  lemma StoppedIsSilent(w: World, ch: nat)
    requires Shape(w.s) && |w.unreported| == CHANNELS && ch < CHANNELS
    ensures var t := Step(w, Stop(ch));
      Shape(t.s) && t.s.queue == w.s.queue && t.s.dropped == w.s.dropped
      && var out := Delivered(t.s).1; out.Some? ==> out.value.frame.channel != ch
  {
    DeliveredIsFirstUp(Step(w, Stop(ch)).s);
    hide Delivered;
  }

  // Frames that all come out

  function Arrivals(frames: seq<Frame>): seq<Action> {
    seq(|frames|, i requires 0 <= i < |frames| => Arrive(frames[i]))
  }

  function Passes(n: nat): seq<Action> {
    seq(n, i => Pass)
  }

  function Unmarked(frames: seq<Frame>): seq<Out> {
    seq(|frames|, i requires 0 <= i < |frames| => Out(frames[i], false))
  }

  predicate AllOn(frames: seq<Frame>, ch: nat) {
    forall i :: 0 <= i < |frames| ==> frames[i].channel == ch
  }

  lemma RunFirst(w: World, a: Action, more: seq<Action>)
    requires Shape(w.s) && |w.unreported| == CHANNELS && Enabled(w, a)
    ensures Run(w, [a] + more) == Run(Step(w, a), more)
  {
    hide Step, Enabled;
    assert ([a] + more)[1..] == more;
  }

  lemma {:induction false} ArrivalsRun(w: World, frames: seq<Frame>, ch: nat, more: seq<Action>)
    requires Shape(w.s) && |w.unreported| == CHANNELS && ch < CHANNELS && w.s.up[ch] && AllOn(frames, ch)
    requires |w.s.queue| + |frames| <= CAPACITY
    ensures var t := w.(s := w.s.(queue := w.s.queue + frames), arrived := w.arrived + |frames|,
                        accepted := w.accepted + frames);
      Shape(t.s) && Run(w, Arrivals(frames) + more) == Run(t, more)
    decreases |frames|
  {
    if frames == [] {
      assert w.s.queue + [] == w.s.queue && w.accepted + [] == w.accepted && Arrivals(frames) + more == more;
    } else {
      var rest := frames[1..];
      assert Arrivals(frames) + more == [Arrive(frames[0])] + (Arrivals(rest) + more);
      assert frames[0].channel == ch && AllOn(rest, ch);
      var t := Step(w, Arrive(frames[0]));
      assert t == w.(s := w.s.(queue := w.s.queue + [frames[0]]), arrived := w.arrived + 1,
                     accepted := w.accepted + [frames[0]]);
      RunFirst(w, Arrive(frames[0]), Arrivals(rest) + more);
      hide Step, Enabled, Run, Arrivals, AllOn;
      ArrivalsRun(t, rest, ch, more);
      assert frames == [frames[0]] + rest;
      Assoc(w.s.queue, [frames[0]], rest);
      Assoc(w.accepted, [frames[0]], rest);
    }
  }

  lemma {:induction false} PassesRun(w: World, ch: nat) returns (t: World)
    requires Shape(w.s) && |w.unreported| == CHANNELS && ch < CHANNELS && w.s.up[ch] && AllOn(w.s.queue, ch)
    requires w.s.dropped[ch] == w.s.seen[ch]
    ensures Run(w, Passes(|w.s.queue|)) == Some(t) && t.sent == w.sent + Unmarked(w.s.queue) && t.s.queue == []
    decreases |w.s.queue|
  {
    var q := w.s.queue;
    if q == [] {
      t := w;
      assert w.sent + Unmarked(q) == w.sent;
    } else {
      assert Passes(|q|) == [Pass] + Passes(|q| - 1);
      RunFirst(w, Pass, Passes(|q| - 1));
      var w1 := Step(w, Pass);
      assert w1.s.queue == q[1..] && w1.sent == w.sent + [Out(q[0], false)];
      t := PassesRun(w1, ch);
      assert Unmarked(q) == [Out(q[0], false)] + Unmarked(q[1..]);
      Assoc(w.sent, [Out(q[0], false)], Unmarked(q[1..]));
    }
  }

  /** As many frames as the queue holds, received on a channel that is up, all come out
      in as many passes, in order and unmarked. */
  lemma AllComeOut(ch: nat, frames: seq<Frame>)
    requires ch < CHANNELS && AllOn(frames, ch) && |frames| <= CAPACITY
    ensures var r := Run(FRESH, [Start(ch)] + (Arrivals(frames) + Passes(|frames|)));
      r.Some? && r.value.sent == Unmarked(frames) && r.value.s.queue == []
  {
    var w1 := Step(FRESH, Start(ch));
    RunFirst(FRESH, Start(ch), Arrivals(frames) + Passes(|frames|));
    ArrivalsRun(w1, frames, ch, Passes(|frames|));
    assert [] + frames == frames;
    var t := PassesRun(w1.(s := w1.s.(queue := frames), arrived := |frames|, accepted := frames), ch);
    assert [] + Unmarked(frames) == Unmarked(frames);
  }
}
