/** When a finished frame does get back to the host: the echo of one pass goes to
    the first finished box, so a box waits for those before it, and may wait for
    ever if they keep being filled. */
module GsUsbProgress {
  import opened Common
  import opened GsUsb

  /** What happens between two passes and in the next: the controllers' status
      bits, and the host's next frame. The pipe to the host is empty. */
  datatype Round = Round(hw: seq<Mailbox>, incoming: Option<Frame>)

  predicate Fits(r: Round) {
    |r.hw| == BOXES
  }

  /** The state in which the pass looks for an echo. */
  function Before(s: State, r: Round): (t: State)
    requires Shape(s) && Fits(r)
    ensures Shape(t)
  {
    var s1 := ReapedUpTo(s.(hw := r.hw), BOXES);
    Placed(if s1.out.None? && r.incoming.Some? then s1.(out := r.incoming) else s1)
  }

  function After(s: State, r: Round): (t: State)
    requires Shape(s) && Fits(r)
    ensures Shape(t)
  {
    Polled(s.(hw := r.hw), r.incoming, true).0
  }

  /** The box the pass echoes. */
  function Echoer(s: State, r: Round): Option<nat>
    requires Shape(s) && Fits(r)
  {
    DoneBox(Before(s, r), 0)
  }

  lemma AfterIsFreed(s: State, r: Round)
    requires Shape(s) && Fits(r)
    ensures After(s, r) == match Echoer(s, r)
                           case None => Before(s, r)
                           case Some(b) => Freed(Before(s, r), b)
  {
    hide ReapedUpTo, Placed, DoneBox;
  }

  lemma {:induction false} ReapKeeps(s: State, n: nat, b: nat)
    requires Shape(s) && n <= BOXES && b < BOXES
    ensures var t := ReapedUpTo(s, n);
      && t.tx == s.tx && (s.state[b] == Free <==> t.state[b] == Free) && (s.state[b] == Done ==> t.state[b] == Done)
  {
    if n > 0 { ReapKeeps(s, n - 1, b); }
  }

  lemma PlaceKeeps(s: State, b: nat)
    requires Shape(s) && b < BOXES
    ensures s.state[b] != Free ==> Placed(s).state[b] == s.state[b] && Placed(s).tx[b] == s.tx[b]
    ensures s.state[b] == Free ==> Placed(s).state[b] != Done
  {
    hide FreeBox;
  }

  /** Up to the echo, a finished box stays finished, a box in use in use. */
  lemma BeforeKeeps(s: State, r: Round, b: nat)
    requires Shape(s) && Fits(r) && b < BOXES
    ensures s.state[b] != Free ==> Before(s, r).state[b] != Free
    ensures s.state[b] == Done ==> Before(s, r).state[b] == Done && Before(s, r).tx[b] == s.tx[b]
  {
    var s0 := s.(hw := r.hw);
    var s1 := ReapedUpTo(s0, BOXES);
    ReapKeeps(s0, BOXES, b);
    hide ReapedUpTo, Placed;
    PlaceKeeps(if s1.out.None? && r.incoming.Some? then s1.(out := r.incoming) else s1, b);
  }

  lemma {:induction false} FirstDone(s: State, from: nat, b: nat)
    requires Shape(s) && from <= b < BOXES && s.state[b] == Done
    ensures DoneBox(s, from).Some? && DoneBox(s, from).value <= b
    ensures DoneBox(s, from).value == b <==> forall c :: from <= c < b ==> s.state[c] != Done
    decreases b - from
  {
    if from < b && s.state[from] != Done { FirstDone(s, from + 1, b); }
  }

  /** One pass echoes the first finished box: box b exactly when none before it is
      finished; another box is left as it was, its frame with it. */
  lemma PassEchoesFirst(s: State, r: Round, b: nat)
    requires Shape(s) && Fits(r) && b < BOXES && s.state[b] == Done
    ensures Echoer(s, r).Some? && Echoer(s, r).value <= b
    ensures Echoer(s, r) == Some(b) <==> forall c :: 0 <= c < b ==> Before(s, r).state[c] != Done
    ensures Echoer(s, r) == Some(b) ==> After(s, r).state[b] == Free
    ensures Echoer(s, r) != Some(b) ==> After(s, r).state[b] == Done && After(s, r).tx[b] == s.tx[b]
  {
    BeforeKeeps(s, r, b);
    AfterIsFreed(s, r);
    hide Before, After, DoneBox;
    FirstDone(Before(s, r), 0, b);
  }

  /** The boxes before b that hold a frame. */
  function BusyBelow(s: State, b: nat): nat
    requires Shape(s) && b <= BOXES
  {
    if b == 0 then 0 else BusyBelow(s, b - 1) + Used(s, b - 1)
  }

  lemma {:induction false} BusyBelowBound(s: State, b: nat)
    requires Shape(s) && b <= BOXES
    ensures BusyBelow(s, b) <= b
  {
    if b > 0 { BusyBelowBound(s, b - 1); }
  }

  /** No box before b is filled. */
  predicate LeftAlone(s: State, t: State, b: nat)
    requires Shape(s) && Shape(t) && b <= BOXES
  {
    forall c :: 0 <= c < b && s.state[c] == Free ==> t.state[c] == Free
  }

  lemma {:induction false} FewerBusy(s: State, t: State, b: nat, freed: nat)
    requires Shape(s) && Shape(t) && b <= BOXES && LeftAlone(s, t, b)
    ensures BusyBelow(t, b) <= BusyBelow(s, b)
    ensures freed < b && s.state[freed] != Free && t.state[freed] == Free ==> BusyBelow(t, b) < BusyBelow(s, b)
  {
    if b > 0 {
      FewerBusy(s, t, b - 1, freed);
    }
  }

  /** A pass that fills no box before b either echoes b or frees one before it. */
  lemma PassProgress(s: State, r: Round, b: nat)
    requires Shape(s) && Fits(r) && b < BOXES && s.state[b] == Done && LeftAlone(s, After(s, r), b)
    ensures Echoer(s, r) == Some(b) || BusyBelow(After(s, r), b) < BusyBelow(s, b)
  {
    PassEchoesFirst(s, r, b);
    if Echoer(s, r) != Some(b) {
      var c := Echoer(s, r).value;
      AfterIsFreed(s, r);
      FreedWasBusy(s, r, b);
      hide Before, After, Echoer;
      FewerBusy(s, After(s, r), b, c);
    }
  }

  lemma FreedWasBusy(s: State, r: Round, b: nat)
    requires Shape(s) && Fits(r) && b < BOXES && Echoer(s, r).Some?
    ensures var c := Echoer(s, r).value; c < BOXES && s.state[c] != Free && After(s, r).state[c] == Free
  {
    var c := Echoer(s, r).value;
    var s0 := s.(hw := r.hw);
    var s1 := ReapedUpTo(s0, BOXES);
    AfterIsFreed(s, r);
    ReapKeeps(s0, BOXES, c);
    hide ReapedUpTo, Placed, DoneBox, After;
    PlaceKeeps(if s1.out.None? && r.incoming.Some? then s1.(out := r.incoming) else s1, c);
  }

  /** The boxes a series of passes echoes. */
  function Echoers(s: State, rs: seq<Round>): seq<Option<nat>>
    requires Shape(s) && forall i :: 0 <= i < |rs| ==> Fits(rs[i])
    decreases |rs|
  {
    if rs == [] then [] else [Echoer(s, rs[0])] + Echoers(After(s, rs[0]), rs[1..])
  }

  /** In one of the passes no box before b is finished when the pass looks. */
  predicate GetsItsTurn(s: State, rs: seq<Round>, b: nat)
    requires Shape(s) && b < BOXES && forall i :: 0 <= i < |rs| ==> Fits(rs[i])
    decreases |rs|
  {
    rs != [] &&
    ((forall c :: 0 <= c < b ==> Before(s, rs[0]).state[c] != Done) || GetsItsTurn(After(s, rs[0]), rs[1..], b))
  }

  /** A finished box is echoed exactly when it gets its turn. */
  lemma {:induction false} EchoedExactly(s: State, rs: seq<Round>, b: nat)
    requires Shape(s) && b < BOXES && s.state[b] == Done
    requires forall i :: 0 <= i < |rs| ==> Fits(rs[i])
    ensures Some(b) in Echoers(s, rs) <==> GetsItsTurn(s, rs, b)
    decreases |rs|
  {
    if rs != [] {
      hide Echoer, After, Before;
      PassEchoesFirst(s, rs[0], b);
      var more := Echoers(After(s, rs[0]), rs[1..]);
      assert ([Echoer(s, rs[0])] + more)[0] == Echoer(s, rs[0]);
      if Echoer(s, rs[0]) != Some(b) {
        EchoedExactly(After(s, rs[0]), rs[1..], b);
        assert Some(b) in [Echoer(s, rs[0])] + more <==> Some(b) in more;
      }
    }
  }

  /** None of the passes fills a box before b. */
  predicate AllLeaveAlone(s: State, rs: seq<Round>, b: nat)
    requires Shape(s) && b <= BOXES && forall i :: 0 <= i < |rs| ==> Fits(rs[i])
    decreases |rs|
  {
    rs == [] || (LeftAlone(s, After(s, rs[0]), b) && AllLeaveAlone(After(s, rs[0]), rs[1..], b))
  }

  /** As long as the boxes before it are not filled again, a finished box is echoed
      within as many passes as there are boxes up to it, whatever the controllers
      and the host do besides. */
  lemma {:induction false} EchoedWithin(s: State, rs: seq<Round>, b: nat)
    requires Shape(s) && b < BOXES && s.state[b] == Done
    requires forall i :: 0 <= i < |rs| ==> Fits(rs[i])
    requires AllLeaveAlone(s, rs, b) && |rs| > BusyBelow(s, b)
    ensures Some(b) in Echoers(s, rs)
    decreases |rs|
  {
    hide Echoer, After, BusyBelow, LeftAlone;
    PassProgress(s, rs[0], b);
    PassEchoesFirst(s, rs[0], b);
    if Echoer(s, rs[0]) != Some(b) {
      EchoedWithin(After(s, rs[0]), rs[1..], b);
    }
  }

  // Without that condition a finished frame can wait for ever

  const IDLE_BITS := Mailbox(true, true)

  /** The host keeps sending on the first channel and the bus is quick. */
  function Busy(f: Frame): Round {
    Round([IDLE_BITS, IDLE_BITS, IDLE_BITS, IDLE_BITS, IDLE_BITS, IDLE_BITS], Some(f))
  }

  /** One of the first two boxes of the first channel has just been sent, the first
      of the second is finished. */
  predicate Starving(s: State) {
    && Shape(s) && s.owner == [Gs, Gs] && s.out == None
    && (s.state == [Sent, Free, Free, Done, Free, Free] || s.state == [Free, Sent, Free, Done, Free, Free])
  }

  lemma ReapSame(s: State, n: nat)
    requires Shape(s) && n < BOXES && ReapedUpTo(s, n).state[n] != Sent
    ensures ReapedUpTo(s, n + 1) == ReapedUpTo(s, n)
  {
  }

  lemma ReapOne(s: State, n: nat)
    requires Shape(s) && n < BOXES
    requires var t := ReapedUpTo(s, n); t.owner[n / 3] == Gs && t.state[n] == Sent && t.hw[n].rqcp
    ensures var t := ReapedUpTo(s, n);
      ReapedUpTo(s, n + 1) == t.(state := t.state[n := Done], hw := t.hw[n := t.hw[n].(rqcp := false)])
  {
  }

  lemma ReapsSent(s: State, b: nat)
    requires Shape(s) && s.owner == [Gs, Gs] && b < 2
    requires s.hw == [IDLE_BITS, IDLE_BITS, IDLE_BITS, IDLE_BITS, IDLE_BITS, IDLE_BITS]
    requires s.state == [Free, Free, Free, Done, Free, Free][b := Sent]
    ensures ReapedUpTo(s, BOXES) == s.(state := s.state[b := Done], hw := s.hw[b := Mailbox(true, false)])
  {
    assert ReapedUpTo(s, 0) == s;
    hide ReapedUpTo;
    if b == 0 { ReapOne(s, 0); } else { ReapSame(s, 0); }
    if b == 1 { ReapOne(s, 1); } else { ReapSame(s, 1); }
    ReapSame(s, 2);
    ReapSame(s, 3);
    ReapSame(s, 4);
    ReapSame(s, 5);
  }

  lemma StarvingPass(s: State, f: Frame)
    requires Starving(s) && f.channel == 0
    ensures Fits(Busy(f)) && Starving(After(s, Busy(f))) && Echoer(s, Busy(f)) != Some(3)
  {
    var b := if s.state[0] == Sent then 0 else 1;
    var s0 := s.(hw := Busy(f).hw);
    ReapsSent(s0, b);
    hide ReapedUpTo;
    var s1 := ReapedUpTo(s0, BOXES).(out := Some(f));
    assert Target(s1) == Some(1 - b);
    var s2 := Placed(s1);
    assert s2 == Before(s, Busy(f));
    assert DoneBox(s2, 0) == Some(b);
    AfterIsFreed(s, Busy(f));
  }

  function BusyRounds(f: Frame, n: nat): (rs: seq<Round>)
    ensures |rs| == n && forall i :: 0 <= i < n ==> Fits(rs[i])
  {
    seq(n, i => Busy(f))
  }

  /** However many passes with room are made, the frame of the second channel is not
      echoed: the first two boxes take turns in going first. */
  lemma {:induction false} MayWaitForEver(s: State, f: Frame, n: nat)
    requires Starving(s) && f.channel == 0
    ensures Some(3) !in Echoers(s, BusyRounds(f, n))
    decreases n
  {
    if n > 0 {
      StarvingPass(s, f);
      assert BusyRounds(f, n)[1..] == BusyRounds(f, n - 1) && BusyRounds(f, n)[0] == Busy(f);
      hide Starving, After, Echoer, BusyRounds;
      MayWaitForEver(After(s, Busy(f)), f, n - 1);
    }
  }

  // And that state is reached

  /** Both channels start; a frame for the second is sent; one for the first is
      requested. */
  function ToStarving(f: Frame, g: Frame): seq<Action> {
    [Start(0, true)] + ([Start(1, true)] + ([Read(g)] + ([Place] +
    ([Finish(3)] + ([Reap(3)] + ([Read(f)] + ([Place] + [])))))))
  }

  /** Two steps at the front of a run. */
  lemma RunTwo(w: World, a: Action, b: Action, more: seq<Action>)
    requires WorldShape(w) && Enabled(w, a)
    requires WorldShape(Step(w, a)) && Enabled(Step(w, a), b)
    ensures Run(w, [a] + ([b] + more)) == Run(Step(Step(w, a), b), more)
  {
    hide Step, WorldShape, Enabled;
    assert ([a] + ([b] + more))[1..] == [b] + more;
    assert ([b] + more)[1..] == more;
  }

  /** What the run needs to know of a state: owners, boxes, the waiting frame, and
      that the free boxes' hardware is empty. */
  predicate Looks(w: World, owner: seq<Owner>, state: seq<TxState>, out: Option<Frame>) {
    && Shape(w.s) && |w.fate| == |w.frames| && |w.ids| == |w.req| == BOXES
    && w.s.owner == owner && w.s.state == state && w.s.out == out
    && (forall b :: 0 <= b < BOXES && state[b] == Free ==> w.s.hw[b].tme)
    && (out.Some? ==> w.outId < |w.fate|)
  }

  const NONE_USED := [Free, Free, Free, Free, Free, Free]

  lemma BothStarted(w: World, more: seq<Action>) returns (next: World)
    requires Looks(w, [Nobody, Nobody], NONE_USED, None)
    ensures Run(w, [Start(0, true)] + ([Start(1, true)] + more)) == Run(next, more)
    ensures Looks(next, [Gs, Gs], NONE_USED, None)
  {
    hide Run;
    var w1 := Step(w, Start(0, true));
    assert w1.s.state == NONE_USED && w1.s.owner == [Gs, Nobody];
    next := Step(w1, Start(1, true));
    assert next.s.state == NONE_USED && next.s.owner == [Gs, Gs];
    RunTwo(w, Start(0, true), Start(1, true), more);
  }

  /** A frame is read and goes to box b, the first of its channel. */
  lemma Sends(w: World, f: Frame, state: seq<TxState>, b: nat, more: seq<Action>) returns (next: World)
    requires Looks(w, [Gs, Gs], state, None) && f.channel < CHANNELS && b == 3 * f.channel && state[b] == Free
    ensures Run(w, [Read(f)] + ([Place] + more)) == Run(next, more)
    ensures Looks(next, [Gs, Gs], state[b := Sent], None) && !next.s.hw[b].tme
  {
    hide Run;
    var w1 := Step(w, Read(f));
    assert Target(w1.s) == Some(b);
    next := Step(w1, Place);
    RunTwo(w, Read(f), Place, more);
  }

  lemma Finishes(w: World, state: seq<TxState>, b: nat, more: seq<Action>) returns (next: World)
    requires Looks(w, [Gs, Gs], state, None) && b < BOXES && state[b] == Sent && !w.s.hw[b].tme
    ensures Run(w, [Finish(b)] + ([Reap(b)] + more)) == Run(next, more)
    ensures Looks(next, [Gs, Gs], state[b := Done], None)
  {
    hide Run;
    var w1 := Step(w, Finish(b));
    assert w1.s.owner[b / 3] == Gs;
    next := Step(w1, Reap(b));
    RunTwo(w, Finish(b), Reap(b), more);
  }

  lemma BootLooks(w: World)
    requires Initial(w) && w.s == BOOT
    ensures Looks(w, [Nobody, Nobody], NONE_USED, None)
  {
    assert w.s.owner == [Nobody, Nobody] && w.s.state == NONE_USED;
  }

  lemma LooksStarving(w: World, state: seq<TxState>)
    requires Looks(w, [Gs, Gs], state, None) && state == [Sent, Free, Free, Done, Free, Free]
    ensures Run(w, []) == Some(w) && Starving(w.s)
  {
    RunNone(w);
  }

  /** The starving state is reached from reset. */
  lemma StarvingIsReached(w: World, f: Frame, g: Frame)
    requires Initial(w) && w.s == BOOT && f.channel == 0 && g.channel == 1
    ensures Run(w, ToStarving(f, g)).Some? && Starving(Run(w, ToStarving(f, g)).value.s)
  {
    hide Run, Initial, Looks, Starving;
    BootLooks(w);
    var toPlace: seq<Action> := [Read(f)] + ([Place] + []);
    var toFinish := [Finish(3)] + ([Reap(3)] + toPlace);
    var toRead := [Read(g)] + ([Place] + toFinish);
    var w1 := BothStarted(w, toRead);
    var w2 := Sends(w1, g, NONE_USED, 3, toFinish);
    var w3 := Finishes(w2, NONE_USED[3 := Sent], 3, toPlace);
    var w4 := Sends(w3, f, NONE_USED[3 := Sent][3 := Done], 0, []);
    LooksStarving(w4, NONE_USED[3 := Sent][3 := Done][0 := Sent]);
  }
}
