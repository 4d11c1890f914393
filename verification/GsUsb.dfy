/** The gs_usb transmit path (examples/stm32f4disco-socketcan/main.c): host
    frames go into the mailboxes of two CAN controllers, and each must come
    back to the host once the controller has sent it. */
module GsUsb {
  import opened Common

  const CHANNELS: nat := 2
  const MAILBOXES: nat := 3
  const BOXES: nat := 6      // box 3 * channel + mailbox

  /** The channel byte is the host's and need not name a controller. */
  datatype Frame = Frame(echoId: nat, canId: nat, channel: nat, data: seq<nat>)

  datatype Owner = Nobody | Scpi | Gs

  datatype TxState = Free | Sent | Done

  /** Two status bits of a hardware mailbox: it is empty; its last request is
      finished. */
  datatype Mailbox = Mailbox(tme: bool, rqcp: bool)

  datatype State = State(owner: seq<Owner>, state: seq<TxState>, tx: seq<Frame>, hw: seq<Mailbox>, out: Option<Frame>)

  predicate Shape(s: State) {
    |s.owner| == CHANNELS && |s.state| == |s.tx| == |s.hw| == BOXES
  }

  // The pieces of gs_poll and the mode requests, as functions of the state

  function Reaped(s: State, b: nat): (t: State)
    requires Shape(s) && b < BOXES
    ensures Shape(t)
  {
    if s.owner[b / 3] == Gs && s.state[b] == Sent && s.hw[b].rqcp then
      s.(state := s.state[b := Done], hw := s.hw[b := s.hw[b].(rqcp := false)])
    else s
  }

  function ReapedUpTo(s: State, n: nat): (t: State)
    requires Shape(s) && n <= BOXES
    ensures Shape(t) && t.out == s.out && t.owner == s.owner
  {
    if n == 0 then s else Reaped(ReapedUpTo(s, n - 1), n - 1)
  }

  predicate Usable(s: State, ch: nat)
    requires Shape(s)
  {
    ch < CHANNELS && s.owner[ch] == Gs
  }

  /** The first box of the channel from mailbox mb on that may take a frame: its
      echo delivered and the hardware empty. */
  function FreeBox(s: State, ch: nat, mb: nat): (r: Option<nat>)
    requires Shape(s) && ch < CHANNELS && mb <= MAILBOXES
    ensures r.Some? ==> r.value / 3 == ch && r.value < BOXES && s.state[r.value] == Free && s.hw[r.value].tme
    decreases MAILBOXES - mb
  {
    if mb == MAILBOXES then None
    else if s.state[3 * ch + mb] == Free && s.hw[3 * ch + mb].tme then Some(3 * ch + mb)
    else FreeBox(s, ch, mb + 1)
  }

  /** Requesting transmission clears RQCP and TME; the slot keeps a copy. */
  function Transmitted(s: State, b: nat, f: Frame): (t: State)
    requires Shape(s) && b < BOXES
    ensures Shape(t)
  {
    s.(state := s.state[b := Sent], tx := s.tx[b := f], hw := s.hw[b := Mailbox(false, false)])
  }

  /** Where the waiting frame goes. */
  function Target(s: State): (r: Option<nat>)
    requires Shape(s) && s.out.Some? && Usable(s, s.out.value.channel)
    ensures r.Some? ==>
      r.value / 3 == s.out.value.channel && r.value < BOXES && s.state[r.value] == Free && s.hw[r.value].tme
  {
    FreeBox(s, s.out.value.channel, 0)
  }

  function Placed(s: State): (t: State)
    requires Shape(s)
    ensures Shape(t)
  {
    if s.out.None? then s
    else if !Usable(s, s.out.value.channel) then s.(out := None)
    else
      match Target(s)
      case None => s
      case Some(b) => Transmitted(s, b, s.out.value).(out := None)
  }

  /** The first box, channel by channel, whose echo is due. */
  function DoneBox(s: State, b: nat): (r: Option<nat>)
    requires Shape(s) && b <= BOXES
    ensures r.Some? ==> b <= r.value < BOXES && s.state[r.value] == Done
    decreases BOXES - b
  {
    if b == BOXES then None
    else if s.state[b] == Done then Some(b)
    else DoneBox(s, b + 1)
  }

  function Freed(s: State, b: nat): (t: State)
    requires Shape(s) && b < BOXES
    ensures Shape(t)
  {
    s.(state := s.state[b := Free])
  }

  function Stopped(s: State, ch: nat): (t: State)
    requires Shape(s) && ch < CHANNELS
    ensures Shape(t)
  {
    s.(owner := s.owner[ch := Nobody],
       state := seq(BOXES, b requires 0 <= b < BOXES => if b / 3 == ch then Free else s.state[b]),
       out := if s.out.Some? && s.out.value.channel == ch then None else s.out)
  }

  function Started(s: State, ch: nat, ok: bool): (t: State)
    requires Shape(s) && ch < CHANNELS
    ensures Shape(t)
  {
    var t := Stopped(s, ch);
    if ok then t.(owner := t.owner[ch := Gs]) else t
  }

  /** After reset: static memory is zero and every mailbox is empty. */
  const BOOT := State([Nobody, Nobody], seq(BOXES, b => Free), seq(BOXES, b => Frame(0, 0, 0, [])),
                      seq(BOXES, b => Mailbox(true, false)), None)

  /** One pass of the main loop: the state after it and the frame returned to the
      host. `incoming` is the next host frame if the pipe has one, `room` says the
      pipe to the host is empty. */
  function Polled(s: State, incoming: Option<Frame>, room: bool): (r: (State, Option<Frame>))
    requires Shape(s)
    ensures Shape(r.0)
  {
    var s1 := ReapedUpTo(s, BOXES);
    var s2 := Placed(if s1.out.None? && incoming.Some? then s1.(out := incoming) else s1);
    match if room then DoneBox(s2, 0) else None
    case None => (s2, None)
    case Some(b) => (Freed(s2, b), Some(s2.tx[b]))
  }

  class Adapter {
    const state: array<TxState>
    const tx: array<Frame>
    const owner: array<Owner>
    const hw: array<Mailbox>       // the controllers' status registers
    var out: Option<Frame>

    constructor ()
      ensures Valid() && Now() == BOOT
      ensures fresh(state) && fresh(tx) && fresh(owner) && fresh(hw)
    {
      state := new TxState[BOXES](b => Free);
      tx := new Frame[BOXES](b => Frame(0, 0, 0, []));
      owner := new Owner[CHANNELS](c => Nobody);
      hw := new Mailbox[BOXES](b => Mailbox(true, false));
      out := None;
    }

    ghost predicate Valid() {
      state.Length == tx.Length == hw.Length == BOXES && owner.Length == CHANNELS
    }

    ghost function Now(): (s: State)
      requires Valid()
      reads this, state, tx, owner, hw
      ensures Shape(s)
    {
      State(owner[..], state[..], tx[..], hw[..], out)
    }

    method Stop(ch: nat)
      requires Valid() && ch < CHANNELS
      modifies this`out, owner, state
      ensures Now() == Stopped(old(Now()), ch)
    {
      owner[ch] := Nobody;
      forall mb | 0 <= mb < MAILBOXES {
        state[3 * ch + mb] := Free;
      }
      if out.Some? && out.value.channel == ch { out := None; }
      assert state[..] == Stopped(old(Now()), ch).state;
    }

    method Start(ch: nat, initOk: bool) returns (ok: bool)
      requires Valid() && ch < CHANNELS
      modifies this`out, owner, state
      ensures ok == initOk && Now() == Started(old(Now()), ch, initOk)
    {
      Stop(ch);
      if !initOk { return false; }
      owner[ch] := Gs;
      ok := true;
    }

    method Transmit(b: nat, f: Frame)
      requires Valid() && b < BOXES
      modifies tx, state, hw
      ensures Now() == Transmitted(old(Now()), b, f)
    {
      hw[b] := Mailbox(false, false);
      tx[b] := f;
      state[b] := Sent;
    }

    method ReapBox(b: nat)
      requires Valid() && b < BOXES && owner[b / 3] == Gs
      modifies state, hw
      ensures Now() == Reaped(old(Now()), b)
    {
      if state[b] == Sent && hw[b].rqcp {
        hw[b] := hw[b].(rqcp := false);
        state[b] := Done;
      }
    }

    method Reap()
      requires Valid()
      modifies state, hw
      ensures Now() == ReapedUpTo(old(Now()), BOXES)
    {
      hide Reaped;
      for ch := 0 to CHANNELS
        invariant Now() == ReapedUpTo(old(Now()), 3 * ch)
      {
        hide ReapedUpTo;
        if owner[ch] == Gs {
          for mb := 0 to MAILBOXES
            invariant Now() == ReapedUpTo(old(Now()), 3 * ch + mb)
          {
            ReapsNext(old(Now()), 3 * ch + mb);
            ReapBox(3 * ch + mb);
          }
        } else {
          NothingToReap(old(Now()), ch);
        }
      }
    }

    /** Moves the waiting frame on, if a mailbox or a stopped channel lets it. */
    method Place()
      requires Valid()
      modifies this`out, tx, state, hw
      ensures Now() == Placed(old(Now()))
    {
      if out.None? { return; }
      var f := out.value;
      if f.channel >= CHANNELS || owner[f.channel] != Gs {
        out := None;
      } else {
        for mb := 0 to MAILBOXES
          invariant Now() == old(Now())
          invariant FreeBox(Now(), f.channel, mb) == FreeBox(Now(), f.channel, 0)
        {
          var b := 3 * f.channel + mb;
          if state[b] == Free && hw[b].tme {
            Transmit(b, f);
            out := None;
            break;
          }
        }
      }
    }

    method Echo() returns (echo: Option<Frame>)
      requires Valid()
      modifies state
      ensures match DoneBox(old(Now()), 0)
              case None => echo == None && Now() == old(Now())
              case Some(b) => echo == Some(old(tx[b])) && Now() == Freed(old(Now()), b)
    {
      for b := 0 to BOXES
        invariant Now() == old(Now()) && DoneBox(Now(), b) == DoneBox(Now(), 0)
      {
        if state[b] == Done {
          echo := Some(tx[b]);
          state[b] := Free;
          return;
        }
      }
      echo := None;
    }

    /** One pass of the main loop, and whether it took a frame from the host. */
    method Poll(incoming: Option<Frame>, room: bool) returns (taken: bool, echo: Option<Frame>)
      requires Valid()
      modifies this`out, tx, state, hw
      ensures taken <==> old(out).None? && incoming.Some?
      ensures (Now(), echo) == Polled(old(Now()), incoming, room)
    {
      hide Placed, ReapedUpTo, DoneBox;
      Reap();
      taken := out.None? && incoming.Some?;
      if taken { out := incoming; }
      Place();
      if !room { return taken, None; }
      echo := Echo();
    }
  }

  // What the pieces do, box by box

  lemma ReapedOnly(s: State, n: nat, b: nat)
    requires Shape(s) && n < BOXES && b < BOXES
    ensures var t := Reaped(s, n);
      && t == s.(state := t.state, hw := t.hw)
      && if b == n && s.owner[b / 3] == Gs && s.state[b] == Sent && s.hw[b].rqcp then
           t.state[b] == Done && t.hw[b] == Mailbox(s.hw[b].tme, false)
         else t.state[b] == s.state[b] && t.hw[b] == s.hw[b]
  {
  }

  /** Reaping marks exactly the sent boxes of owned channels whose request finished. */
  lemma {:induction false} ReapExact(s: State, n: nat, b: nat)
    requires Shape(s) && n <= BOXES && b < BOXES
    ensures var t := ReapedUpTo(s, n);
      && t == s.(state := t.state, hw := t.hw)
      && if b < n && s.owner[b / 3] == Gs && s.state[b] == Sent && s.hw[b].rqcp then
           t.state[b] == Done && t.hw[b] == Mailbox(s.hw[b].tme, false)
         else t.state[b] == s.state[b] && t.hw[b] == s.hw[b]
  {
    hide Reaped;
    if n > 0 {
      ReapExact(s, n - 1, b);
      ReapedOnly(ReapedUpTo(s, n - 1), n - 1, b);
    }
  }

  predicate CanTake(s: State, b: nat)
    requires Shape(s) && b < BOXES
  {
    s.state[b] == Free && s.hw[b].tme
  }

  lemma {:induction false} FreeBoxExact(s: State, ch: nat, mb: nat)
    requires Shape(s) && ch < CHANNELS && mb <= MAILBOXES
    ensures match FreeBox(s, ch, mb)
      case None => forall b :: 3 * ch + mb <= b < 3 * ch + MAILBOXES ==> !CanTake(s, b)
      case Some(b) =>
        3 * ch + mb <= b < 3 * ch + MAILBOXES && CanTake(s, b) && forall c :: 3 * ch + mb <= c < b ==> !CanTake(s, c)
    decreases MAILBOXES - mb
  {
    if mb < MAILBOXES && !CanTake(s, 3 * ch + mb) { FreeBoxExact(s, ch, mb + 1); }
  }

  /** A frame for a channel that is up goes on waiting exactly when none of the
      channel's three boxes is both free and empty; otherwise it is requested in the
      lowest that is, and nothing else changes. For any other channel it is dropped. */
  lemma PlaceExact(s: State)
    requires Shape(s) && s.out.Some?
    ensures var f, t := s.out.value, Placed(s);
      if f.channel >= CHANNELS || s.owner[f.channel] != Gs then t == s.(out := None)
      else
        var first := 3 * f.channel;
        if forall b :: first <= b < first + 3 ==> !CanTake(s, b) then t == s
        else
          exists b :: first <= b < first + 3 && CanTake(s, b) && (forall c :: first <= c < b ==> !CanTake(s, c))
                      && t.out == None && t.owner == s.owner && Requested(s, t, b, f)
  {
    var f := s.out.value;
    if Usable(s, f.channel) {
      FreeBoxExact(s, f.channel, 0);
      hide FreeBox;
      match Target(s) {
        case None =>
        case Some(b) => assert Requested(s, Placed(s), b, f);
      }
    }
  }

  /** Box b has a request for the frame, every other box is as it was. */
  predicate Requested(s: State, t: State, b: nat, f: Frame)
    requires Shape(s) && Shape(t) && b < BOXES
  {
    && t.state[b] == Sent && t.tx[b] == f && t.hw[b] == Mailbox(false, false)
    && forall c :: 0 <= c < BOXES && c != b ==> t.state[c] == s.state[c] && t.tx[c] == s.tx[c] && t.hw[c] == s.hw[c]
  }

  /** A pass with room hands back the first finished box, and frees no other; with no
      box finished, or no room, none. */
  lemma {:induction false} DoneExact(s: State, from: nat)
    requires Shape(s) && from <= BOXES
    ensures match DoneBox(s, from)
      case None => forall b :: from <= b < BOXES ==> s.state[b] != Done
      case Some(b) => s.state[b] == Done && forall c :: from <= c < b ==> s.state[c] != Done
    decreases BOXES - from
  {
    if from < BOXES && s.state[from] != Done { DoneExact(s, from + 1); }
  }

  /** A stop frees the boxes of its channel, takes its waiting frame, and leaves the
      other channel alone; a start is a stop, and then ownership if the controller
      answered. */
  lemma StopExact(s: State, ch: nat, ok: bool)
    requires Shape(s) && ch < CHANNELS
    ensures var t, u := Stopped(s, ch), Started(s, ch, ok);
      && t.tx == s.tx && t.hw == s.hw && t.owner[ch] == Nobody && t.owner[1 - ch] == s.owner[1 - ch]
      && (forall b :: 0 <= b < BOXES ==> t.state[b] == if 3 * ch <= b < 3 * ch + 3 then Free else s.state[b])
      && t.out == (if s.out.Some? && s.out.value.channel == ch then None else s.out)
      && u == t.(owner := u.owner) && u.owner[1 - ch] == t.owner[1 - ch] && u.owner[ch] == if ok then Gs else Nobody
  {
    assert forall b :: 0 <= b < BOXES ==> (b / 3 == ch <==> 3 * ch <= b < 3 * ch + 3);
  }

  lemma ReapsNext(s: State, b: nat)
    requires Shape(s) && b < BOXES
    ensures ReapedUpTo(s, b + 1) == Reaped(ReapedUpTo(s, b), b)
  {
  }

  lemma ReapSkips(s: State, b: nat)
    requires Shape(s) && b < BOXES && s.owner[b / 3] != Gs
    ensures ReapedUpTo(s, b + 1) == ReapedUpTo(s, b)
  {
  }

  lemma NothingToReap(s: State, ch: nat)
    requires Shape(s) && ch < CHANNELS && s.owner[ch] != Gs
    ensures ReapedUpTo(s, 3 * ch + 3) == ReapedUpTo(s, 3 * ch)
  {
    hide ReapedUpTo;
    ReapSkips(s, 3 * ch);
    ReapSkips(s, 3 * ch + 1);
    ReapSkips(s, 3 * ch + 2);
  }

  // Every interleaving of the host, the controllers and the firmware

  datatype Fate = Waiting | InBox(b: nat) | Echoed | Dropped | Discarded

  /** The state together with its history; the frames read are numbered. */
  datatype World = World(
    s: State,
    frames: seq<Frame>,        // every frame read from the host
    fate: seq<Fate>,
    ids: seq<nat>,             // the number of the frame in each box
    outId: nat,
    req: seq<Option<nat>>,     // the frame the hardware of each box works on
    finished: set<nat>,        // frames whose own request has finished
    echoes: seq<nat>,          // frames returned to the host, in order
    dropped: nat,              // frames for a channel that was not up
    discarded: nat)            // frames given up by a stop

  datatype Action =
    | Reap(b: nat)
    | Read(f: Frame)
    | Place
    | Echo
    | Stop(ch: nat)
    | Start(ch: nat, ok: bool)
    | ModeReset(ch: nat)
    | ScpiOpen(ch: nat, ok: bool)
    | ScpiSend(b: nat)
    | Finish(b: nat)           // the controller sent or aborted what was requested

  ghost predicate WorldShape(w: World) {
    Shape(w.s) && |w.fate| == |w.frames| && |w.ids| == |w.req| == BOXES
  }

  /** Stopping a channel gives up its frames in boxes and in waiting. */
  function Given(fate: Fate, ch: nat, waits: bool): Fate {
    if (fate.InBox? && fate.b / 3 == ch) || (fate.Waiting? && waits) then Discarded else fate
  }

  function GivenAll(fate: seq<Fate>, ch: nat, waits: bool): (r: seq<Fate>)
    ensures |r| == |fate|
  {
    seq(|fate|, i requires 0 <= i < |fate| => Given(fate[i], ch, waits))
  }

  function Discards(w: World, ch: nat): (fate: seq<Fate>)
    ensures |fate| == |w.fate|
  {
    GivenAll(w.fate, ch, WaitingOn(w.s, ch) == 1)
  }

  ghost function GiveUp(w: World, ch: nat, s: State): World
    requires WorldShape(w)
  {
    w.(s := s, fate := Discards(w, ch), discarded := w.discarded + BusyOn(w.s, ch) + WaitingOn(w.s, ch))
  }

  function Used(s: State, b: nat): nat
    requires Shape(s) && b < BOXES
  {
    if s.state[b] == Free then 0 else 1
  }

  /** Boxes of a channel holding a frame. */
  function BusyOn(s: State, ch: nat): nat
    requires Shape(s)
  {
    if ch < CHANNELS then Used(s, 3 * ch) + Used(s, 3 * ch + 1) + Used(s, 3 * ch + 2) else 0
  }

  function Busy(s: State): nat
    requires Shape(s)
  {
    BusyOn(s, 0) + BusyOn(s, 1)
  }

  function WaitingOn(s: State, ch: nat): nat {
    if s.out.Some? && s.out.value.channel == ch then 1 else 0
  }

  ghost predicate Enabled(w: World, a: Action)
    requires WorldShape(w)
  {
    match a
    case Reap(b) => b < BOXES
    case Read(_) => w.s.out.None?
    case Place => w.s.out.Some? && w.outId < |w.fate|
    case Echo => DoneBox(w.s, 0).Some? && w.ids[DoneBox(w.s, 0).value] < |w.fate|
    case Stop(ch) => ch < CHANNELS
    case Start(ch, _) => ch < CHANNELS
    case ModeReset(ch) => ch < CHANNELS && w.s.owner[ch] == Gs
    case ScpiOpen(ch, _) => ch < CHANNELS && w.s.owner[ch] != Gs
    case ScpiSend(b) => b < BOXES && w.s.owner[b / 3] == Scpi && w.s.hw[b].tme
    case Finish(b) => b < BOXES && !w.s.hw[b].tme
  }

  ghost function Step(w: World, a: Action): World
    requires WorldShape(w) && Enabled(w, a)
  {
    match a
    case Reap(b) => w.(s := Reaped(w.s, b))
    case Read(f) =>
      w.(s := w.s.(out := Some(f)), frames := w.frames + [f], fate := w.fate + [Waiting], outId := |w.frames|)
    case Place =>
      if !Usable(w.s, w.s.out.value.channel) then
        w.(s := Placed(w.s), fate := w.fate[w.outId := Dropped], dropped := w.dropped + 1)
      else if Target(w.s).None? then w
      else
        var b := Target(w.s).value;
        w.(s := Placed(w.s), fate := w.fate[w.outId := InBox(b)],
           ids := w.ids[b := w.outId], req := w.req[b := Some(w.outId)])
    case Echo =>
      var b := DoneBox(w.s, 0).value;
      w.(s := Freed(w.s, b), fate := w.fate[w.ids[b] := Echoed], echoes := w.echoes + [w.ids[b]])
    case Stop(ch) => GiveUp(w, ch, Stopped(w.s, ch))
    case Start(ch, ok) => GiveUp(w, ch, Started(w.s, ch, ok))
    case ModeReset(ch) => GiveUp(w, ch, Stopped(w.s, ch))
    case ScpiOpen(ch, ok) => w.(s := w.s.(owner := w.s.owner[ch := if ok then Scpi else Nobody]))
    case ScpiSend(b) => w.(s := w.s.(hw := w.s.hw[b := Mailbox(false, false)]), req := w.req[b := None])
    case Finish(b) =>
      w.(s := w.s.(hw := w.s.hw[b := Mailbox(true, true)]),
         finished := if w.req[b].Some? then w.finished + {w.req[b].value} else w.finished)
  }

  ghost function Run(w: World, acts: seq<Action>): Option<World>
    decreases |acts|
  {
    if acts == [] then Some(w)
    else if !WorldShape(w) || !Enabled(w, acts[0]) then None
    else Run(Step(w, acts[0]), acts[1..])
  }

  ghost predicate Initial(w: World) {
    && WorldShape(w) && w.s.out == None
    && w.frames == [] && w.finished == {} && w.echoes == [] && w.dropped == w.discarded == 0
    && (forall b :: 0 <= b < BOXES ==> w.s.state[b] == Free)
  }

  /** The other user of the buses: it takes a channel the host does not have, or loses
      it if the controller does not answer, and sends through an empty box of its own;
      and what a controller does to a box whose request it finishes. */
  lemma OthersExact(w: World, ch: nat, ok: bool, b: nat)
    requires WorldShape(w) && ch < CHANNELS && b < BOXES
    ensures Enabled(w, ScpiOpen(ch, ok)) <==> w.s.owner[ch] != Gs
    ensures Enabled(w, ScpiOpen(ch, ok)) ==>
      var t := Step(w, ScpiOpen(ch, ok));
      t == w.(s := w.s.(owner := t.s.owner)) && |t.s.owner| == 2
      && t.s.owner[ch] == (if ok then Scpi else Nobody) && t.s.owner[1 - ch] == w.s.owner[1 - ch]
    ensures Enabled(w, ScpiSend(b)) <==> w.s.owner[b / 3] == Scpi && w.s.hw[b].tme
    ensures Enabled(w, ScpiSend(b)) ==>
      var t := Step(w, ScpiSend(b));
      t.fate == w.fate && t.finished == w.finished && !t.s.hw[b].tme && !t.s.hw[b].rqcp && t.req[b] == None
    ensures Enabled(w, Finish(b)) <==> !w.s.hw[b].tme
    ensures Enabled(w, Finish(b)) ==>
      var t := Step(w, Finish(b));
      t.fate == w.fate && t.s.state == w.s.state && t.s.hw[b].tme && t.s.hw[b].rqcp
      && t.finished == w.finished + (if w.req[b].Some? then {w.req[b].value} else {})
  {
  }

  /** A box in use holds the frame its fate says is there, on a channel the host
      owns; the hardware works on that frame until it has finished it. */
  ghost predicate BoxOk(w: World, b: nat)
    requires WorldShape(w) && b < BOXES
  {
    w.s.state[b] != Free ==>
      && var i := w.ids[b];
      && i < |w.frames| && w.fate[i] == InBox(b) && w.s.tx[b] == w.frames[i] && w.frames[i].channel == b / 3
      && w.s.owner[b / 3] == Gs
      && (w.s.state[b] == Sent ==> w.req[b] == Some(i) && (w.s.hw[b].rqcp ==> i in w.finished))
      && (w.s.state[b] == Done ==> i in w.finished)
  }

  ghost predicate FrameOk(w: World, i: nat)
    requires WorldShape(w) && i < |w.frames|
  {
    match w.fate[i]
    case Waiting => w.s.out == Some(w.frames[i]) && w.outId == i
    case InBox(b) => b < BOXES && w.s.state[b] != Free && w.ids[b] == i
    case Echoed => i in w.echoes && i in w.finished
    case Dropped => true
    case Discarded => true
  }

  ghost predicate EchoesOk(w: World)
    requires WorldShape(w)
  {
    && (forall k :: 0 <= k < |w.echoes| ==> w.echoes[k] < |w.frames| && w.fate[w.echoes[k]] == Echoed)
    && (forall k, l :: 0 <= k < l < |w.echoes| ==> w.echoes[k] != w.echoes[l])
  }

  ghost predicate Inv(w: World) {
    && WorldShape(w)
    && (forall b :: 0 <= b < BOXES ==> BoxOk(w, b))
    && (forall i :: 0 <= i < |w.frames| ==> FrameOk(w, i))
    && (w.s.out.Some? ==> w.outId < |w.frames| && w.fate[w.outId] == Waiting && w.s.out.value == w.frames[w.outId])
    && EchoesOk(w)
  }

  lemma ReadKeepsInv(w: World, f: Frame)
    requires Inv(w) && Enabled(w, Read(f))
    ensures Inv(Step(w, Read(f)))
  {
    var t := Step(w, Read(f));
    forall i | 0 <= i < |t.frames| ensures FrameOk(t, i) {
      if i < |w.frames| { assert FrameOk(w, i); }
    }
    forall b | 0 <= b < BOXES ensures BoxOk(t, b) { assert BoxOk(w, b); }
  }

  lemma ReapKeepsInv(w: World, b: nat)
    requires Inv(w) && Enabled(w, Reap(b))
    ensures Inv(Step(w, Reap(b)))
  {
    var t := Step(w, Reap(b));
    forall c | 0 <= c < BOXES ensures BoxOk(t, c) { assert BoxOk(w, c); }
    forall i | 0 <= i < |t.frames| ensures FrameOk(t, i) { assert FrameOk(w, i); }
  }

  lemma PlaceKeepsInv(w: World)
    requires Inv(w) && Enabled(w, Place)
    ensures Inv(Step(w, Place))
  {
    hide FreeBox;
    var t := Step(w, Place);
    forall c | 0 <= c < BOXES ensures BoxOk(t, c) { assert BoxOk(w, c); }
    forall i | 0 <= i < |t.frames| ensures FrameOk(t, i) { assert FrameOk(w, i); }
  }

  lemma EchoKeepsInv(w: World)
    requires Inv(w) && Enabled(w, Echo)
    ensures Inv(Step(w, Echo))
  {
    hide DoneBox;
    var t, b := Step(w, Echo), DoneBox(w.s, 0).value;
    assert BoxOk(w, b);
    forall c | 0 <= c < BOXES ensures BoxOk(t, c) { assert BoxOk(w, c); }
    forall i | 0 <= i < |t.frames| ensures FrameOk(t, i) { assert FrameOk(w, i); }
  }

  lemma StopKeepsInv(w: World, ch: nat, owner: seq<Owner>)
    requires Inv(w) && ch < CHANNELS && |owner| == CHANNELS
    requires forall c :: 0 <= c < CHANNELS && c != ch ==> owner[c] == w.s.owner[c]
    ensures Inv(GiveUp(w, ch, Stopped(w.s, ch).(owner := owner)))
  {
    hide BusyOn;
    var t := GiveUp(w, ch, Stopped(w.s, ch).(owner := owner));
    forall c | 0 <= c < BOXES ensures BoxOk(t, c) { assert BoxOk(w, c); }
    forall i | 0 <= i < |t.frames| ensures FrameOk(t, i) { assert FrameOk(w, i); }
    forall k | 0 <= k < |t.echoes| ensures t.fate[t.echoes[k]] == Echoed {
      assert w.fate[w.echoes[k]] == Echoed;
    }
  }

  lemma HardwareKeepsInv(w: World, a: Action)
    requires Inv(w) && Enabled(w, a) && (a.ScpiOpen? || a.ScpiSend? || a.Finish?)
    ensures Inv(Step(w, a))
  {
    var t := Step(w, a);
    forall c | 0 <= c < BOXES ensures BoxOk(t, c) { assert BoxOk(w, c); }
    forall i | 0 <= i < |t.frames| ensures FrameOk(t, i) { assert FrameOk(w, i); }
  }

  lemma StepKeepsInv(w: World, a: Action)
    requires Inv(w) && Enabled(w, a)
    ensures Inv(Step(w, a))
  {
    assert WorldShape(w);
    hide Inv, BoxOk, FrameOk, EchoesOk;
    match a
    case Reap(b) => ReapKeepsInv(w, b);
    case Read(f) => ReadKeepsInv(w, f);
    case Place => PlaceKeepsInv(w);
    case Echo => EchoKeepsInv(w);
    case Stop(ch) => StopKeepsInv(w, ch, Stopped(w.s, ch).owner);
    case Start(ch, ok) => StopKeepsInv(w, ch, Started(w.s, ch, ok).owner);
    case ModeReset(ch) => StopKeepsInv(w, ch, Stopped(w.s, ch).owner);
    case _ => HardwareKeepsInv(w, a);
  }

  lemma {:induction false} RunKeepsInv(w: World, acts: seq<Action>)
    requires Inv(w) && Run(w, acts).Some?
    ensures Inv(Run(w, acts).value)
    decreases |acts|
  {
    hide Inv, Step;
    if acts != [] {
      StepKeepsInv(w, acts[0]);
      RunKeepsInv(Step(w, acts[0]), acts[1..]);
    }
  }

  lemma InitialInv(w: World)
    requires Initial(w)
    ensures Inv(w)
  {
  }

  /** Echo exactly once, over all interleavings: no frame is returned twice, a
      frame is returned exactly when its fate says so, and only after its own
      request has finished in the hardware; every frame is in exactly one place,
      and the two places the firmware holds frames in are those fates. */
  lemma EchoExactlyOnce(w0: World, acts: seq<Action>)
    requires Initial(w0) && Run(w0, acts).Some?
    ensures var w := Run(w0, acts).value;
      && WorldShape(w)
      && (forall k, l :: 0 <= k < l < |w.echoes| ==> w.echoes[k] != w.echoes[l])
      && (forall k :: 0 <= k < |w.echoes| ==> w.echoes[k] < |w.frames| && w.echoes[k] in w.finished)
      && (forall i :: 0 <= i < |w.frames| ==> (w.fate[i] == Echoed <==> i in w.echoes))
      && (forall i :: 0 <= i < |w.frames| ==>
            (w.fate[i] == Waiting <==> w.s.out.Some? && w.outId == i))
      && (forall i, b :: 0 <= i < |w.frames| && 0 <= b < BOXES ==>
            (w.fate[i] == InBox(b) <==> w.s.state[b] != Free && w.ids[b] == i))
  {
    InitialInv(w0);
    RunKeepsInv(w0, acts);
    var w := Run(w0, acts).value;
    forall k | 0 <= k < |w.echoes| ensures w.echoes[k] < |w.frames| && w.echoes[k] in w.finished {
      assert FrameOk(w, w.echoes[k]);
    }
    forall i | 0 <= i < |w.frames| ensures w.fate[i] == Echoed <==> i in w.echoes { assert FrameOk(w, i); }
    forall i | 0 <= i < |w.frames| ensures w.fate[i] == Waiting <==> w.s.out.Some? && w.outId == i {
      assert FrameOk(w, i);
    }
    forall i, b | 0 <= i < |w.frames| && 0 <= b < BOXES
      ensures w.fate[i] == InBox(b) <==> w.s.state[b] != Free && w.ids[b] == i
    {
      assert FrameOk(w, i) && BoxOk(w, b);
    }
  }

  ghost predicate Reachable(w: World) {
    exists w0, acts :: Initial(w0) && Run(w0, acts) == Some(w)
  }

  lemma ReachableInv(w: World)
    requires Reachable(w)
    ensures Inv(w)
  {
    hide Inv, Initial, Run;
    var w0, acts :| Initial(w0) && Run(w0, acts) == Some(w);
    InitialInv(w0);
    RunKeepsInv(w0, acts);
  }

  /** Which frame an echo returns: the one its box was given. */
  lemma EchoReturnsTheFrame(w: World)
    requires Reachable(w) && WorldShape(w) && Enabled(w, Echo)
    ensures var b := DoneBox(w.s, 0).value;
      && w.ids[b] < |w.frames|
      && w.s.tx[b] == w.frames[w.ids[b]] && w.ids[b] in w.finished && w.ids[b] !in w.echoes
  {
    ReachableInv(w);
    hide DoneBox, Reachable;
    assert BoxOk(w, DoneBox(w.s, 0).value);
  }

  /** A mailbox whose echo the host has not received is never requested again. */
  lemma UndeliveredEchoKeepsBox(w: World, a: Action, b: nat)
    requires Reachable(w) && WorldShape(w) && Enabled(w, a) && b < BOXES && w.s.state[b] != Free
    ensures WorldShape(Step(w, a))
    ensures Step(w, a).req[b] == w.req[b] && Step(w, a).s.tx[b] == w.s.tx[b] && Step(w, a).ids[b] == w.ids[b]
  {
    ReachableInv(w);
    hide FreeBox, DoneBox, Reachable;
    assert BoxOk(w, b);
  }

  predicate Stops(a: Action, ch: nat) {
    (a.Stop? || a.Start? || a.ModeReset?) && a.ch == ch
  }

  /** How a frame's fate can change in one step. In a mailbox it ends as an echo
      unless its channel is stopped first; an end is final. */
  lemma FateMoves(w: World, a: Action, i: nat)
    requires Reachable(w) && WorldShape(w) && Enabled(w, a) && i < |w.frames|
    ensures i < |Step(w, a).fate|
    ensures var was, now := w.fate[i], Step(w, a).fate[i];
      match was
      case Waiting => now == was || (a.Place? && (now == Dropped || now.InBox?))
                      || (now == Discarded && Stops(a, w.frames[i].channel))
      case InBox(b) => now == was || (a.Echo? && now == Echoed && i in w.finished)
                       || (now == Discarded && Stops(a, w.frames[i].channel))
      case _ => now == was
  {
    ReachableInv(w);
    hide FreeBox, DoneBox, Reachable;
    assert FrameOk(w, i);
    if w.fate[i].InBox? { assert BoxOk(w, w.fate[i].b); }
    if a.Echo? { assert BoxOk(w, DoneBox(w.s, 0).value); }
  }

  // The main loop's pass as steps of the machine

  function Reaps(n: nat): seq<Action> {
    if n == 0 then [] else Reaps(n - 1) + [Reap(n - 1)]
  }

  lemma {:induction false} RunAppend(w: World, a: seq<Action>, b: seq<Action>)
    requires Run(w, a).Some?
    ensures Run(w, a + b) == Run(Run(w, a).value, b)
    decreases |a|
  {
    hide Step, WorldShape, Enabled;
    if a == [] {
      assert a + b == b;
    } else {
      assert (a + b)[1..] == a[1..] + b;
      RunAppend(Step(w, a[0]), a[1..], b);
    }
  }

  lemma RunOne(w: World, a: Action)
    requires WorldShape(w) && Enabled(w, a)
    ensures Run(w, [a]) == Some(Step(w, a))
  {
    hide Step, WorldShape, Enabled;
    assert [a][1..] == [];
  }

  lemma {:induction false} ReapsRun(w: World, n: nat)
    requires WorldShape(w) && n <= BOXES
    ensures Run(w, Reaps(n)) == Some(w.(s := ReapedUpTo(w.s, n)))
  {
    hide Run, Reaped;
    if n == 0 {
      RunNone(w);
    } else {
      ReapsRun(w, n - 1);
      var t := w.(s := ReapedUpTo(w.s, n - 1));
      RunAppend(w, Reaps(n - 1), [Reap(n - 1)]);
      RunOne(t, Reap(n - 1));
    }
  }

  lemma RunNone(w: World)
    ensures Run(w, []) == Some(w)
  {
  }

  function TakeActs(s: State, incoming: Option<Frame>): seq<Action> {
    if s.out.None? && incoming.Some? then [Read(incoming.value)] else []
  }

  function PlaceActs(s: State): seq<Action> {
    if s.out.Some? then [Place] else []
  }

  function EchoActs(s: State, room: bool): seq<Action>
    requires Shape(s)
  {
    if room && DoneBox(s, 0).Some? then [Echo] else []
  }

  /** The steps one pass makes. */
  function PollActs(s: State, incoming: Option<Frame>, room: bool): seq<Action>
    requires Shape(s)
  {
    var s1 := ReapedUpTo(s, BOXES);
    var s2 := if s1.out.None? && incoming.Some? then s1.(out := incoming) else s1;
    Reaps(BOXES) + TakeActs(s1, incoming) + PlaceActs(s2) + EchoActs(Placed(s2), room)
  }

  lemma ReadPart(w: World, incoming: Option<Frame>)
    requires Inv(w)
    ensures Run(w, TakeActs(w.s, incoming)).Some?
    ensures var t := Run(w, TakeActs(w.s, incoming)).value;
      Inv(t) && t.echoes == w.echoes
      && t.s == if w.s.out.None? && incoming.Some? then w.s.(out := incoming) else w.s
  {
    assert WorldShape(w);
    if w.s.out.None? && incoming.Some? {
      RunOne(w, Read(incoming.value));
      StepKeepsInv(w, Read(incoming.value));
    } else {
      RunNone(w);
    }
  }

  lemma PlacePart(w: World)
    requires Inv(w)
    ensures Run(w, PlaceActs(w.s)).Some?
    ensures var t := Run(w, PlaceActs(w.s)).value; Inv(t) && t.echoes == w.echoes && t.s == Placed(w.s)
  {
    assert WorldShape(w);
    if w.s.out.Some? {
      RunOne(w, Place);
      StepKeepsInv(w, Place);
    } else {
      RunNone(w);
    }
  }

  lemma EchoPart(w: World, room: bool)
    requires Inv(w)
    ensures Run(w, EchoActs(w.s, room)).Some?
    ensures var t := Run(w, EchoActs(w.s, room)).value;
      match if room then DoneBox(w.s, 0) else None
      case None => t == w
      case Some(b) => t.s == Freed(w.s, b) && w.ids[b] < |w.frames| && t.echoes == w.echoes + [w.ids[b]]
                      && w.s.tx[b] == w.frames[w.ids[b]] && t.frames == w.frames
  {
    hide DoneBox;
    assert WorldShape(w);
    if room && DoneBox(w.s, 0).Some? {
      assert BoxOk(w, DoneBox(w.s, 0).value);
      RunOne(w, Echo);
    } else {
      RunNone(w);
    }
  }

  /** A pass of the main loop is these steps, made without interruption: it ends in
      the state they end in, and the frame it returns is the one they echo. */
  lemma PollIsSteps(w: World, incoming: Option<Frame>, room: bool)
    requires Reachable(w) && WorldShape(w)
    ensures Run(w, PollActs(w.s, incoming, room)).Some?
    ensures var t, (s, echo) := Run(w, PollActs(w.s, incoming, room)).value, Polled(w.s, incoming, room);
      && t.s == s
      && (echo.None? ==> t.echoes == w.echoes)
      && (echo.Some? ==> |t.echoes| == |w.echoes| + 1 && t.echoes[..|w.echoes|] == w.echoes
                         && t.echoes[|w.echoes|] < |t.frames| && echo.value == t.frames[t.echoes[|w.echoes|]])
  {
    ReachableInv(w);
    var w1 := w.(s := ReapedUpTo(w.s, BOXES));
    ReapsRun(w, BOXES);
    RunKeepsInv(w, Reaps(BOXES));
    var a1, a2 := Reaps(BOXES), TakeActs(w1.s, incoming);
    ReadPart(w1, incoming);
    var w2 := Run(w1, a2).value;
    PlacePart(w2);
    var w3 := Run(w2, PlaceActs(w2.s)).value;
    EchoPart(w3, room);
    hide Run, ReapedUpTo, Placed, DoneBox, Inv, Reaps, TakeActs, PlaceActs, EchoActs, Reachable;
    RunAppend(w, a1, a2);
    RunAppend(w, a1 + a2, PlaceActs(w2.s));
    RunAppend(w, a1 + a2 + PlaceActs(w2.s), EchoActs(w3.s, room));
  }

  // Conservation

  function Count(fate: seq<Fate>, x: Fate): nat {
    if fate == [] then 0 else Count(fate[..|fate| - 1], x) + if fate[|fate| - 1] == x then 1 else 0
  }

  lemma CountSnoc(fate: seq<Fate>, x: Fate, y: Fate)
    ensures Count(fate + [y], x) == Count(fate, x) + if y == x then 1 else 0
  {
    assert (fate + [y])[..|fate|] == fate;
  }

  lemma {:induction false} CountUpdate(fate: seq<Fate>, i: nat, x: Fate, y: Fate)
    requires i < |fate|
    ensures Count(fate[i := y], x) ==
            Count(fate, x) - (if fate[i] == x then 1 else 0) + (if y == x then 1 else 0)
  {
    var n := |fate| - 1;
    if i < n {
      assert fate[i := y][..n] == fate[..n][i := y];
      CountUpdate(fate[..n], i, x, y);
    } else {
      assert fate[i := y][..n] == fate[..n];
    }
  }

  /** What a stop does to the tallies: the frames of the channel become discarded
      ones, all others keep their fate. */
  lemma {:induction false} CountGiven(fate: seq<Fate>, ch: nat, waits: bool, x: Fate)
    requires ch < CHANNELS
    ensures x.InBox? ==> Count(GivenAll(fate, ch, waits), x) == if x.b / 3 == ch then 0 else Count(fate, x)
    ensures x.Waiting? ==> Count(GivenAll(fate, ch, waits), x) == if waits then 0 else Count(fate, x)
    ensures x.Echoed? || x.Dropped? ==> Count(GivenAll(fate, ch, waits), x) == Count(fate, x)
    ensures x.Discarded? ==> Count(GivenAll(fate, ch, waits), x) == Count(fate, x) + InBoxes(fate, ch)
                             + if waits then Count(fate, Waiting) else 0
  {
    var n := |fate| - 1;
    if fate != [] {
      assert GivenAll(fate, ch, waits)[..n] == GivenAll(fate[..n], ch, waits);
      CountGiven(fate[..n], ch, waits, x);
    }
  }

  /** The frames in the boxes of a channel. */
  function InBoxes(fate: seq<Fate>, ch: nat): nat {
    Count(fate, InBox(3 * ch)) + Count(fate, InBox(3 * ch + 1)) + Count(fate, InBox(3 * ch + 2))
  }

  /** Every fate is one of these. */
  lemma {:induction false} CountsAddUp(fate: seq<Fate>)
    requires forall i :: 0 <= i < |fate| && fate[i].InBox? ==> fate[i].b < BOXES
    ensures |fate| == Count(fate, Waiting) + InBoxes(fate, 0) + InBoxes(fate, 1)
                      + Count(fate, Echoed) + Count(fate, Dropped) + Count(fate, Discarded)
  {
    if fate != [] { CountsAddUp(fate[..|fate| - 1]); }
  }

  /** The counters of the history are what the fates say, and so are the places
      the firmware holds frames in. */
  ghost predicate Tallied(w: World)
    requires WorldShape(w)
  {
    && Count(w.fate, Echoed) == |w.echoes| && Count(w.fate, Dropped) == w.dropped
    && Count(w.fate, Discarded) == w.discarded
    && Count(w.fate, Waiting) == (if w.s.out.Some? then 1 else 0)
    && (forall b :: 0 <= b < BOXES ==> Count(w.fate, InBox(b)) == Used(w.s, b))
  }

  lemma MoveKeepsTallies(w: World, t: World, i: nat)
    requires WorldShape(w) && WorldShape(t) && Tallied(w) && i < |w.fate| == |t.fate| && t.fate == w.fate[i := t.fate[i]]
    requires |t.echoes| - |w.echoes| == One(t.fate[i].Echoed?) - One(w.fate[i].Echoed?)
    requires t.dropped - w.dropped == One(t.fate[i].Dropped?) - One(w.fate[i].Dropped?)
    requires t.discarded - w.discarded == One(t.fate[i].Discarded?) - One(w.fate[i].Discarded?)
    requires One(t.s.out.Some?) - One(w.s.out.Some?) == One(t.fate[i].Waiting?) - One(w.fate[i].Waiting?)
    requires forall b :: 0 <= b < BOXES ==>
               Used(t.s, b) - Used(w.s, b) == One(t.fate[i] == InBox(b)) - One(w.fate[i] == InBox(b))
    ensures Tallied(t)
  {
    hide Used;
    forall x ensures Count(t.fate, x) == Count(w.fate, x) - One(w.fate[i] == x) + One(t.fate[i] == x) {
      CountUpdate(w.fate, i, x, t.fate[i]);
    }
  }

  function One(b: bool): nat {
    if b then 1 else 0
  }

  lemma StopKeepsTallies(w: World, ch: nat, s: State)
    requires Inv(w) && Tallied(w) && ch < CHANNELS && Shape(s)
    requires s.state == Stopped(w.s, ch).state && s.out == Stopped(w.s, ch).out
    ensures Tallied(GiveUp(w, ch, s))
  {
    assert WorldShape(w);
    hide Inv, Count;
    var t := GiveUp(w, ch, s);
    var waits := WaitingOn(w.s, ch) == 1;
    assert t.fate == GivenAll(w.fate, ch, waits);
    CountGiven(w.fate, ch, waits, Echoed);
    CountGiven(w.fate, ch, waits, Dropped);
    CountGiven(w.fate, ch, waits, Waiting);
    CountGiven(w.fate, ch, waits, Discarded);
    forall b | 0 <= b < BOXES ensures Count(t.fate, InBox(b)) == Used(t.s, b) {
      CountGiven(w.fate, ch, waits, InBox(b));
      assert Count(w.fate, InBox(b)) == Used(w.s, b);
    }
    assert InBoxes(w.fate, ch) == BusyOn(w.s, ch);
  }

  lemma ReadKeepsTallies(w: World, f: Frame)
    requires WorldShape(w) && Enabled(w, Read(f)) && Tallied(w)
    ensures Tallied(Step(w, Read(f)))
  {
    hide Count;
    var t := Step(w, Read(f));
    forall x ensures Count(t.fate, x) == Count(w.fate, x) + One(x == Waiting) { CountSnoc(w.fate, x, Waiting); }
  }

  lemma PlaceKeepsTallies(w: World)
    requires Inv(w) && Enabled(w, Place) && Tallied(w)
    ensures Tallied(Step(w, Place))
  {
    hide Count, FreeBox;
    var t := Step(w, Place);
    if !Usable(w.s, w.s.out.value.channel) || Target(w.s).Some? { MoveKeepsTallies(w, t, w.outId); }
  }

  lemma EchoKeepsTallies(w: World)
    requires Inv(w) && Enabled(w, Echo) && Tallied(w)
    ensures Tallied(Step(w, Echo))
  {
    hide Count, DoneBox;
    assert BoxOk(w, DoneBox(w.s, 0).value);
    MoveKeepsTallies(w, Step(w, Echo), w.ids[DoneBox(w.s, 0).value]);
  }

  lemma QuietKeepsTallies(w: World, a: Action)
    requires WorldShape(w) && Enabled(w, a) && Tallied(w)
    requires a.Reap? || a.ScpiOpen? || a.ScpiSend? || a.Finish?
    ensures WorldShape(Step(w, a)) && Tallied(Step(w, a))
  {
    hide Count;
  }

  lemma StepKeepsTallies(w: World, a: Action)
    requires Inv(w) && Enabled(w, a) && Tallied(w)
    ensures Inv(Step(w, a)) && Tallied(Step(w, a))
  {
    assert WorldShape(w);
    StepKeepsInv(w, a);
    hide Inv, Tallied, Stopped;
    match a
    case Read(f) => ReadKeepsTallies(w, f);
    case Place => PlaceKeepsTallies(w);
    case Echo => EchoKeepsTallies(w);
    case Stop(ch) => StopKeepsTallies(w, ch, Step(w, a).s);
    case Start(ch, _) => StopKeepsTallies(w, ch, Step(w, a).s);
    case ModeReset(ch) => StopKeepsTallies(w, ch, Step(w, a).s);
    case _ => QuietKeepsTallies(w, a);
  }

  lemma {:induction false} RunKeepsTallies(w: World, acts: seq<Action>)
    requires Inv(w) && Tallied(w) && Run(w, acts).Some?
    ensures Inv(Run(w, acts).value) && Tallied(Run(w, acts).value)
    decreases |acts|
  {
    hide Step, Inv, Tallied, WorldShape, Enabled;
    if acts != [] {
      StepKeepsTallies(w, acts[0]);
      RunKeepsTallies(Step(w, acts[0]), acts[1..]);
    }
  }

  lemma InitialTallied(w: World)
    requires Initial(w)
    ensures Tallied(w)
  {
  }

  /** Every frame read has one fate, and on every run the fates are as many as the
      counters and the places say: echoed, dropped for a channel that was not up,
      given up by a stop, waiting, or in a mailbox in use. */
  lemma FramesAreConserved(w0: World, acts: seq<Action>)
    requires Initial(w0) && Run(w0, acts).Some?
    ensures var w := Run(w0, acts).value;
      && WorldShape(w)
      && Count(w.fate, Echoed) == |w.echoes| && Count(w.fate, Dropped) == w.dropped
      && Count(w.fate, Discarded) == w.discarded
      && |w.frames| == w.dropped + (if w.s.out.Some? then 1 else 0) + Busy(w.s) + |w.echoes| + w.discarded
  {
    InitialInv(w0);
    InitialTallied(w0);
    RunKeepsTallies(w0, acts);
    hide Run, Initial, Count;
    var w := Run(w0, acts).value;
    forall i | 0 <= i < |w.fate| && w.fate[i].InBox? ensures w.fate[i].b < BOXES { assert FrameOk(w, i); }
    CountsAddUp(w.fate);
    assert InBoxes(w.fate, 0) == BusyOn(w.s, 0) && InBoxes(w.fate, 1) == BusyOn(w.s, 1);
  }

  /** The adapter at reset is an initial state of the machine. */
  lemma BootIsInitial(ids: seq<nat>, outId: nat, req: seq<Option<nat>>)
    requires |ids| == |req| == BOXES
    ensures Initial(World(BOOT, [], [], ids, outId, req, {}, [], 0, 0))
  {
  }
}
