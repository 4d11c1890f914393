/** The BLE glue (glue/usbscpi_nimble.c): the NimBLE host task takes writes and
    connection events, a worker task executes the bytes and sends the replies,
    and a session counter keeps one link's bytes and replies from the next. */
module Nimble {
  import opened Common

  const RX_CHUNK: nat := 128
  const RX_DEPTH: nat := 16

  datatype Item<T> = Item(session: nat, data: seq<T>)

  /** A write as the queue carries it: pieces of at most 128 bytes. */
  function Chunks<T>(data: seq<T>): seq<seq<T>> {
    if data == [] then []
    else if |data| <= RX_CHUNK then [data]
    else [data[..RX_CHUNK]] + Chunks(data[RX_CHUNK..])
  }

  /** The room the code asks for is the room the pieces take, and they are the
      write. */
  lemma {:induction false} ChunksOfWrite<T>(data: seq<T>)
    ensures |Chunks(data)| == (|data| + RX_CHUNK - 1) / RX_CHUNK
    ensures Flat(Chunks(data)) == data
  {
    if data == [] {
    } else if |data| <= RX_CHUNK {
      assert [data][1..] == [];
      assert Flat([data]) == data + Flat<T>([]);
    } else {
      ChunksOfWrite(data[RX_CHUNK..]);
      var cs := Chunks(data);
      assert cs[1..] == Chunks(data[RX_CHUNK..]);
      assert data == data[..RX_CHUNK] + data[RX_CHUNK..];
    }
  }

  // The host task between two worker steps

  datatype Access = Accepted | InsufficientAuthen | InsufficientRes | Unlikely

  /** What the host task writes. */
  datatype Shared<T> = Shared(conn: Option<nat>, session: nat, subscribed: bool, secure: bool, queue: seq<Item<T>>)

  function Connected<T>(s: Shared<T>, handle: nat): Shared<T> {
    Shared(Some(handle), s.session + 1, false, false, s.queue)
  }

  function Disconnected<T>(s: Shared<T>): Shared<T> {
    Shared(None, s.session + 1, false, false, s.queue)
  }

  /** A write on a secure link that has room is queued under the current session,
      whole unless the packet buffer yields only `copies` pieces; any other write
      is refused and nothing is queued. */
  function Received<T>(s: Shared<T>, data: seq<T>, copies: nat): (Shared<T>, Access)
    requires |s.queue| <= RX_DEPTH
  {
    var pieces := Stamped(s.session, Chunks(data));
    if !s.secure then (s, InsufficientAuthen)
    else if |pieces| > RX_DEPTH - |s.queue| then (s, InsufficientRes)
    else if copies < |pieces| then (s.(queue := s.queue + pieces[..copies]), Unlikely)
    else (s.(queue := s.queue + pieces), Accepted)
  }

  /** What the client is told: not before the link is secure, not beyond the pieces the
      queue has room for, not when the packet buffer yields too few; and only what is
      accepted is queued whole. */
  lemma WriteAnswers<T>(s: Shared<T>, data: seq<T>, copies: nat)
    requires |s.queue| <= 16
    ensures var (t, r) := Received(s, data, copies);
      var pieces := (|data| + 127) / 128;
      && (r == InsufficientAuthen <==> !s.secure)
      && (r == InsufficientRes <==> s.secure && |s.queue| + pieces > 16)
      && (r == Unlikely <==> s.secure && |s.queue| + pieces <= 16 && copies < pieces)
      && (r == Accepted <==> s.secure && |s.queue| + pieces <= 16 <= 16 + copies - pieces)
      && t == s.(queue := t.queue) && s.queue <= t.queue
      && |t.queue| == |s.queue| + if r == Accepted then pieces else if r == Unlikely then copies else 0
  {
    ChunksOfWrite(data);
    hide Chunks;
    var stamped := Stamped(s.session, Chunks(data));
    assert |stamped| == |Chunks(data)|;
  }

  class HostTask<T> {
    var conn: Option<nat>
    var session: nat
    var subscribed: bool
    var secure: bool
    var queue: seq<Item<T>>

    constructor ()
      ensures conn == None && session == 0 && !subscribed && !secure && queue == []
    {
      conn, session, subscribed, secure, queue := None, 0, false, false, [];
    }

    ghost function Now(): Shared<T>
      reads this
    {
      Shared(conn, session, subscribed, secure, queue)
    }

    /** A connection: the old one's subscription and security are gone before the
        new handle and then the new session appear. */
    method OnConnect(handle: nat)
      modifies this
      ensures Now() == Connected(old(Now()), handle)
    {
      subscribed := false;
      secure := false;
      conn := Some(handle);
      session := session + 1;
    }

    method OnDisconnect()
      modifies this
      ensures Now() == Disconnected(old(Now()))
    {
      conn := None;
      subscribed := false;
      secure := false;
      session := session + 1;
    }

    method RxAccess(data: seq<T>, copies: nat) returns (r: Access)
      requires |queue| <= RX_DEPTH
      modifies this`queue
      ensures |queue| <= RX_DEPTH && (Now(), r) == Received(old(Now()), data, copies)
    {
      hide Chunks;
      if !secure { return InsufficientAuthen; }
      ChunksOfWrite(data);
      if (|data| + RX_CHUNK - 1) / RX_CHUNK > RX_DEPTH - |queue| { return InsufficientRes; }
      var off, k := 0, 0;
      ghost var was, pieces := queue, Stamped(session, Chunks(data));
      assert data[0..] == data && was + pieces[..0] == was;
      assert pieces[0..] == pieces;
      while off < |data|
        invariant off <= |data| && k <= |pieces| && k <= copies
        invariant queue == was + pieces[..k] && pieces[k..] == Stamped(session, Chunks(data[off..]))
        decreases |data| - off
      {
        hide Stamped;
        var n := if |data| - off < RX_CHUNK then |data| - off else RX_CHUNK;
        NextPiece(data, off, n);
        StampedFirst(session, data[off..off + n], Chunks(data[off + n..]));
        if k == copies { return Unlikely; }
        var item := Item(session, data[off..off + n]);
        NextOf(pieces, k, item, Stamped(session, Chunks(data[off + n..])));
        Assoc(was, pieces[..k], [item]);
        if |queue| < RX_DEPTH { queue := queue + [item]; }
        k := k + 1;
        off := off + n;
      }
      assert data[off..] == [];
      NoPieces<T>(session);
      assert pieces[..k] == pieces;
      r := Accepted;
    }
  }

  lemma NoPieces<T>(session: nat)
    ensures Stamped<T>(session, Chunks([])) == []
  {
  }

  lemma NextOf<A>(all: seq<A>, k: nat, x: A, rest: seq<A>)
    requires k <= |all| && all[k..] == [x] + rest
    ensures k < |all| && all[k + 1..] == rest && all[..k + 1] == all[..k] + [x]
  {
    assert |all| - k == 1 + |rest|;
    assert all[k..][0] == x;
    DropDrop(all, k, 1);
  }

  lemma NextPiece<T>(data: seq<T>, off: nat, n: nat)
    requires off < |data| && n == if |data| - off < RX_CHUNK then |data| - off else RX_CHUNK
    ensures Chunks(data[off..]) == [data[off..off + n]] + Chunks(data[off + n..])
  {
    DropDrop(data, off, n);
    DropTake(data, off, 0, n);
    if n == |data| - off {
      assert data[off..] == data[off..off + n] && data[off + n..] == [];
      assert [data[off..]] + [] == [data[off..]];
    }
  }

  function Stamped<T>(session: nat, chunks: seq<seq<T>>): (items: seq<Item<T>>)
    ensures |items| == |chunks|
  {
    seq(|chunks|, i requires 0 <= i < |chunks| => Item(session, chunks[i]))
  }

  lemma StampedFirst<T>(session: nat, chunk: seq<T>, rest: seq<seq<T>>)
    ensures Stamped(session, [chunk] + rest) == [Item(session, chunk)] + Stamped(session, rest)
  {
  }

  // The worker sending a reply

  datatype Outcome = Taken | Full | Refused

  /** What one pass of the transmit loop finds in the shared state, and what the
      stack does with the notification. */
  datatype View = View(conn: Option<nat>, session: nat, subscribed: bool, mtu: nat, outcome: Outcome)

  datatype Notification<T> = Notification(conn: Option<nat>, data: seq<T>)

  function Payloads<T>(sent: seq<Notification<T>>): seq<T> {
    if sent == [] then [] else Payloads(sent[..|sent| - 1]) + sent[|sent| - 1].data
  }

  lemma PayloadsSnoc<T>(sent: seq<Notification<T>>, n: Notification<T>)
    ensures Payloads(sent + [n]) == Payloads(sent) + n.data
  {
    assert (sent + [n])[..|sent|] == sent;
  }

  /** The notification was made under a view of the session being answered, still
      subscribed, and fits its MTU. */
  predicate Permitted<T>(n: Notification<T>, v: View, rxSession: nat) {
    v.conn == n.conn && v.session == rxSession && v.subscribed && 0 < |n.data| <= v.mtu - 3
  }

  ghost predicate AllPermitted<T>(sent: seq<Notification<T>>, views: seq<View>, rxSession: nat) {
    forall i :: 0 <= i < |sent| ==> exists v :: v in views && Permitted(sent[i], v, rxSession)
  }

  lemma OneMorePermitted<T>(sent: seq<Notification<T>>, n: Notification<T>, v: View, views: seq<View>, rxSession: nat)
    requires AllPermitted(sent, views, rxSession) && v in views && Permitted(n, v, rxSession)
    ensures AllPermitted(sent + [n], views, rxSession)
  {
    hide Permitted;
  }

  lemma Progress<T>(data: seq<T>, sent: seq<Notification<T>>, left: seq<T>, note: Notification<T>, n: nat)
    requires data == Payloads(sent) + left && n <= |left| && note.data == left[..n]
    ensures data == Payloads(sent + [note]) + left[n..]
  {
    PayloadsSnoc(sent, note);
    hide Payloads;
    SliceSplits(left, 0, n, |left|);
    assert left == left[..n] + left[n..];
    Assoc(Payloads(sent), left[..n], left[n..]);
  }

  datatype Sent<T> = Sent(ok: bool, notes: seq<Notification<T>>, used: nat) {
    /** The same after n more passes, which sent these. */
    function After(first: seq<Notification<T>>, n: nat): Sent<T> {
      Sent(ok, first + notes, n + used)
    }
  }

  /** What becomes of a reply, by what each pass finds. */
  function Notifying<T>(data: seq<T>, rxSession: nat, views: seq<View>): (r: Sent<T>)
    ensures r.used <= |views|
    decreases |views|
  {
    if data == [] then Sent(true, [], 0)
    else if views == [] then Sent(false, [], 0)
    else
      var v := views[0];
      if rxSession != v.session || !v.subscribed || v.mtu <= 3 then Sent(false, [], 1)
      else
        match v.outcome
        case Taken =>
          var n := Min(|data|, v.mtu - 3);
          Notifying(data[n..], rxSession, views[1..]).After([Notification(v.conn, data[..n])], 1)
        case Full => Notifying(data, rxSession, views[1..]).After([], 1)
        case Refused => Sent(false, [], 1)
  }

  /** A pass that finds the link of the session, and the stack taking a piece or full. */
  predicate Goes(v: View, rxSession: nat) {
    v.session == rxSession && v.subscribed && v.mtu > 3 && v.outcome != Refused
  }

  function TakenRoom(views: seq<View>): nat {
    if views == [] then 0
    else (if views[0].outcome == Taken && views[0].mtu > 3 then views[0].mtu - 3 else 0) + TakenRoom(views[1..])
  }

  /** A reply fails only at a pass that finds another session, no subscription, no
      room in the MTU or a refusal, or when there are no more passes; until then each
      pass goes on. And it is sent whole exactly when the pieces that are taken before
      that have room for it. */
  lemma {:induction false} NotifyingExact<T>(data: seq<T>, rxSession: nat, views: seq<View>, n: nat)
    requires n <= |views| && forall i :: 0 <= i < n ==> Goes(views[i], rxSession)
    requires n < |views| ==> !Goes(views[n], rxSession)
    ensures Notifying(data, rxSession, views).ok <==> TakenRoom(views[..n]) >= |data|
    ensures !Notifying(data, rxSession, views).ok ==> Notifying(data, rxSession, views).used == Min(n + 1, |views|)
    decreases |views|
  {
    if data != [] && views != [] {
      if n > 0 {
        var v := views[0];
        assert Goes(v, rxSession);
        assert views[..n][1..] == views[1..][..n - 1] && views[..n][0] == v;
        var rest := if v.outcome == Taken then data[Min(|data|, v.mtu - 3)..] else data;
        NotifyingExact(rest, rxSession, views[1..], n - 1);
      }
    }
  }

  /** A full stack is waited out: the pass changes nothing. */
  lemma FullIsRetried<T>(data: seq<T>, rxSession: nat, v: View, views: seq<View>)
    requires data != [] && Goes(v, rxSession) && v.outcome == Full
    ensures Notifying(data, rxSession, [v] + views) == Notifying(data, rxSession, views).After([], 1)
  {
    assert ([v] + views)[1..] == views;
  }

  /** Sends the reply in notifications, waiting out a full stack. Success is
      exactly the whole reply sent; whatever was sent is its front, in order,
      each piece while the session answered was current and subscribed. */
  method Transmit<T>(data: seq<T>, rxSession: nat, views: seq<View>) returns (ok: bool, sent: seq<Notification<T>>)
    ensures Payloads(sent) <= data && (ok <==> Payloads(sent) == data)
    ensures AllPermitted(sent, views, rxSession)
    ensures var r := Notifying(data, rxSession, views); (ok, sent) == (r.ok, r.notes)
  {
    hide Payloads, AllPermitted, Notifying;
    sent := [];
    var left, k: nat := data, 0;
    NothingSent<T>(data, views, rxSession);
    ghost var all := Notifying(data, rxSession, views);
    assert views[0..] == views && all == all.After([], 0);
    while left != []
      invariant k <= |views| && data == Payloads(sent) + left
      invariant AllPermitted(sent, views, rxSession)
      invariant all == Notifying(left, rxSession, views[k..]).After(sent, k)
      decreases |views| - k
    {
      NotifyNext(left, rxSession, views[k..], sent, k);
      if k == |views| { return false, sent; }   // the link is gone
      var v := views[k];
      DropDrop(views, k, 1);
      k := k + 1;
      if rxSession != v.session || !v.subscribed { return false, sent; }
      if v.mtu <= 3 { return false, sent; }
      var n := if |left| < v.mtu - 3 then |left| else v.mtu - 3;
      match v.outcome {
        case Taken =>
          var note := Notification(v.conn, left[..n]);
          OneMorePermitted(sent, note, v, views, rxSession);
          Progress(data, sent, left, note, n);
          sent := sent + [note];
          left := left[n..];
        case Full =>
        case Refused => return false, sent;
      }
    }
    NotifyDone<T>(rxSession, views[k..], sent, k);
    ok := true;
    assert data == Payloads(sent);
  }

  /** One more pass, seen from the whole reply. */
  lemma NotifyNext<T>(data: seq<T>, rxSession: nat, views: seq<View>, sent: seq<Notification<T>>, k: nat)
    requires data != []
    ensures var r := Notifying(data, rxSession, views).After(sent, k);
      if views == [] then r == Sent(false, sent, k)
      else
        var v := views[0];
        if rxSession != v.session || !v.subscribed || v.mtu <= 3 then r == Sent(false, sent, k + 1)
        else
          match v.outcome
          case Taken =>
            var n := Min(|data|, v.mtu - 3);
            r == Notifying(data[n..], rxSession, views[1..]).After(sent + [Notification(v.conn, data[..n])], k + 1)
          case Full => r == Notifying(data, rxSession, views[1..]).After(sent, k + 1)
          case Refused => r == Sent(false, sent, k + 1)
  {
    assert sent + [] == sent;
    if views != [] && views[0].mtu > 3 {
      var n := Min(|data|, views[0].mtu - 3);
      Assoc(sent, [Notification(views[0].conn, data[..n])], Notifying(data[n..], rxSession, views[1..]).notes);
      Assoc(sent, [], Notifying(data, rxSession, views[1..]).notes);
    }
  }

  lemma NotifyDone<T>(rxSession: nat, views: seq<View>, sent: seq<Notification<T>>, k: nat)
    ensures Notifying<T>([], rxSession, views).After(sent, k) == Sent(true, sent, k)
  {
  }

  lemma NothingSent<T>(data: seq<T>, views: seq<View>, rxSession: nat)
    ensures data == Payloads<T>([]) + data && AllPermitted<T>([], views, rxSession)
  {
  }

  // Both tasks, one shared access at a time

  /** The host task: between events, part way through the assignments of a
      connect or disconnect, or part way through queueing a write. */
  datatype Host<T> =
    | Ready
    | Connecting(handle: nat, left: nat)
    | Disconnecting(left: nat)
    | Queueing(rest: seq<Item<T>>)

  /** The worker: idle, holding an item, executing it, or sending a fragment of
      a reply: handle read, session checked, subscription checked. */
  datatype Worker<T> =
    | Idle
    | Holding(item: Item<T>)
    | Executing
    | HandleRead(conn: Option<nat>)
    | SessionChecked(conn: Option<nat>)
    | Sending(conn: Option<nat>)

  datatype Fragment = Fragment(conn: Option<nat>, session: nat)

  datatype State<T> = State(
    conn: Option<nat>,
    session: nat,
    subscribed: bool,
    secure: bool,
    queue: seq<Item<T>>,
    rxSession: nat,
    host: Host<T>,
    worker: Worker<T>,
    up: bool,                     // a link exists, as far as the host task has handled
    handles: map<nat, nat>,       // the handle of every session that was a link
    secured: set<nat>,            // the sessions found to be securely bonded
    given: seq<Item<T>>,          // the writes let in, as the host sent them
    accepted: seq<Item<T>>,       // what of each was taken, all unless its copy failed
    failed: nat,                  // writes whose copy failed part way
    queued: seq<Item<T>>,         // every item ever queued
    fed: seq<Item<T>>,            // every item given to the engine
    lost: nat,                    // items the queue had no room for
    assembled: seq<(nat, T)>,     // bytes given to the engine since its last clear
    fragments: seq<Fragment>)     // notifications sent, with the session answered

  datatype Action<T> =
    | Connect(handle: nat)
    | Disconnect
    | HostAssigns                 // the next assignment of a connect or disconnect
    | Subscribe(on: bool)
    | CheckSecurity(session: nat, handle: nat)
    | Write(data: seq<T>)
    | Enqueue
    | CopyFails
    | Dequeue
    | Feed
    | ReadHandle
    | CheckSession
    | CheckSubscribed
    | Notify(taken: bool)         // the stack took the notification, or was full
    | FailTx
    | Done

  function Tagged<T>(item: Item<T>): (s: seq<(nat, T)>)
    ensures |s| == |item.data|
  {
    seq(|item.data|, i requires 0 <= i < |item.data| => (item.session, item.data[i]))
  }

  /** The assignments of the connect handler, the fourth from the end first. */
  function ConnectAssigns<T>(s: State<T>, h: nat, left: nat): Option<State<T>> {
    var next := s.(host := if left > 1 then Connecting(h, left - 1) else Ready);
    if left == 4 then Some(next.(subscribed := false))
    else if left == 3 then Some(next.(secure := false))
    else if left == 2 then Some(next.(conn := Some(h)))
    else if left == 1 then
      Some(next.(session := s.session + 1, up := true, handles := s.handles[s.session + 1 := h]))
    else None
  }

  /** Those of the disconnect handler. */
  function DisconnectAssigns<T>(s: State<T>, left: nat): Option<State<T>> {
    var next := s.(host := if left > 1 then Disconnecting(left - 1) else Ready);
    if left == 4 then Some(next.(conn := None))
    else if left == 3 then Some(next.(subscribed := false))
    else if left == 2 then Some(next.(secure := false))
    else if left == 1 then Some(next.(session := s.session + 1, up := false))
    else None
  }

  function Assigns<T>(s: State<T>): Option<State<T>> {
    match s.host
    case Connecting(h, left) => ConnectAssigns(s, h, left)
    case Disconnecting(left) => DisconnectAssigns(s, left)
    case _ => None
  }

  function Step<T>(s: State<T>, a: Action<T>): Option<State<T>> {
    match a
    // the host task
    case Connect(h) => if s.host == Ready && !s.up then Some(s.(host := Connecting(h, 4))) else None
    case Disconnect => if s.host == Ready && s.up then Some(s.(host := Disconnecting(4))) else None
    case HostAssigns => Assigns(s)
    case Subscribe(on) => if s.host == Ready && s.up then Some(s.(subscribed := on)) else None
    case CheckSecurity(session, handle) =>
      if s.host != Ready then None
      else if session == s.session && s.conn == Some(handle) then
        Some(s.(secure := true, secured := s.secured + {session}))
      else Some(s)
    case Write(data) =>
      if s.host != Ready then None
      else if !s.secure || (|data| + RX_CHUNK - 1) / RX_CHUNK > RX_DEPTH - |s.queue| then Some(s)
      else
        var item := Item(s.session, data);
        Some(s.(host := Queueing(Stamped(s.session, Chunks(data))),
                given := s.given + [item], accepted := s.accepted + [item]))
    case Enqueue =>
      if !s.host.Queueing? then None
      else if s.host.rest == [] then Some(s.(host := Ready))
      else
        var next := s.(host := Queueing(s.host.rest[1..]));
        if |s.queue| < RX_DEPTH then
          Some(next.(queue := s.queue + [s.host.rest[0]], queued := s.queued + [s.host.rest[0]]))
        else Some(next.(lost := s.lost + 1))
    case CopyFails =>
      if !s.host.Queueing? || s.host.rest == [] then None
      else Some(s.(host := Ready, accepted := CutLast(s.accepted, |Bytes(s.host.rest)|), failed := s.failed + 1))
    // the worker
    case Dequeue =>
      if s.worker == Idle && s.queue != [] then Some(s.(queue := s.queue[1..], worker := Holding(s.queue[0])))
      else None
    case Feed =>
      if s.worker.Holding? then
        var item := s.worker.item;
        var kept := if item.session != s.rxSession then [] else s.assembled;
        Some(s.(rxSession := item.session, assembled := kept + Tagged(item), fed := s.fed + [item], worker := Executing))
      else None
    case ReadHandle => if s.worker == Executing then Some(s.(worker := HandleRead(s.conn))) else None
    case CheckSession =>
      if s.worker.HandleRead? then
        Some(s.(worker := if s.rxSession != s.session then Executing else SessionChecked(s.worker.conn)))
      else None
    case CheckSubscribed =>
      if s.worker.SessionChecked? then
        Some(s.(worker := if s.subscribed then Sending(s.worker.conn) else Executing))
      else None
    case Notify(taken) =>
      if s.worker.Sending? then
        var sent := if taken then [Fragment(s.worker.conn, s.rxSession)] else [];
        Some(s.(fragments := s.fragments + sent, worker := Executing))
      else None
    case FailTx => if s.worker.Sending? then Some(s.(worker := Executing)) else None
    case Done => if s.worker == Executing then Some(s.(worker := Idle)) else None
  }

  /** The last write without its last n bytes. */
  function CutLast<T>(items: seq<Item<T>>, n: nat): (r: seq<Item<T>>)
    ensures |r| == |items|
  {
    if items == [] || n > |items[|items| - 1].data| then items
    else
      var last := items[|items| - 1];
      items[|items| - 1 := last.(data := last.data[..|last.data| - n])]
  }

  /** Bytes with the session they belong to. */
  function Bytes<T>(items: seq<Item<T>>): seq<(nat, T)> {
    if items == [] then [] else Tagged(items[0]) + Bytes(items[1..])
  }

  function Run<T>(s: State<T>, acts: seq<Action<T>>): Option<State<T>>
    decreases |acts|
  {
    if acts == [] then Some(s)
    else
      match Step(s, acts[0])
      case None => None
      case Some(next) => Run(next, acts[1..])
  }

  // What every run keeps

  /** The handle is that of the session's link, or none. */
  predicate Addressed<T>(s: State<T>, conn: Option<nat>, session: nat) {
    session in s.handles && (conn == None || conn == Some(s.handles[session]))
  }

  ghost predicate LinkOk<T>(s: State<T>) {
    && (s.up <==> s.session in s.handles)
    && (forall k :: k in s.handles ==> k <= s.session)
    && (forall k :: k in s.secured ==> k in s.handles)
    && (s.secure ==> s.up && s.session in s.secured)
    && match s.host
       case Ready => s.conn == if s.up then Some(s.handles[s.session]) else None
       case Connecting(h, left) => 1 <= left <= 4 && !s.up && s.conn == if left == 1 then Some(h) else None
       case Disconnecting(left) =>
         1 <= left <= 4 && s.up && s.conn == (if left == 4 then Some(s.handles[s.session]) else None)
         && (left == 1 ==> !s.secure)
       case Queueing(rest) => s.up && s.conn == Some(s.handles[s.session]) && s.session in s.secured
  }

  /** Items travel under sessions that were securely bonded links. */
  ghost predicate ItemsOk<T>(s: State<T>) {
    && (s.host.Queueing? ==> forall i :: 0 <= i < |s.host.rest| ==> s.host.rest[i].session == s.session)
    && (forall i :: 0 <= i < |s.queue| ==> s.queue[i].session in s.secured)
    && (s.worker.Holding? ==> s.worker.item.session in s.secured)
    && (!s.worker.Idle? && !s.worker.Holding? ==> s.rxSession in s.secured)
    && (forall i :: 0 <= i < |s.assembled| ==> s.assembled[i].0 == s.rxSession)
  }

  ghost predicate RepliesOk<T>(s: State<T>) {
    && (forall i :: 0 <= i < |s.fragments| ==> Addressed(s, s.fragments[i].conn, s.fragments[i].session))
    && match s.worker
       case HandleRead(conn) => s.rxSession == s.session ==> Addressed(s, conn, s.rxSession)
       case SessionChecked(conn) => Addressed(s, conn, s.rxSession)
       case Sending(conn) => Addressed(s, conn, s.rxSession)
       case _ => true
  }

  function Held<T>(s: State<T>): seq<Item<T>> {
    if s.worker.Holding? then [s.worker.item] else []
  }

  function Unqueued<T>(s: State<T>): seq<Item<T>> {
    if s.host.Queueing? then s.host.rest else []
  }

  ghost predicate QueueOk<T>(s: State<T>) {
    && |s.queue| + |Unqueued(s)| <= RX_DEPTH && s.lost == 0
    && s.fed + Held(s) + s.queue == s.queued
    && Bytes(s.queued) + Bytes(Unqueued(s)) == Bytes(s.accepted)
    && (s.host.Queueing? ==> && s.accepted != [] && s.given != []
                             && s.accepted[|s.accepted| - 1] == s.given[|s.given| - 1]
                             && |Bytes(s.host.rest)| <= |s.accepted[|s.accepted| - 1].data|
                             && forall i :: 0 <= i < |s.host.rest| ==> s.host.rest[i].data != [])
  }

  /** What was taken of a write is its front, and all of it unless its copy
      failed. */
  ghost predicate FrontsOk<T>(s: State<T>) {
    && |s.accepted| == |s.given|
    && (forall i :: 0 <= i < |s.given| ==> FrontOf(s.accepted[i], s.given[i]))
    && (s.failed == 0 ==> s.accepted == s.given)
    && (s.failed > 0 ==> exists i :: 0 <= i < |s.given| && Cut(s.accepted[i], s.given[i]))
  }

  predicate Cut<T>(a: Item<T>, b: Item<T>) {
    |a.data| < |b.data|
  }

  ghost predicate FrontOf<T>(a: Item<T>, b: Item<T>) {
    a.session == b.session && a.data <= b.data
  }

  ghost predicate Inv<T>(s: State<T>) {
    LinkOk(s) && ItemsOk(s) && RepliesOk(s) && FrontsOk(s) && QueueOk(s)
  }

  ghost predicate Initial<T>(s: State<T>) {
    && s.conn == None && s.session == 0 && s.rxSession == 0 && !s.subscribed && !s.secure && !s.up
    && s.queue == s.given == s.accepted == s.queued == s.fed == [] && s.lost == 0 && s.failed == 0
    && s.handles == map[] && s.secured == {} && s.assembled == [] && s.fragments == []
    && s.host == Ready && s.worker == Idle
  }

  lemma {:induction false} BytesAppend<T>(a: seq<Item<T>>, b: seq<Item<T>>)
    ensures Bytes(a + b) == Bytes(a) + Bytes(b)
  {
    hide Tagged;
    if a == [] {
      assert a + b == b;
    } else {
      assert (a + b)[1..] == a[1..] + b;
      BytesAppend(a[1..], b);
      Assoc(Tagged(a[0]), Bytes(a[1..]), Bytes(b));
    }
  }

  lemma BytesOne<T>(item: Item<T>)
    ensures Bytes([item]) == Tagged(item)
  {
    hide Tagged;
    assert [item][1..] == [];
  }

  /** Cutting a write into pieces loses and adds nothing. */
  lemma {:induction false} StampedBytes<T>(session: nat, data: seq<T>)
    ensures Bytes(Stamped(session, Chunks(data))) == Tagged(Item(session, data))
    decreases |data|
  {
    if data == [] {
    } else if |data| <= RX_CHUNK {
      assert Stamped(session, [data]) == [Item(session, data)];
      BytesOne(Item(session, data));
    } else {
      var a, b := data[..RX_CHUNK], data[RX_CHUNK..];
      StampedBytes(session, b);
      hide Chunks;
      StampedFirst(session, a, Chunks(b));
      var items := Stamped(session, [a] + Chunks(b));
      assert items[0] == Item(session, a) && items[1..] == Stamped(session, Chunks(b));
      assert Tagged(Item(session, data)) == Tagged(Item(session, a)) + Tagged(Item(session, b));
    }
  }

  lemma AssignsKeepsLink<T>(s: State<T>)
    requires LinkOk(s) && Assigns(s).Some?
    ensures LinkOk(Assigns(s).value)
  {
  }

  lemma AssignsKeepsReplies<T>(s: State<T>)
    requires LinkOk(s) && ItemsOk(s) && RepliesOk(s) && Assigns(s).Some?
    ensures RepliesOk(Assigns(s).value)
  {
    var t := Assigns(s).value;
    assert forall k :: k in s.handles ==> k in t.handles && t.handles[k] == s.handles[k];
    assert t.fragments == s.fragments && t.worker == s.worker && t.rxSession == s.rxSession;
    assert s.session <= t.session;
    hide Assigns;
  }

  lemma AssignsKeepsInv<T>(s: State<T>)
    requires Inv(s) && Assigns(s).Some?
    ensures Inv(Assigns(s).value)
  {
    hide Bytes, LinkOk, RepliesOk, QueueOk, FrontsOk, Assigns;
    AssignsKeepsLink(s);
    AssignsKeepsReplies(s);
    AssignsLeavesTheRest(s);
    QuietHost(s, Assigns(s).value);
  }

  /** What the host task does outside a write leaves the ledger of writes alone. */
  lemma QuietHost<T>(s: State<T>, t: State<T>)
    requires QueueOk(s) && FrontsOk(s) && !s.host.Queueing? && !t.host.Queueing?
    requires SameLedger(s, t)
    ensures QueueOk(t) && FrontsOk(t)
  {
    hide Bytes;
  }

  ghost predicate SameLedger<T>(s: State<T>, t: State<T>) {
    && t.queue == s.queue && t.worker == s.worker && t.queued == s.queued && t.fed == s.fed && t.lost == s.lost
    && t.given == s.given && t.accepted == s.accepted && t.failed == s.failed
  }

  ghost predicate OnlyTheLink<T>(s: State<T>, t: State<T>) {
    && !t.host.Queueing? && SameLedger(s, t)
    && t.rxSession == s.rxSession && t.secured == s.secured && t.assembled == s.assembled
  }

  lemma ConnectLeavesTheRest<T>(s: State<T>, h: nat, left: nat)
    ensures ConnectAssigns(s, h, left).Some? ==> OnlyTheLink(s, ConnectAssigns(s, h, left).value)
  {
    if left == 1 {
    } else if left == 2 {
    } else if left == 3 {
    } else {
    }
  }

  lemma DisconnectLeavesTheRest<T>(s: State<T>, left: nat)
    ensures DisconnectAssigns(s, left).Some? ==> OnlyTheLink(s, DisconnectAssigns(s, left).value)
  {
    if left == 1 {
    } else if left == 2 {
    } else if left == 3 {
    } else {
    }
  }

  lemma AssignsLeavesTheRest<T>(s: State<T>)
    requires Assigns(s).Some?
    ensures !s.host.Queueing? && OnlyTheLink(s, Assigns(s).value)
  {
    hide ConnectAssigns, DisconnectAssigns, OnlyTheLink;
    match s.host
    case Connecting(h, left) => ConnectLeavesTheRest(s, h, left);
    case Disconnecting(left) => DisconnectLeavesTheRest(s, left);
    case _ =>
  }

  lemma ConnectionKeepsInv<T>(s: State<T>, a: Action<T>)
    requires Inv(s) && Step(s, a).Some?
    requires a.Connect? || a.Disconnect? || a.Subscribe? || a.CheckSecurity?
    ensures Inv(Step(s, a).value)
  {
    hide Bytes, Assigns, QueueOk, FrontsOk;
    QuietHost(s, Step(s, a).value);
  }

  /** Letting a write in, or taking the next piece of it. */
  lemma WriteKeepsInv<T>(s: State<T>, data: seq<T>)
    requires Inv(s) && Step(s, Write(data)).Some?
    ensures Inv(Step(s, Write(data)).value)
  {
    hide Bytes, Chunks, QueueOk, FrontsOk, Assigns;
    var t := Step(s, Write(data)).value;
    ChunksOfWrite(data);
    if t.host.Queueing? {
      WriteKeepsLedger(s, data);
    }
  }

  lemma {:induction false} ChunksNotEmpty<T>(data: seq<T>)
    ensures forall i :: 0 <= i < |Chunks(data)| ==> Chunks(data)[i] != []
  {
    if |data| > RX_CHUNK { ChunksNotEmpty(data[RX_CHUNK..]); }
  }

  lemma WriteKeepsLedger<T>(s: State<T>, data: seq<T>)
    requires QueueOk(s) && FrontsOk(s) && s.host == Ready && |Chunks(data)| <= RX_DEPTH - |s.queue|
    ensures var item := Item(s.session, data);
      var t := s.(host := Queueing(Stamped(s.session, Chunks(data))),
                  given := s.given + [item], accepted := s.accepted + [item]);
      QueueOk(t) && FrontsOk(t)
  {
    hide Chunks, Stamped, FrontsOk, QueueOk;
    var item := Item(s.session, data);
    var t := s.(host := Queueing(Stamped(s.session, Chunks(data))),
                given := s.given + [item], accepted := s.accepted + [item]);
    GivenKeepsFronts(s, item, t);
    GivenKeepsQueue(s, data, t);
  }

  lemma GivenKeepsFronts<T>(s: State<T>, item: Item<T>, t: State<T>)
    requires FrontsOk(s) && t == s.(host := t.host, given := s.given + [item], accepted := s.accepted + [item])
    ensures FrontsOk(t)
  {
    if s.failed > 0 {
      var i :| 0 <= i < |s.given| && Cut(s.accepted[i], s.given[i]);
      assert Cut(t.accepted[i], t.given[i]);
    }
  }

  lemma GivenKeepsQueue<T>(s: State<T>, data: seq<T>, t: State<T>)
    requires QueueOk(s) && s.host == Ready && |Chunks(data)| <= RX_DEPTH - |s.queue|
    requires t == s.(host := Queueing(Stamped(s.session, Chunks(data))),
                     given := s.given + [Item(s.session, data)], accepted := s.accepted + [Item(s.session, data)])
    ensures QueueOk(t)
  {
    ChunksNotEmpty(data);
    PiecesNotEmpty(s.session, Chunks(data));
    hide Bytes, Chunks, Tagged, Stamped;
    StampedBytes(s.session, data);
    BytesAppend(s.accepted, [Item(s.session, data)]);
    BytesOne(Item(s.session, data));
    NoBytes<T>();
    assert Bytes(s.queued) + [] == Bytes(s.queued);
  }

  lemma PiecesNotEmpty<T>(session: nat, chunks: seq<seq<T>>)
    requires forall i :: 0 <= i < |chunks| ==> chunks[i] != []
    ensures forall i :: 0 <= i < |chunks| ==> Stamped(session, chunks)[i].data != []
  {
  }

  lemma NoBytes<T>()
    ensures Bytes<T>([]) == []
  {
  }

  lemma EnqueueKeepsInv<T>(s: State<T>)
    requires Inv(s) && Step(s, Enqueue).Some?
    ensures Inv(Step(s, Enqueue).value)
  {
    hide Bytes, Tagged, QueueOk, FrontsOk, Assigns;
    EnqueueKeepsLedger(s);
  }

  lemma EnqueueKeepsLedger<T>(s: State<T>)
    requires QueueOk(s) && FrontsOk(s) && s.host.Queueing?
    ensures var t := Step(s, Enqueue).value;
      QueueOk(t) && FrontsOk(t) && (s.host.rest != [] ==> t.queue == s.queue + [s.host.rest[0]])
  {
    hide Bytes, Tagged, Assigns, FrontOf;
    NoBytes<T>();
    if s.host.rest != [] {
      var item, rest := s.host.rest[0], s.host.rest[1..];
      BytesAppend(s.queued, [item]);
      BytesAppend([item], rest);
      assert s.host.rest == [item] + rest;
      Assoc(Bytes(s.queued), Bytes([item]), Bytes(rest));
      Assoc(s.fed + Held(s), s.queue, [item]);
    }
  }

  /** Dropping the last bytes of the last write. */
  lemma CutLastBytes<T>(items: seq<Item<T>>, n: nat)
    requires items != [] && n <= |items[|items| - 1].data|
    ensures n <= |Bytes(items)| && Bytes(CutLast(items, n)) == Bytes(items)[..|Bytes(items)| - n]
  {
    hide Bytes;
    var k := |items| - 1;
    var last, cut := items[k], CutLast(items, n)[k];
    assert items == items[..k] + [last] && CutLast(items, n) == items[..k] + [cut];
    BytesAppend(items[..k], [last]);
    BytesAppend(items[..k], [cut]);
    BytesOne(last);
    BytesOne(cut);
    assert Tagged(cut) == Tagged(last)[..|last.data| - n];
  }

  lemma CutFront<A>(a: seq<A>, b: seq<A>, all: seq<A>)
    requires a + b == all
    ensures a == all[..|all| - |b|]
  {
  }

  lemma CopyFailsKeepsInv<T>(s: State<T>)
    requires Inv(s) && Step(s, CopyFails).Some?
    ensures Inv(Step(s, CopyFails).value)
  {
    hide Bytes, CutLast, QueueOk, FrontsOk, Assigns;
    CopyFailsKeepsLedger(s);
  }

  lemma SomeBytes<T>(items: seq<Item<T>>)
    requires items != [] && items[0].data != []
    ensures |Bytes(items)| > 0
  {
  }

  lemma CopyFailsKeepsLedger<T>(s: State<T>)
    requires QueueOk(s) && FrontsOk(s) && s.host.Queueing? && s.host.rest != []
    ensures var t := s.(host := Ready, accepted := CutLast(s.accepted, |Bytes(s.host.rest)|), failed := s.failed + 1);
      QueueOk(t) && FrontsOk(t)
  {
    hide Bytes;
    NoBytes<T>();
    SomeBytes(s.host.rest);
    var n := |Bytes(s.host.rest)|;
    CutLastBytes(s.accepted, n);
    assert Cut(CutLast(s.accepted, n)[|s.given| - 1], s.given[|s.given| - 1]);
    CutFront(Bytes(s.queued), Bytes(s.host.rest), Bytes(s.accepted));
    assert Bytes(s.queued) + [] == Bytes(s.queued);
  }

  lemma TakeKeepsInv<T>(s: State<T>, a: Action<T>)
    requires Inv(s) && Step(s, a).Some? && (a.Dequeue? || a.Feed?)
    ensures Inv(Step(s, a).value)
  {
    hide Bytes, QueueOk, FrontsOk, Assigns;
    TakeKeepsLedger(s, Step(s, a).value);
  }

  /** Between the queue, the worker's hand and the engine, items only move on. */
  lemma TakeKeepsLedger<T>(s: State<T>, t: State<T>)
    requires QueueOk(s) && FrontsOk(s)
    requires || (s.queue != [] && t == s.(queue := s.queue[1..], worker := Holding(s.queue[0])) && s.worker.Idle?)
             || (s.worker.Holding? && t == s.(rxSession := t.rxSession, assembled := t.assembled,
                                              fed := s.fed + [s.worker.item], worker := Executing))
    ensures QueueOk(t) && FrontsOk(t)
  {
    hide Bytes;
    assert t.fed + Held(t) + t.queue == s.queued by {
      if s.worker.Idle? {
        assert s.queue == [s.queue[0]] + s.queue[1..];
        assert s.fed + [] == s.fed;
        Assoc(s.fed, [s.queue[0]], s.queue[1..]);
      } else {
        assert s.fed + [s.worker.item] + [] == s.fed + [s.worker.item];
      }
    }
  }

  /** Sending touches nothing but the worker's own place and the log. */
  lemma SendingKeeps<T>(s: State<T>, t: State<T>)
    requires LinkOk(s) && ItemsOk(s) && QueueOk(s) && FrontsOk(s)
    requires t == s.(worker := t.worker, fragments := t.fragments)
    requires !s.worker.Idle? && !s.worker.Holding? && !t.worker.Holding?
    ensures LinkOk(t) && ItemsOk(t) && QueueOk(t) && FrontsOk(t)
  {
    hide Bytes;
  }

  lemma ReplyKeepsInv<T>(s: State<T>, a: Action<T>)
    requires Inv(s) && Step(s, a).Some?
    requires a.ReadHandle? || a.CheckSession? || a.CheckSubscribed? || a.Notify? || a.FailTx? || a.Done?
    ensures Inv(Step(s, a).value)
  {
    hide Assigns, QueueOk, FrontsOk;
    var t := Step(s, a).value;
    assert t == s.(worker := t.worker, fragments := t.fragments);
    SendingKeeps(s, t);
  }

  lemma StepKeepsInv<T>(s: State<T>, a: Action<T>)
    requires Inv(s) && Step(s, a).Some?
    ensures Inv(Step(s, a).value)
  {
    hide Inv;
    match a
    case HostAssigns =>
      assert Step(s, a) == Assigns(s);
      AssignsKeepsInv(s);
    case Write(data) => WriteKeepsInv(s, data);
    case Enqueue => EnqueueKeepsInv(s);
    case CopyFails => CopyFailsKeepsInv(s);
    case Dequeue => TakeKeepsInv(s, a);
    case Feed => TakeKeepsInv(s, a);
    case Connect(_) => ConnectionKeepsInv(s, a);
    case Disconnect => ConnectionKeepsInv(s, a);
    case Subscribe(_) => ConnectionKeepsInv(s, a);
    case CheckSecurity(_, _) => ConnectionKeepsInv(s, a);
    case _ => ReplyKeepsInv(s, a);
  }

  lemma {:induction false} RunKeepsInv<T>(s: State<T>, acts: seq<Action<T>>)
    requires Inv(s) && Run(s, acts).Some?
    ensures Inv(Run(s, acts).value)
    decreases |acts|
  {
    hide Inv, Step;
    if acts != [] {
      StepKeepsInv(s, acts[0]);
      RunKeepsInv(Step(s, acts[0]).value, acts[1..]);
    }
  }

  /** Session isolation, over every interleaving of the two tasks: all bytes
      being assembled came in under the session the worker recorded, a session
      that was found securely bonded while anything is executed; and every
      fragment of a reply went to that session's own link or to none. */
  lemma SessionsAreIsolated<T>(s0: State<T>, acts: seq<Action<T>>)
    requires Initial(s0) && Run(s0, acts).Some?
    ensures var s := Run(s0, acts).value;
      && (forall i :: 0 <= i < |s.assembled| ==> s.assembled[i].0 == s.rxSession)
      && (s.worker.Executing? ==> s.rxSession in s.secured)
      && (forall k :: k in s.secured ==> k in s.handles)
      && (forall i :: 0 <= i < |s.fragments| ==> Addressed(s, s.fragments[i].conn, s.fragments[i].session))
  {
    InitialInv(s0);
    RunKeepsInv(s0, acts);
    hide Run, QueueOk, FrontsOk;
  }

  /** No piece is ever refused by the queue; the bytes executed, held, queued and
      about to be are exactly those taken of the writes let in, in order and under
      their sessions; of each write a front is taken, and of all of them all exactly
      when no copy from the packet buffer has failed part way. */
  lemma WritesAreWhole<T>(s0: State<T>, acts: seq<Action<T>>)
    requires Initial(s0) && Run(s0, acts).Some?
    ensures var s := Run(s0, acts).value;
      && s.lost == 0
      && Bytes(s.fed) + Bytes(Held(s)) + Bytes(s.queue) + Bytes(Unqueued(s)) == Bytes(s.accepted)
      && |s.accepted| == |s.given| && (forall i :: 0 <= i < |s.given| ==> FrontOf(s.accepted[i], s.given[i]))
      && (s.failed == 0 <==> s.accepted == s.given)
  {
    InitialInv(s0);
    RunKeepsInv(s0, acts);
    hide Run, Bytes;
    var s := Run(s0, acts).value;
    BytesAppend(s.fed + Held(s), s.queue);
    BytesAppend(s.fed, Held(s));
  }

  lemma InitialInv<T>(s: State<T>)
    requires Initial(s)
    ensures Inv(s)
  {
  }

  // The handlers of the host task as steps of the machine

  function SharedOf<T>(s: State<T>): Shared<T> {
    Shared(s.conn, s.session, s.subscribed, s.secure, s.queue)
  }

  lemma {:induction false} RunAppend<T>(s: State<T>, a: seq<Action<T>>, b: seq<Action<T>>)
    requires Run(s, a).Some?
    ensures Run(s, a + b) == Run(Run(s, a).value, b)
    decreases |a|
  {
    hide Step;
    if a == [] {
      assert a + b == b;
    } else {
      assert (a + b)[1..] == a[1..] + b;
      RunAppend(Step(s, a[0]).value, a[1..], b);
    }
  }

  lemma RunFirst<T>(s: State<T>, a: Action<T>, more: seq<Action<T>>)
    requires Step(s, a).Some?
    ensures Run(s, [a] + more) == Run(Step(s, a).value, more)
  {
    hide Step;
    assert ([a] + more)[1..] == more;
  }

  lemma RunNone<T>(s: State<T>)
    ensures Run(s, []) == Some(s)
  {
  }

  /** The worker takes an item and executes it. */
  lemma ItemIsFed<T>(s: State<T>, item: Item<T>, rest: seq<Item<T>>, more: seq<Action<T>>) returns (t: State<T>)
    requires s.worker == Idle && s.queue == [item] + rest
    ensures Run(s, [Dequeue] + ([Feed] + more)) == Run(t, more)
    ensures t == s.(queue := rest, worker := Executing, rxSession := item.session, fed := s.fed + [item],
                    assembled := t.assembled)
  {
    var s1 := Step(s, Dequeue).value;
    assert s1.queue == rest && s1.worker == Holding(item);
    t := Step(s1, Feed).value;
    hide Run, Tagged, Step;
    RunFirst(s, Dequeue, [Feed] + more);
    RunFirst(s1, Feed, more);
  }

  lemma ChecksPass<T>(s: State<T>, more: seq<Action<T>>)
    requires s.worker == Executing && s.rxSession == s.session && s.subscribed
    ensures Run(s, [ReadHandle] + ([CheckSession] + ([CheckSubscribed] + more))) == Run(s.(worker := Sending(s.conn)), more)
  {
    var s1 := Step(s, ReadHandle).value;
    var s2 := Step(s1, CheckSession).value;
    var s3 := Step(s2, CheckSubscribed).value;
    assert s3 == s.(worker := Sending(s.conn));
    hide Run, Step;
    RunFirst(s, ReadHandle, [CheckSession] + ([CheckSubscribed] + more));
    RunFirst(s1, CheckSession, [CheckSubscribed] + more);
    RunFirst(s2, CheckSubscribed, more);
  }

  lemma FragmentSent<T>(s: State<T>) returns (t: State<T>)
    requires s.worker == Sending(s.conn)
    ensures Run(s, [Notify(true)] + ([Done] + [])) == Some(t)
    ensures t == s.(worker := Idle, fragments := s.fragments + [Fragment(s.conn, s.rxSession)])
  {
    var s1 := Step(s, Notify(true)).value;
    t := Step(s1, Done).value;
    hide Run, Step;
    RunFirst(s, Notify(true), [Done] + []);
    RunFirst(s1, Done, []);
    RunNone(t);
  }

  /** The worker's steps for one item whose execution replies with one fragment. */
  function Answering<T>(): seq<Action<T>> {
    [Dequeue] + ([Feed] + ([ReadHandle] + ([CheckSession] + ([CheckSubscribed] + ([Notify(true)] + ([Done] + []))))))
  }

  /** A queued item of the current, subscribed session is executed and its reply goes out
      to that session; every step of the way is possible. */
  lemma ItemIsAnswered<T>(s: State<T>, item: Item<T>, rest: seq<Item<T>>)
    requires s.worker == Idle && s.queue == [item] + rest && item.session == s.session && s.subscribed
    ensures var r := Run(s, Answering());
      && r.Some? && r.value.worker == Idle && r.value.queue == rest && r.value.fed == s.fed + [item]
      && r.value.rxSession == s.session && r.value.fragments == s.fragments + [Fragment(s.conn, s.session)]
  {
    hide Run, Step;
    var toSend: seq<Action<T>> := [Notify(true)] + ([Done] + []);
    var s1 := ItemIsFed(s, item, rest, [ReadHandle] + ([CheckSession] + ([CheckSubscribed] + toSend)));
    ChecksPass(s1, toSend);
    var s2 := FragmentSent(s1.(worker := Sending(s1.conn)));
  }

  /** While the session answered is over, or nobody subscribed, the reply stops at the
      check. */
  lemma StaleIsNotAnswered<T>(s: State<T>)
    ensures s.worker.HandleRead? && s.rxSession != s.session ==>
      Step(s, CheckSession) == Some(s.(worker := Executing))
    ensures s.worker.SessionChecked? && !s.subscribed ==> Step(s, CheckSubscribed) == Some(s.(worker := Executing))
    ensures s.worker.Sending? ==> Step(s, Notify(false)) == Some(s.(worker := Executing)) == Step(s, FailTx)
  {
    assert s.fragments + [] == s.fragments;
  }

  lemma AssignOne<T>(s: State<T>, more: seq<Action<T>>)
    requires Assigns(s).Some?
    ensures Run(s, [HostAssigns] + more) == Run(Assigns(s).value, more)
  {
    hide Run, Assigns;
    assert Step(s, HostAssigns) == Assigns(s);
    RunFirst(s, HostAssigns, more);
  }

  lemma AssignAll<T>(s: State<T>)
    requires (s.host.Connecting? || s.host.Disconnecting?) && s.host.left == 4
    ensures var t := Run(s, [HostAssigns, HostAssigns, HostAssigns, HostAssigns]);
      t.Some? && t.value.host == Ready
      && SharedOf(t.value) ==
         if s.host.Connecting? then Connected(SharedOf(s), s.host.handle) else Disconnected(SharedOf(s))
  {
    hide Run, Step;
    var s1 := Assigns(s).value;
    var s2 := Assigns(s1).value;
    var s3 := Assigns(s2).value;
    AssignOne(s, [HostAssigns, HostAssigns, HostAssigns]);
    AssignOne(s1, [HostAssigns, HostAssigns]);
    AssignOne(s2, [HostAssigns]);
    AssignOne(s3, []);
    var a: Action<T> := HostAssigns;
    assert [a] + [a, a, a] == [a, a, a, a] && [a] + [a, a] == [a, a, a] && [a] + [a] == [a, a] && [a] + [] == [a];
    RunNone(Assigns(s3).value);
  }

  /** The connect handler is the four assignments of the machine. */
  lemma ConnectIsSteps<T>(s: State<T>, handle: nat)
    requires s.host == Ready && !s.up
    ensures var t := Run(s, [Connect(handle)] + [HostAssigns, HostAssigns, HostAssigns, HostAssigns]);
      t.Some? && t.value.host == Ready && SharedOf(t.value) == Connected(SharedOf(s), handle)
  {
    hide Run, Assigns;
    var s1 := s.(host := Connecting(handle, 4));
    RunFirst(s, Connect(handle), [HostAssigns, HostAssigns, HostAssigns, HostAssigns]);
    AssignAll(s1);
  }

  /** So is the disconnect handler. */
  lemma DisconnectIsSteps<T>(s: State<T>)
    requires s.host == Ready && s.up
    ensures var t := Run(s, [Disconnect] + [HostAssigns, HostAssigns, HostAssigns, HostAssigns]);
      t.Some? && t.value.host == Ready && SharedOf(t.value) == Disconnected(SharedOf(s))
  {
    hide Run, Assigns;
    var s1 := s.(host := Disconnecting(4));
    RunFirst(s, Disconnect, [HostAssigns, HostAssigns, HostAssigns, HostAssigns]);
    AssignAll(s1);
  }

  function Enqueues<T>(n: nat): seq<Action<T>> {
    if n == 0 then [] else [Enqueue] + Enqueues(n - 1)
  }

  lemma {:induction false} EnqueuesRun<T>(s: State<T>, n: nat)
    requires s.host.Queueing? && n <= |s.host.rest| && |s.queue| + n <= RX_DEPTH
    ensures var t := Run(s, Enqueues(n));
      && t.Some? && t.value.host == Queueing(s.host.rest[n..])
      && SharedOf(t.value) == SharedOf(s).(queue := s.queue + s.host.rest[..n])
    decreases n
  {
    hide Run;
    if n == 0 {
      RunNone(s);
      assert s.queue + [] == s.queue;
    } else {
      var t := Step(s, Enqueue).value;
      RunFirst(s, Enqueue, Enqueues<T>(n - 1));
      EnqueuesRun(t, n - 1);
      assert s.host.rest[..n] == [s.host.rest[0]] + s.host.rest[1..][..n - 1];
    }
  }

  /** The steps the write handler makes. */
  function WriteActs<T>(s: Shared<T>, data: seq<T>, copies: nat): seq<Action<T>> {
    var n := |Chunks(data)|;
    [Write(data)] + if !s.secure || n > RX_DEPTH - |s.queue| then []
                    else if copies < n then Enqueues<T>(copies) + [CopyFails] else Enqueues<T>(n) + [Enqueue]
  }

  /** The write handler is the steps of the machine: the write let in, its pieces
      one by one, and the failed copy if there is one. */
  lemma WriteIsSteps<T>(s: State<T>, data: seq<T>, copies: nat)
    requires s.host == Ready && |s.queue| <= RX_DEPTH
    ensures var t := Run(s, WriteActs(SharedOf(s), data, copies));
      t.Some? && t.value.host == Ready && SharedOf(t.value) == Received(SharedOf(s), data, copies).0
  {
    hide Run, Chunks, Enqueues;
    var n, t := |Chunks(data)|, Step(s, Write(data)).value;
    ChunksOfWrite(data);
    if !s.secure || n > RX_DEPTH - |s.queue| {
      RunFirst(s, Write(data), []);
      RunNone(t);
    } else {
      var k := Min(n, copies);
      var last: Action<T> := if copies < n then CopyFails else Enqueue;
      EnqueuesRun(t, k);
      var u := Run(t, Enqueues<T>(k)).value;
      RunAppend(t, Enqueues<T>(k), [last]);
      RunFirst(u, last, []);
      assert [last] + [] == [last];
      RunNone(Step(u, last).value);
      RunFirst(s, Write(data), Enqueues<T>(k) + [last]);
      assert t.host.rest[..n] == t.host.rest;
    }
  }

  // A write that is cut

  /** A client connects, is found securely bonded, and makes a write of which only
      the first piece can be copied. */
  function FailingRun<T>(data: seq<T>): seq<Action<T>> {
    [Connect(1)] + ([HostAssigns] + ([HostAssigns] + ([HostAssigns] + ([HostAssigns] + FailingWrite(data)))))
  }

  function FailingWrite<T>(data: seq<T>): seq<Action<T>> {
    [CheckSecurity(1, 1)] + ([Write(data)] + ([Enqueue] + ([CopyFails] + [])))
  }

  lemma ConnectsFirst<T>(s: State<T>, more: seq<Action<T>>)
    requires Initial(s)
    ensures Run(s, [Connect(1)] + ([HostAssigns] + ([HostAssigns] + ([HostAssigns] + ([HostAssigns] + more)))))
            == Run(s.(conn := Some(1), session := 1, up := true, handles := map[1 := 1]), more)
  {
    hide Run;
    var s1 := s.(host := Connecting(1, 4));
    var s2 := Assigns(s1).value;
    var s3 := Assigns(s2).value;
    var s4 := Assigns(s3).value;
    RunFirst(s, Connect(1), [HostAssigns] + ([HostAssigns] + ([HostAssigns] + ([HostAssigns] + more))));
    AssignOne(s1, [HostAssigns] + ([HostAssigns] + ([HostAssigns] + more)));
    AssignOne(s2, [HostAssigns] + ([HostAssigns] + more));
    AssignOne(s3, [HostAssigns] + more);
    AssignOne(s4, more);
    assert Assigns(s4).value == s.(conn := Some(1), session := 1, up := true, handles := map[1 := 1]);
  }

  lemma TwoPieces<T>(data: seq<T>)
    requires RX_CHUNK < |data| <= 2 * RX_CHUNK
    ensures Chunks(data) == [data[..RX_CHUNK], data[RX_CHUNK..]]
  {
    assert [data[..RX_CHUNK]] + [data[RX_CHUNK..]] == [data[..RX_CHUNK], data[RX_CHUNK..]];
  }

  /** Of a write of two pieces only the first is taken when the copy of the second
      fails: the one piece stays queued, though the client is told of the failure. */
  lemma CutWrite<T>(s: State<T>, data: seq<T>)
    requires Initial(s) && RX_CHUNK < |data| <= 2 * RX_CHUNK
    ensures var t := Run(s, FailingRun(data));
      && t.Some? && t.value.host == Ready && t.value.failed == 1
      && t.value.given == [Item(1, data)] && t.value.accepted == [Item(1, data[..RX_CHUNK])]
      && t.value.queue == [Item(1, data[..RX_CHUNK])]
  {
    hide Run;
    var first, last := Item(1, data[..RX_CHUNK]), Item(1, data[RX_CHUNK..]);
    var up := s.(conn := Some(1), session := 1, up := true, handles := map[1 := 1]);
    var s1 := up.(secure := true, secured := {1});
    var s2 := s1.(host := Queueing([first, last]), given := [Item(1, data)], accepted := [Item(1, data)]);
    var s3 := s2.(host := Queueing([last]), queue := [first], queued := [first]);
    var s4 := s3.(host := Ready, accepted := [first], failed := 1);
    hide Step, FailingWrite;
    ConnectsFirst(s, FailingWrite(data));
    Secured(up, s1);
    LetIn(s1, data, s2);
    FirstPieceIn(s2, data, s3);
    LastCut(s3, data, s4);
    FailingWriteRuns(up, s1, s2, s3, s4, data);
  }

  lemma FailingWriteRuns<T>(s: State<T>, s1: State<T>, s2: State<T>, s3: State<T>, s4: State<T>, data: seq<T>)
    requires Step(s, CheckSecurity(1, 1)) == Some(s1) && Step(s1, Write(data)) == Some(s2)
    requires Step(s2, Enqueue) == Some(s3) && Step(s3, CopyFails) == Some(s4)
    ensures Run(s, FailingWrite(data)) == Some(s4)
  {
    hide Run, Step;
    RunFirst(s, CheckSecurity(1, 1), [Write(data)] + ([Enqueue] + ([CopyFails] + [])));
    RunFirst(s1, Write(data), [Enqueue] + ([CopyFails] + []));
    RunFirst(s2, Enqueue, [CopyFails] + []);
    RunFirst(s3, CopyFails, []);
    RunNone(s4);
  }

  lemma Secured<T>(s: State<T>, t: State<T>)
    requires s.host == Ready && s.session == 1 && s.conn == Some(1) && s.secured == {}
    requires t == s.(secure := true, secured := {1})
    ensures Step(s, CheckSecurity(1, 1)) == Some(t)
  {
    assert {} + {1} == {1};
  }

  lemma FirstPieceIn<T>(s: State<T>, data: seq<T>, t: State<T>)
    requires |data| > RX_CHUNK && s.queue == s.queued == []
    requires var first, last := Item(1, data[..RX_CHUNK]), Item(1, data[RX_CHUNK..]);
      && s.host == Queueing([first, last])
      && t == s.(host := Queueing([last]), queue := [first], queued := [first])
    ensures Step(s, Enqueue) == Some(t)
  {
    var first, last := Item(1, data[..RX_CHUNK]), Item(1, data[RX_CHUNK..]);
    assert [first, last][1..] == [last] && [] + [first] == [first];
  }

  lemma LetIn<T>(s: State<T>, data: seq<T>, t: State<T>)
    requires s.host == Ready && s.secure && s.queue == [] && s.session == 1 && s.given == s.accepted == []
    requires RX_CHUNK < |data| <= 2 * RX_CHUNK
    requires t == s.(host := Queueing([Item(1, data[..RX_CHUNK]), Item(1, data[RX_CHUNK..])]),
                     given := [Item(1, data)], accepted := [Item(1, data)])
    ensures Step(s, Write(data)) == Some(t)
  {
    TwoPieces(data);
    ChunksOfWrite(data);
    hide Chunks;
    assert Stamped(1, Chunks(data)) == [Item(1, data[..RX_CHUNK]), Item(1, data[RX_CHUNK..])];
    assert [] + [Item(1, data)] == [Item(1, data)];
  }

  lemma LastCut<T>(s: State<T>, data: seq<T>, t: State<T>)
    requires |data| > RX_CHUNK && s.host == Queueing([Item(1, data[RX_CHUNK..])]) && s.accepted == [Item(1, data)]
    requires t == s.(host := Ready, accepted := [Item(1, data[..RX_CHUNK])], failed := s.failed + 1)
    ensures Step(s, CopyFails) == Some(t)
  {
    BytesOne(Item(1, data[RX_CHUNK..]));
    assert |data| - (|data| - RX_CHUNK) == RX_CHUNK;
    assert CutLast([Item(1, data)], |data| - RX_CHUNK) == [Item(1, data[..RX_CHUNK])];
  }
}
