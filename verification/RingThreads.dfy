/** The byte ring (helpers/ring_buffer.c) between two threads. Each call is cut
    into its load, copy and publish steps, and the two sides interleave freely.
    A load of the other side's index may return any value that index had
    between this side's previous load and now, which is what acquire loads of
    release stores allow. */
module RingThreads {
  import opened Common
  import opened Wrapping
  import opened RingBuffer

  datatype Producer<T> =
    | Resting
    | Writing(data: seq<T>, copied: nat)   // inside usbscpi_ring_write

  datatype Consumer<T> =
    | Waiting
    | Reading(n: nat, got: seq<T>)         // n elements found, some copied out

  datatype State<T> = State(
    cells: seq<T>,
    w: nat,                // indices wrap at 2^w
    head: nat,             // the shared words
    tail: nat,
    producer: Producer<T>,
    consumer: Consumer<T>,
    written: nat,          // the same indices without the wrap
    taken: nat,
    seenTail: nat,         // what the producer last observed of taken
    seenHead: nat,         // what the consumer last observed of written
    accepted: seq<T>,      // every element published so far
    read: seq<T>)          // every element handed to the consumer so far

  datatype Action<T> =
    | LoadFree(t: nat)                      // ring_free
    | LoadTail(data: seq<T>, t: nat)        // ring_write: how much fits
    | Store                                 // ring_write: one element into its cell
    | PublishHead                           // ring_write: the new head
    | LoadHead(len: nat, h: nat)            // ring_read: how much there is
    | Peek(h: nat)                          // ring_peek_linear
    | Fetch                                 // one element out of its cell
    | PublishTail                           // ring_read: the new tail
    | Advance(len: nat, h: nat)             // ring_advance by part of what was peeked
    | GiveUp                                // what was peeked is left where it is

  predicate ByProducer<T>(a: Action<T>) {
    a.LoadFree? || a.LoadTail? || a.Store? || a.PublishHead?
  }

  function Cell<T>(s: State<T>, index: nat): nat
    requires |s.cells| > 0
  {
    And(Word(index, s.w), |s.cells| - 1)
  }

  ghost predicate Inv<T>(s: State<T>) {
    && Shape(s) && Order(s) && Stored(s) && Copied(s)
  }

  ghost predicate Shape<T>(s: State<T>) {
    && (exists k: nat :: k < s.w && |s.cells| == Pow2(k))
    && s.head == Word(s.written, s.w) && s.tail == Word(s.taken, s.w)
  }

  /** What each side has seen of the other bounds what it may touch. */
  ghost predicate Order<T>(s: State<T>) {
    && s.seenTail <= s.taken <= s.seenHead <= s.written == |s.accepted|
    && s.written + (if s.producer.Writing? then |s.producer.data| else 0) <= s.seenTail + |s.cells|
    && (s.producer.Writing? ==> s.producer.copied <= |s.producer.data|)
    && (s.consumer.Reading? ==> |s.consumer.got| <= s.consumer.n <= s.seenHead - s.taken)
  }

  /** What has been handed over is everything the tail has passed. */
  ghost predicate InOrder<T>(s: State<T>) {
    s.taken <= |s.accepted| && s.read == s.accepted[..s.taken]
  }

  /** The cells hold what was accepted and not yet released, and behind it the
      part of the running write that has been copied. */
  ghost predicate Stored<T>(s: State<T>)
    requires Order(s)
  {
    |s.cells| > 0 &&
    match s.producer
    case Resting => Window(s.cells, s.taken, s.written - s.taken) == s.accepted[s.taken..]
    case Writing(data, copied) =>
      Window(s.cells, s.taken, s.written - s.taken + copied) == s.accepted[s.taken..] + data[..copied]
  }

  ghost predicate Copied<T>(s: State<T>)
    requires Order(s)
  {
    s.consumer.Reading? ==> s.consumer.got == s.accepted[s.taken..s.taken + |s.consumer.got|]
  }

  /** One step, None where the action is not possible. The code works on the
      machine words head and tail; the unwrapped indices and the histories are
      bookkeeping. */
  function Step<T>(s: State<T>, a: Action<T>): Option<State<T>> {
    match a
    case LoadFree(t) =>
      if s.producer.Resting? && s.seenTail <= t <= s.taken then Some(s.(seenTail := t)) else None
    case LoadTail(data, t) =>
      if s.producer.Resting? && s.seenTail <= t <= s.taken then
        var free := |s.cells| - Distance(s.head, Word(t, s.w), s.w);
        if free < 0 then None
        else Some(s.(seenTail := t, producer := Writing(data[..Min(|data|, free)], 0)))
      else None
    case Store =>
      if s.producer.Writing? && s.producer.copied < |s.producer.data| && |s.cells| > 0 then
        var i := s.producer.copied;
        Some(s.(cells := s.cells[Cell(s, s.head + i) := s.producer.data[i]],
                producer := s.producer.(copied := i + 1)))
      else None
    case PublishHead =>
      if s.producer.Writing? && s.producer.copied == |s.producer.data| then
        var n := |s.producer.data|;
        Some(s.(head := Word(s.head + n, s.w), producer := Resting,
                written := s.written + n, accepted := s.accepted + s.producer.data))
      else None
    case LoadHead(len, h) =>
      if s.consumer.Waiting? && s.seenHead <= h <= s.written then
        var count := Distance(Word(h, s.w), s.tail, s.w);
        Some(s.(seenHead := h, consumer := Reading(Min(len, count), [])))
      else None
    case Peek(h) =>
      if s.consumer.Waiting? && s.seenHead <= h <= s.written && |s.cells| > 0 then
        var count := Distance(Word(h, s.w), s.tail, s.w);
        var linear := |s.cells| - Cell(s, s.tail);
        Some(s.(seenHead := h, consumer := Reading(Min(linear, count), [])))
      else None
    case Fetch =>
      if s.consumer.Reading? && |s.consumer.got| < s.consumer.n && |s.cells| > 0 then
        var i := |s.consumer.got|;
        Some(s.(consumer := s.consumer.(got := s.consumer.got + [s.cells[Cell(s, s.tail + i)]])))
      else None
    case PublishTail =>
      if s.consumer.Reading? && |s.consumer.got| == s.consumer.n then
        Some(Release(s, s.consumer.n))
      else None
    case Advance(len, h) =>
      if s.consumer.Reading? && len <= |s.consumer.got| && s.seenHead <= h <= s.written then
        var count := Distance(Word(h, s.w), s.tail, s.w);
        Some(Release(s.(seenHead := h), Min(len, count)))
      else None
    case GiveUp =>
      if s.consumer.Reading? then Some(s.(consumer := Waiting)) else None
  }

  /** ring_advance over elements that were never read. */
  function Skip<T>(s: State<T>, len: nat, h: nat): (r: Option<State<T>>) {
    if s.consumer.Waiting? && s.seenHead <= h <= s.written then
      var n := Min(len, Distance(Word(h, s.w), s.tail, s.w));
      Some(s.(seenHead := h, tail := Word(s.tail + n, s.w), taken := s.taken + n))
    else None
  }

  /** The consumer keeps the first n elements it copied and frees their cells. */
  function Release<T>(s: State<T>, n: nat): State<T>
    requires s.consumer.Reading? && n <= |s.consumer.got|
  {
    s.(tail := Word(s.tail + n, s.w), taken := s.taken + n, consumer := Waiting,
       read := s.read + s.consumer.got[..n])
  }

  function Run<T>(s: State<T>, acts: seq<Action<T>>): Option<State<T>>
    decreases |acts|
  {
    if acts == [] then Some(s)
    else
      match Step(s, acts[0])
      case None => None
      case Some(next) => Run(next, acts[1..])
  }

  ghost predicate Initial<T>(s: State<T>, k: nat, w: nat) {
    && k < w && s.w == w && |s.cells| == Pow2(k)
    && s.head == s.tail == s.written == s.taken == s.seenTail == s.seenHead == 0
    && s.producer == Resting && s.consumer == Waiting
    && s.accepted == s.read == []
  }

  lemma InitialInv<T>(s: State<T>, k: nat, w: nat)
    requires Initial(s, k, w)
    ensures Inv(s) && InOrder(s)
  {
    WordZero(w);
    assert s.accepted[..0] == s.accepted;
    assert Window(s.cells, 0, 0) == s.accepted[0..];
  }

  lemma SizeBelowWrap<T>(s: State<T>)
    requires Shape(s)
    ensures 0 < |s.cells| < Pow2(s.w)
  {
    var k: nat :| k < s.w && |s.cells| == Pow2(k);
    PowGrows(k, s.w);
  }

  lemma {:induction false} PowGrows(k: nat, w: nat)
    requires k < w
    ensures Pow2(k) < Pow2(w)
    decreases w
  {
    if k + 1 < w { PowGrows(k, w - 1); }
  }

  /** The masked wrapped index is the cell of the unwrapped position. */
  lemma CellIsSlot<T>(s: State<T>, x: nat, i: nat)
    requires Shape(s)
    ensures |s.cells| > 0 && Cell(s, Word(x, s.w) + i) == Slot(x + i, |s.cells|)
  {
    var k: nat :| k < s.w && |s.cells| == Pow2(k);
    WordCell(x, i, k, s.w);
  }

  /** What the producer computes from a stale tail is room it really has. */
  lemma FreeIsSafe<T>(s: State<T>, t: nat)
    requires Shape(s) && Order(s) && s.producer.Resting? && s.seenTail <= t <= s.taken
    ensures |s.cells| - Distance(s.head, Word(t, s.w), s.w) == t + |s.cells| - s.written >= 0
  {
    hide Pow2;
    SizeBelowWrap(s);
    WordDistance(s.written, t, s.w);
  }

  /** What the consumer computes from a stale head really is there. */
  lemma CountIsSafe<T>(s: State<T>, h: nat)
    requires Shape(s) && Order(s) && s.seenHead <= h <= s.written
    ensures Distance(Word(h, s.w), s.tail, s.w) == h - s.taken
  {
    hide Pow2;
    SizeBelowWrap(s);
    WordDistance(h, s.taken, s.w);
  }

  lemma StoreKeepsInv<T>(s: State<T>)
    requires Inv(s) && Step(s, Store).Some?
    ensures Inv(Step(s, Store).value)
  {
    hide Window, Slot, Cell, Word, Pow2, Distance;
    var next := Step(s, Store).value;
    var data, i := s.producer.data, s.producer.copied;
    CellIsSlot(s, s.written, i);
    WindowPut(s.cells, s.taken, s.written - s.taken + i, data[i]);
    assert s.taken + (s.written - s.taken + i) == s.written + i;
    Assoc(s.accepted[s.taken..], data[..i], [data[i]]);
    assert data[..i + 1] == data[..i] + [data[i]];
    assert |next.cells| == |s.cells|;
  }

  lemma PublishHeadKeepsInv<T>(s: State<T>)
    requires Inv(s) && Step(s, PublishHead).Some?
    ensures Inv(Step(s, PublishHead).value)
  {
    hide Window, Slot, Cell, Pow2, Distance;
    var next := Step(s, PublishHead).value;
    var data := s.producer.data;
    WordAdvance(s.written, |data|, s.w);
    assert data[..|data|] == data;
    DropOfAppend(s.accepted, data, s.taken);
    SliceOfAppend(s.accepted, data, 0, s.taken);
    if s.consumer.Reading? {
      SliceOfAppend(s.accepted, data, s.taken, s.taken + |s.consumer.got|);
    }
  }

  lemma FetchKeepsInv<T>(s: State<T>)
    requires Inv(s) && Step(s, Fetch).Some?
    ensures Inv(Step(s, Fetch).value)
  {
    hide Slot, Cell, Word, Pow2, Distance;
    var i := |s.consumer.got|;
    CellIsSlot(s, s.taken, i);
    FetchedIsAccepted(s, i);
    assert s.accepted[s.taken..s.taken + i + 1] == s.accepted[s.taken..s.taken + i] + [s.accepted[s.taken + i]];
  }

  lemma FetchedIsAccepted<T>(s: State<T>, i: nat)
    requires Inv(s) && s.taken + i < s.written
    ensures s.cells[Slot(s.taken + i, |s.cells|)] == s.accepted[s.taken + i]
  {
    hide Slot, Pow2, Word, Shape;
    var n := s.written - s.taken + (if s.producer.Writing? then s.producer.copied else 0);
    var window := Window(s.cells, s.taken, n);
    assert window[i] == s.cells[Slot(s.taken + i, |s.cells|)];
    assert window[i] == s.accepted[s.taken..][i];
  }

  /** Moving the tail over n published elements. */
  lemma FreeingKeepsInv<T>(s: State<T>, n: nat, next: State<T>)
    requires Inv(s) && s.taken + n <= s.seenHead
    requires next == s.(tail := Word(s.tail + n, s.w), taken := s.taken + n, consumer := Waiting, read := next.read)
    ensures Inv(next)
  {
    hide Slot, Cell, Pow2, Distance, Window;
    WordAdvance(s.taken, n, s.w);
    var copied := if s.producer.Writing? then s.producer.copied else 0;
    WindowSplits(s.cells, s.taken, n, s.written - s.taken - n + copied);
    var tail := if s.producer.Writing? then s.producer.data[..copied] else [];
    assert Window(s.cells, s.taken, s.written - s.taken + copied) == s.accepted[s.taken..] + tail;
    DropOfAppend(s.accepted[s.taken..], tail, n);
    DropDrop(s.accepted, s.taken, n);
  }

  lemma ReleaseKeepsInv<T>(s: State<T>, n: nat)
    requires Inv(s) && s.consumer.Reading? && n <= |s.consumer.got|
    ensures Inv(Release(s, n))
  {
    hide Word, Stored, Shape;
    FreeingKeepsInv(s, n, Release(s, n));
  }

  lemma SkipKeepsInv<T>(s: State<T>, len: nat, h: nat)
    requires Inv(s) && Skip(s, len, h).Some?
    ensures var next := Skip(s, len, h).value;
      && Inv(next) && next.taken == s.taken + Min(len, h - s.taken)
      && next == s.(seenHead := h, tail := next.tail, taken := next.taken)
  {
    hide Word, Distance, Window;
    CountIsSafe(s, h);
    FreeingKeepsInv(s.(seenHead := h), Min(len, h - s.taken), Skip(s, len, h).value);
  }

  lemma ProducerLoadKeepsInv<T>(s: State<T>, a: Action<T>)
    requires Inv(s) && Step(s, a).Some? && (a.LoadFree? || a.LoadTail?)
    ensures Inv(Step(s, a).value)
  {
    hide Window, Cell, Word, Distance;
    FreeIsSafe(s, a.t);
    if a.LoadTail? {
      assert s.accepted[s.taken..] + a.data[..0] == s.accepted[s.taken..];
    }
  }

  lemma ConsumerLoadKeepsInv<T>(s: State<T>, a: Action<T>)
    requires Inv(s) && Step(s, a).Some? && (a.LoadHead? || a.Peek?)
    ensures Inv(Step(s, a).value)
  {
    hide Window, Cell, Word, Distance;
    CountIsSafe(s, a.h);
  }

  lemma AdvanceKeepsInv<T>(s: State<T>, a: Action<T>)
    requires Inv(s) && Step(s, a).Some? && a.Advance?
    ensures Inv(Step(s, a).value)
  {
    hide Window, Word, Distance, Release;
    CountIsSafe(s, a.h);
    ReleaseKeepsInv(s.(seenHead := a.h), Min(a.len, a.h - s.taken));
  }

  lemma StepKeepsInv<T>(s: State<T>, a: Action<T>)
    requires Inv(s) && Step(s, a).Some?
    ensures Inv(Step(s, a).value)
  {
    hide Inv;
    match a
    case LoadFree(_) => ProducerLoadKeepsInv(s, a);
    case LoadTail(_, _) => ProducerLoadKeepsInv(s, a);
    case Store => StoreKeepsInv(s);
    case PublishHead => PublishHeadKeepsInv(s);
    case LoadHead(_, _) => ConsumerLoadKeepsInv(s, a);
    case Peek(_) => ConsumerLoadKeepsInv(s, a);
    case Fetch => FetchKeepsInv(s);
    case PublishTail =>
      assert s.consumer.n <= |s.consumer.got|;
      ReleaseKeepsInv(s, s.consumer.n);
    case Advance(_, _) => AdvanceKeepsInv(s, a);
    case GiveUp => GiveUpKeepsInv(s);
  }

  lemma GiveUpKeepsInv<T>(s: State<T>)
    requires Inv(s) && s.consumer.Reading?
    ensures Inv(s.(consumer := Waiting))
  {
    hide Window;
  }

  lemma StepKeepsOrder<T>(s: State<T>, a: Action<T>)
    requires Inv(s) && InOrder(s) && Step(s, a).Some?
    ensures InOrder(Step(s, a).value)
  {
    hide Word, Distance, Shape, Stored, Cell;
    match a
    case PublishHead => SliceOfAppend(s.accepted, s.producer.data, 0, s.taken);
    case PublishTail => ReleaseKeepsOrder(s, s.consumer.n);
    case Advance(len, h) =>
      CountIsSafe(s, h);
      ReleaseKeepsOrder(s.(seenHead := h), Min(len, Distance(Word(h, s.w), s.tail, s.w)));
    case _ =>
  }

  lemma ReleaseKeepsOrder<T>(s: State<T>, n: nat)
    requires InOrder(s) && s.consumer.Reading? && n <= |s.consumer.got| <= |s.accepted| - s.taken
    requires s.consumer.got == s.accepted[s.taken..s.taken + |s.consumer.got|]
    ensures InOrder(Release(s, n))
  {
    hide Word;
    SliceSplits(s.accepted, 0, s.taken, s.taken + n);
    DropTake(s.accepted, s.taken, 0, n);
    DropTake(s.consumer.got, 0, 0, n);
    assert s.consumer.got[..n] == s.accepted[s.taken..s.taken + n];
  }

  lemma {:induction false} RunKeepsInv<T>(s: State<T>, acts: seq<Action<T>>)
    requires Inv(s) && Run(s, acts).Some?
    ensures Inv(Run(s, acts).value)
    ensures InOrder(s) ==> InOrder(Run(s, acts).value)
    decreases |acts|
  {
    hide Inv, InOrder;
    if acts != [] {
      StepKeepsInv(s, acts[0]);
      if InOrder(s) { StepKeepsOrder(s, acts[0]); }
      RunKeepsInv(Step(s, acts[0]).value, acts[1..]);
    }
  }

  /** The queue is a queue under every interleaving: what has been read, and
      what is being read, are the elements accepted from the producer, in
      order, none twice and none missed; the distance of the machine words
      never exceeds the size. */
  lemma ReadIsPrefixOfAccepted<T>(s0: State<T>, k: nat, w: nat, acts: seq<Action<T>>)
    requires Initial(s0, k, w) && Run(s0, acts).Some?
    ensures var s := Run(s0, acts).value;
      && s.taken <= |s.accepted| && s.read == s.accepted[..s.taken]
      && (s.consumer.Reading? ==> s.read + s.consumer.got <= s.accepted)
      && Distance(s.head, s.tail, s.w) == |s.accepted| - |s.read| <= |s.cells|
  {
    InitialInv(s0, k, w);
    RunKeepsInv(s0, acts);
    var s := Run(s0, acts).value;
    hide Pow2, Window;
    SizeBelowWrap(s);
    WordDistance(s.written, s.taken, s.w);
  }

  /** No data race, under every interleaving: a cell is only read at a position
      below a head the consumer has observed, only written at a position whose
      previous element lies below a tail the producer has observed, and the
      two sides never have the same cell in hand. */
  lemma NoRace<T>(s0: State<T>, k: nat, w: nat, acts: seq<Action<T>>)
    requires Initial(s0, k, w) && Run(s0, acts).Some?
    ensures var s := Run(s0, acts).value;
      && (Step(s, Fetch).Some? ==> s.taken + |s.consumer.got| < s.seenHead <= |s.accepted|)
      && (Step(s, Store).Some? ==>
            s.written + s.producer.copied - |s.cells| < s.seenTail <= |s.read|)
      && (Step(s, Fetch).Some? && Step(s, Store).Some? ==>
            Cell(s, s.tail + |s.consumer.got|) != Cell(s, s.head + s.producer.copied))
  {
    InitialInv(s0, k, w);
    RunKeepsInv(s0, acts);
    var s := Run(s0, acts).value;
    hide Pow2, Window, Slot, Cell;
    if Step(s, Fetch).Some? && Step(s, Store).Some? {
      var i, j := |s.consumer.got|, s.producer.copied;
      CellIsSlot(s, s.taken, i);
      CellIsSlot(s, s.written, j);
      DistinctSlots(s.taken + i, s.written + j, |s.cells|);
    }
  }

  lemma DistinctSlots(x: nat, y: nat, size: nat)
    requires size > 0 && x < y < x + size
    ensures Slot(x, size) != Slot(y, size)
  {
    DistinctCells(x, y, size);
  }

  lemma ConsumerStepOnlyFrees<T>(s: State<T>, a: Action<T>)
    requires Step(s, a).Some? && !ByProducer(a)
    ensures var s' := Step(s, a).value;
      s'.seenTail == s.seenTail && s'.written == s.written && s'.producer == s.producer
      && |s'.cells| == |s.cells|
  {
    hide Cell, Word, Distance;
  }

  lemma {:induction false} ConsumerRunOnlyFrees<T>(s: State<T>, acts: seq<Action<T>>)
    requires Run(s, acts).Some?
    requires forall a :: a in acts ==> !ByProducer(a)
    ensures var s' := Run(s, acts).value;
      s'.seenTail == s.seenTail && s'.written == s.written && s'.producer == s.producer
      && |s'.cells| == |s.cells|
    decreases |acts|
  {
    hide Step;
    if acts != [] {
      ConsumerStepOnlyFrees(s, acts[0]);
      ConsumerRunOnlyFrees(Step(s, acts[0]).value, acts[1..]);
    }
  }

  /** Check, then write. Once ring_free has reported room for a record, the
      write that follows takes the whole record, whatever the consumer does in
      between and however stale the tail that either call loads. */
  lemma CheckedWriteIsWhole<T>(s: State<T>, t: nat, between: seq<Action<T>>, data: seq<T>, t': nat)
    requires Inv(s) && s.producer.Resting? && s.seenTail <= t <= s.taken
    requires |s.cells| - Distance(s.head, Word(t, s.w), s.w) >= |data|
    requires forall a :: a in between ==> !ByProducer(a)
    requires Run(s, [LoadFree(t)] + between + [LoadTail(data, t')]).Some?
    ensures Run(s, [LoadFree(t)] + between + [LoadTail(data, t')]).value.producer == Writing(data, 0)
  {
    var s1 := Step(s, LoadFree(t)).value;
    var acts := [LoadFree(t)] + between + [LoadTail(data, t')];
    assert acts[0] == LoadFree(t) && acts[1..] == between + [LoadTail(data, t')];
    FreeIsSafe(s, t);
    StepKeepsInv(s, LoadFree(t));
    RunAppend(s1, between, [LoadTail(data, t')]);
    var s2 := Run(s1, between).value;
    hide Inv;
    RunKeepsInv(s1, between);
    ConsumerRunOnlyFrees(s1, between);
    assert Run(s2, [LoadTail(data, t')]) == Step(s2, LoadTail(data, t')) by {
      assert [LoadTail(data, t')][1..] == [];
    }
    LoadTailWhole(s2, data, t');
  }

  lemma LoadTailWhole<T>(s: State<T>, data: seq<T>, t: nat)
    requires Inv(s) && Step(s, LoadTail(data, t)).Some? && s.written + |data| <= s.seenTail + |s.cells|
    ensures Step(s, LoadTail(data, t)).value.producer == Writing(data, 0)
  {
    hide Word, Distance, Window;
    FreeIsSafe(s, t);
    assert data[..|data|] == data;
  }

  lemma {:induction false} RunAppend<T>(s: State<T>, a: seq<Action<T>>, b: seq<Action<T>>)
    ensures Run(s, a + b) == match Run(s, a) case None => None case Some(m) => Run(m, b)
    decreases |a|
  {
    hide Step;
    if a == [] {
      assert a + b == b;
    } else {
      assert (a + b)[0] == a[0] && (a + b)[1..] == a[1..] + b;
      if Step(s, a[0]).Some? {
        RunAppend(Step(s, a[0]).value, a[1..], b);
      }
    }
  }

  /** Peek, use part, advance: the second load cannot find less than the first
      did, so exactly the part used is released. */
  lemma AdvanceIsExact<T>(s: State<T>, len: nat, h: nat)
    requires Inv(s) && Step(s, Advance(len, h)).Some?
    ensures var next := Step(s, Advance(len, h)).value;
      next.taken == s.taken + len && next.read == s.read + s.consumer.got[..len]
  {
    hide Window, Distance, Word;
    CountIsSafe(s, h);
  }

  /** What each call takes on, in terms of the true positions behind the words
      it loaded: a write as much as fits by the tail it saw, a read as much as
      was asked for and is there by the head it saw, a peek the front of that up
      to the end of the storage. */
  lemma LoadsAreExact<T>(s: State<T>, data: seq<T>, t: nat, len: nat, h: nat)
    requires Inv(s)
    ensures Step(s, LoadTail(data, t)).Some? ==>
      Step(s, LoadTail(data, t)).value.producer == Writing(data[..Min(|data|, t + |s.cells| - s.written)], 0)
    ensures Step(s, LoadHead(len, h)).Some? ==>
      Step(s, LoadHead(len, h)).value.consumer == Reading(Min(len, h - s.taken), [])
    ensures Step(s, Peek(h)).Some? ==>
      var n := Step(s, Peek(h)).value.consumer.n;
      n == Min(|s.cells| - Slot(s.taken, |s.cells|), h - s.taken)
  {
    hide Pow2, Window, Distance, Word, Cell, Slot;
    CellIsSlot(s, s.taken, 0);
    if Step(s, LoadTail(data, t)).Some? { FreeIsSafe(s, t); }
    if s.seenHead <= h <= s.written { CountIsSafe(s, h); }
  }

  // Calls that run to their end

  function Stores<T>(n: nat): (acts: seq<Action<T>>)
    ensures |acts| == n
  {
    seq(n, i => Store)
  }

  function Fetches<T>(n: nat): (acts: seq<Action<T>>)
    ensures |acts| == n
  {
    seq(n, i => Fetch)
  }

  lemma RunFirst<T>(s: State<T>, a: Action<T>, more: seq<Action<T>>)
    requires Step(s, a).Some?
    ensures Run(s, [a] + more) == Run(Step(s, a).value, more)
  {
    hide Step;
    assert ([a] + more)[1..] == more;
  }

  lemma RunNone<T>(s: State<T>)
    ensures Run(s, []) == Some(s)
  {
  }

  lemma {:induction false} StoresRun<T>(s: State<T>, n: nat)
    requires |s.cells| > 0 && s.producer.Writing? && s.producer.copied + n <= |s.producer.data|
    ensures var r := Run(s, Stores(n));
      r.Some? && r.value == s.(cells := r.value.cells, producer := Writing(s.producer.data, s.producer.copied + n))
              && |r.value.cells| == |s.cells|
    decreases n
  {
    hide And, Word;
    if n == 0 {
      RunNone(s);
    } else {
      var t := Step(s, Store).value;
      assert Stores<T>(n) == [Store] + Stores(n - 1);
      RunFirst(s, Store, Stores(n - 1));
      hide Step, Run, Stores;
      StoresRun(t, n - 1);
    }
  }

  /** A write that fits by the tail it saw runs to its end, whenever it is made, and
      then its data is accepted whole; of the consumer's it changes nothing. */
  lemma WriteCompletes<T>(s: State<T>, data: seq<T>, t: nat)
    requires Inv(s) && s.producer.Resting? && s.seenTail <= t <= s.taken && s.written + |data| <= t + |s.cells|
    ensures var r := Run(s, [LoadTail(data, t)] + (Stores(|data|) + ([PublishHead] + [])));
      && r.Some? && Inv(r.value) && r.value.producer == Resting && r.value.accepted == s.accepted + data
      && r.value.seenTail == t && r.value.written == s.written + |data|
      && r.value.consumer == s.consumer && r.value.read == s.read && r.value.taken == s.taken
      && r.value.seenHead == s.seenHead && |r.value.cells| == |s.cells|
  {
    LoadTailFits(s, data, t);
    var s1 := Step(s, LoadTail(data, t)).value;
    StoresRun(s1, |data|);
    var s2 := Run(s1, Stores(|data|)).value;
    var s3 := Step(s2, PublishHead).value;
    RunFirst(s, LoadTail(data, t), Stores(|data|) + ([PublishHead] + []));
    RunAppend(s1, Stores(|data|), [PublishHead] + []);
    RunFirst(s2, PublishHead, []);
    RunNone(s3);
    hide Inv, Stores, Step;
    RunKeepsInv(s, [LoadTail(data, t)] + (Stores(|data|) + ([PublishHead] + [])));
  }

  lemma LoadTailFits<T>(s: State<T>, data: seq<T>, t: nat)
    requires Inv(s) && s.producer.Resting? && s.seenTail <= t <= s.taken && s.written + |data| <= t + |s.cells|
    ensures Step(s, LoadTail(data, t)) == Some(s.(seenTail := t, producer := Writing(data, 0))) && |s.cells| > 0
  {
    hide Word, Distance, Window;
    FreeIsSafe(s, t);
    assert data[..|data|] == data;
  }

  lemma {:induction false} FetchesRun<T>(s: State<T>, n: nat)
    requires |s.cells| > 0 && s.consumer.Reading? && |s.consumer.got| + n <= s.consumer.n
    ensures var r := Run(s, Fetches(n));
      && r.Some? && r.value.consumer.Reading? && r.value.consumer.n == s.consumer.n
      && |r.value.consumer.got| == |s.consumer.got| + n && r.value == s.(consumer := r.value.consumer)
    decreases n
  {
    hide Cell;
    if n == 0 {
      RunNone(s);
    } else {
      var t := Step(s, Fetch).value;
      assert Fetches<T>(n) == [Fetch] + Fetches(n - 1);
      RunFirst(s, Fetch, Fetches(n - 1));
      hide Step, Run, Fetches;
      FetchesRun(t, n - 1);
    }
  }

  /** A read runs to its end, whenever it is made, and hands over as much as was asked
      for and is there by the head it saw, the oldest first; of the producer's it
      changes nothing. */
  lemma ReadCompletes<T>(s: State<T>, len: nat, h: nat)
    requires Inv(s) && InOrder(s) && s.consumer.Waiting? && s.seenHead <= h <= s.written
    ensures var n := Min(len, h - s.taken);
      var r := Run(s, [LoadHead(len, h)] + (Fetches(n) + ([PublishTail] + [])));
      && s.taken + n <= |s.accepted|
      && r.Some? && Inv(r.value) && r.value.consumer == Waiting
      && r.value.read == s.read + s.accepted[s.taken..s.taken + n] && r.value.taken == s.taken + n
      && r.value.accepted == s.accepted && r.value.producer == s.producer && r.value.written == s.written
  {
    var n := Min(len, h - s.taken);
    LoadHeadFinds(s, len, h);
    var s1 := Step(s, LoadHead(len, h)).value;
    FetchesRun(s1, n);
    var s2 := Run(s1, Fetches(n)).value;
    var s3 := Step(s2, PublishTail).value;
    RunFirst(s, LoadHead(len, h), Fetches(n) + ([PublishTail] + []));
    RunAppend(s1, Fetches(n), [PublishTail] + []);
    RunFirst(s2, PublishTail, []);
    RunNone(s3);
    hide Inv, InOrder, Step, Fetches;
    RunKeepsInv(s, [LoadHead(len, h)] + (Fetches(n) + ([PublishTail] + [])));
    ReadIsFront(s, s3, n);
  }

  lemma LoadHeadFinds<T>(s: State<T>, len: nat, h: nat)
    requires Inv(s) && s.consumer.Waiting? && s.seenHead <= h <= s.written
    ensures Step(s, LoadHead(len, h)) == Some(s.(seenHead := h, consumer := Reading(Min(len, h - s.taken), [])))
    ensures |s.cells| > 0 && h <= |s.accepted|
  {
    hide Word, Distance, Window;
    CountIsSafe(s, h);
  }

  lemma ReadIsFront<T>(s: State<T>, t: State<T>, n: nat)
    requires InOrder(s) && InOrder(t) && t.accepted == s.accepted && t.taken == s.taken + n
    ensures s.taken + n <= |s.accepted| && t.read == s.read + s.accepted[s.taken..s.taken + n]
  {
    SliceSplits(s.accepted, 0, s.taken, s.taken + n);
    assert s.accepted[0..s.taken] == s.accepted[..s.taken] && s.accepted[0..s.taken + n] == s.accepted[..s.taken + n];
  }
}
