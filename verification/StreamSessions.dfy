/** The record stream over TCP (glue/usbscpi_stream.c): a producer that checks
    for room and then writes whole records, and consumers that attach one after
    another, take as many bytes as their socket will, and vanish at any byte.
    Every step of the two threads is a step of the ring machine. */
module StreamSessions {
  import opened Common
  import opened Wrapping
  import opened RingBuffer
  import Ring = RingThreads

  datatype Link = Detached | Attached | Leaving

  /** A finished session: the record it started at and all it was sent. */
  datatype Session<T> = Session(first: nat, bytes: seq<T>)

  datatype State<T> = State(
    ring: Ring.State<T>,
    stride: nat,
    checked: bool,               // the producer has seen room for a record
    heads: set<nat>,             // every value the head has had
    records: seq<seq<T>>,        // every record published
    link: Link,
    first: nat,                  // of the running session
    sent: seq<T>,
    sessions: seq<Session<T>>,
    torn: nat)

  datatype Action<T> =
    | Check(t: nat)              // producer: ring_free
    | Begin(record: seq<T>, t: nat)
    | Store
    | Publish
    | Accept
    | Peek(h: nat)               // consumer: ring_peek_linear
    | Fetch                      // send copies a byte out of the ring
    | Took(n: nat, h: nat)       // send accepted n bytes, then ring_advance
    | Refused                    // send would block, or there was nothing
    | Leave                      // closed, reset or failed, at any point
    | Realign(h: nat, h': nat)   // the two counts realign takes, then detach

  function Set<T>(s: State<T>, r: Option<Ring.State<T>>): Option<State<T>> {
    match r
    case None => None
    case Some(ring) => Some(s.(ring := ring))
  }

  /** One step. A load of the head returns some value the head has had. The
      first test of peek_linear loads the head once more; a load that finds
      nothing and a load that finds something both appear here as the last
      load of the call. */
  function Step<T>(s: State<T>, a: Action<T>): Option<State<T>> {
    match a
    case Check(t) =>
      var room := |s.ring.cells| - Distance(s.ring.head, Word(t, s.ring.w), s.ring.w);
      Set(s.(checked := room >= s.stride), Ring.Step(s.ring, Ring.LoadFree(t)))
    case Begin(record, t) =>
      if s.checked && |record| == s.stride then
        Set(s.(checked := false), Ring.Step(s.ring, Ring.LoadTail(record, t)))
      else None
    case Store => Set(s, Ring.Step(s.ring, Ring.Store))
    case Publish =>
      if Ring.Step(s.ring, Ring.PublishHead).Some? then
        var ring := Ring.Step(s.ring, Ring.PublishHead).value;
        Some(s.(ring := ring, heads := s.heads + {ring.written},
                records := s.records + [s.ring.producer.data]))
      else None
    case Accept =>
      if s.link == Detached then
        Some(s.(link := Attached, first := NextFirst(s.sessions, s.stride), sent := []))
      else None
    case Peek(h) =>
      if s.link == Attached && h in s.heads then Set(s, Ring.Step(s.ring, Ring.Peek(h))) else None
    case Fetch => Set(s, Ring.Step(s.ring, Ring.Fetch))
    case Took(n, h) =>
      if s.link == Attached && h in s.heads && s.ring.consumer.Reading? && 1 <= n <= |s.ring.consumer.got| then
        Set(s.(sent := s.sent + s.ring.consumer.got[..n]), Ring.Step(s.ring, Ring.Advance(n, h)))
      else None
    case Refused =>
      if s.link == Attached then Set(s, Ring.Step(s.ring, Ring.GiveUp)) else None
    case Leave =>
      if s.link == Attached && s.ring.consumer.Waiting? then Some(s.(link := Leaving)) else None
    case Realign(h, h') =>
      if s.link == Leaving && h in s.heads && h' in s.heads && s.ring.seenHead <= h <= h' then
        var closed := s.(link := Detached, sessions := s.sessions + [Session(s.first, s.sent)]);
        var count := Distance(Word(h, s.ring.w), s.ring.tail, s.ring.w);
        if s.stride <= 1 then Some(closed)
        else if count % s.stride == 0 then Some(closed.(ring := s.ring.(seenHead := h)))
        else Set(closed.(torn := s.torn + 1), Ring.Skip(s.ring.(seenHead := h), count % s.stride, h'))
      else None
  }

  function Run<T>(s: State<T>, acts: seq<Action<T>>): Option<State<T>>
    decreases |acts|
  {
    if acts == [] then Some(s)
    else
      match Step(s, acts[0])
      case None => None
      case Some(next) => Run(next, acts[1..])
  }

  ghost predicate Initial<T>(s: State<T>, k: nat, w: nat) {
    && Ring.Initial(s.ring, k, w) && s.stride >= 1 && !s.checked && s.heads == {0}
    && s.records == [] && s.link == Detached && s.sessions == [] && s.torn == 0
  }

  // What the sessions amount to, in records

  function Whole<T>(x: Session<T>, stride: nat): nat
    requires stride >= 1
  {
    |x.bytes| / stride
  }

  /** The record after n bytes from record `first` on; a cut record is used up. */
  function Used(first: nat, n: nat, stride: nat): nat
    requires stride >= 1
  {
    first + n / stride + (if n % stride != 0 then 1 else 0)
  }

  predicate EndsMidRecord<T>(x: Session<T>, stride: nat)
    requires stride >= 1
  {
    |x.bytes| % stride != 0
  }

  /** The record after everything the sessions used up. */
  function NextFirst<T>(sessions: seq<Session<T>>, stride: nat): nat {
    if sessions == [] || stride == 0 then 0
    else
      var x := sessions[|sessions| - 1];
      Used(x.first, |x.bytes|, stride)
  }

  function TornCount<T>(sessions: seq<Session<T>>, stride: nat): nat
    requires stride >= 1
  {
    if sessions == [] then 0
    else
      TornCount(sessions[..|sessions| - 1], stride)
      + (if EndsMidRecord(sessions[|sessions| - 1], stride) then 1 else 0)
  }

  /** Each session starts where the records used up before it end. */
  predicate Chained<T>(sessions: seq<Session<T>>, stride: nat) {
    forall i :: 0 <= i < |sessions| ==> sessions[i].first == NextFirst(sessions[..i], stride)
  }

  ghost predicate Sliced<T>(bytes: seq<T>, accepted: seq<T>, at: nat) {
    at + |bytes| <= |accepted| && bytes == accepted[at..at + |bytes|]
  }

  ghost predicate Recorded<T>(sessions: seq<Session<T>>, accepted: seq<T>, stride: nat) {
    forall i :: 0 <= i < |sessions| ==> Sliced(sessions[i].bytes, accepted, stride * sessions[i].first)
  }

  ghost predicate Uniform<T>(records: seq<seq<T>>, stride: nat) {
    forall i :: 0 <= i < |records| ==> |records[i]| == stride
  }

  ghost predicate Produced<T>(s: State<T>) {
    && s.stride >= 1
    && Uniform(s.records, s.stride) && s.ring.accepted == Flat(s.records)
    && (s.ring.producer.Writing? ==> |s.ring.producer.data| == s.stride)
    && (s.checked ==> s.ring.producer.Resting? && s.ring.written + s.stride <= s.ring.seenTail + |s.ring.cells|)
    && (forall h :: h in s.heads ==> h % s.stride == 0 && h <= s.ring.written)
  }

  ghost predicate Consumed<T>(s: State<T>) {
    && s.stride >= 1
    && Chained(s.sessions, s.stride) && Recorded(s.sessions, s.ring.accepted, s.stride)
    && s.torn == TornCount(s.sessions, s.stride)
    && match s.link
       case Detached => s.ring.consumer.Waiting? && s.ring.taken == s.stride * NextFirst(s.sessions, s.stride)
       case _ =>
         && (s.link == Leaving ==> s.ring.consumer.Waiting?)
         && s.first == NextFirst(s.sessions, s.stride)
         && Sliced(s.sent, s.ring.accepted, s.stride * s.first)
         && s.ring.taken == s.stride * s.first + |s.sent|
  }

  ghost predicate Inv<T>(s: State<T>) {
    Ring.Inv(s.ring) && Produced(s) && Consumed(s)
  }

  lemma {:induction false} FlatUniform<T>(records: seq<seq<T>>, stride: nat)
    requires Uniform(records, stride)
    ensures |Flat(records)| == stride * |records|
  {
    if records != [] {
      FlatUniform(records[1..], stride);
      assert stride * |records| == stride * |records[1..]| + stride;
    }
  }

  lemma FlatSnoc<T>(records: seq<seq<T>>, record: seq<T>)
    ensures Flat(records + [record]) == Flat(records) + record
  {
    FlatAppend(records, [record]);
    assert Flat([record]) == record + Flat([record][1..]);
    assert [record][1..] == [];
  }

  // The producer's steps

  /** A producer step leaves everything of the consumer's as it was and only
      ever appends to what is accepted. */
  ghost predicate Grows<T>(s: State<T>, next: State<T>) {
    && next == s.(ring := next.ring, checked := next.checked, heads := next.heads, records := next.records)
    && next.ring.taken == s.ring.taken && next.ring.consumer == s.ring.consumer
    && s.ring.accepted <= next.ring.accepted
  }

  lemma GrowsKeepsConsumed<T>(s: State<T>, next: State<T>)
    requires Consumed(s) && Grows(s, next)
    ensures Consumed(next)
  {
    hide NextFirst, Chained, TornCount;
    var old', new' := s.ring.accepted, next.ring.accepted;
    forall i | 0 <= i < |s.sessions| ensures Sliced(s.sessions[i].bytes, new', s.stride * s.sessions[i].first) {
      SlicedGrows(s.sessions[i].bytes, old', new', s.stride * s.sessions[i].first);
    }
    if s.link != Detached {
      SlicedGrows(s.sent, old', new', s.stride * s.first);
    }
  }

  lemma SlicedGrows<T>(bytes: seq<T>, before: seq<T>, after: seq<T>, at: nat)
    requires Sliced(bytes, before, at) && before <= after
    ensures Sliced(bytes, after, at)
  {
    assert after == before + after[|before|..];
    SliceOfAppend(before, after[|before|..], at, at + |bytes|);
  }

  lemma CheckKeepsInv<T>(s: State<T>, t: nat)
    requires Inv(s) && Step(s, Check(t)).Some?
    ensures Inv(Step(s, Check(t)).value)
  {
    hide NextFirst, Chained, TornCount, Recorded, Ring.Inv, Distance, Word;
    Ring.StepKeepsInv(s.ring, Ring.LoadFree(t));
    assert Ring.Shape(s.ring) && Ring.Order(s.ring) by { RingInvHas(s.ring); }
    Ring.FreeIsSafe(s.ring, t);
    GrowsKeepsConsumed(s, Step(s, Check(t)).value);
  }

  lemma RingInvHas<T>(r: Ring.State<T>)
    requires Ring.Inv(r)
    ensures Ring.Shape(r) && Ring.Order(r)
  {
  }

  lemma BeginKeepsInv<T>(s: State<T>, record: seq<T>, t: nat)
    requires Inv(s) && Step(s, Begin(record, t)).Some?
    ensures Inv(Step(s, Begin(record, t)).value)
    ensures Step(s, Begin(record, t)).value.ring.producer == Ring.Writing(record, 0)
  {
    hide NextFirst, Chained, TornCount, Recorded, Ring.Inv, Distance, Word;
    Ring.StepKeepsInv(s.ring, Ring.LoadTail(record, t));
    Ring.LoadTailWhole(s.ring, record, t);
    GrowsKeepsConsumed(s, Step(s, Begin(record, t)).value);
  }

  lemma StoreKeepsInv<T>(s: State<T>)
    requires Inv(s) && Step(s, Store).Some?
    ensures Inv(Step(s, Store).value)
  {
    hide NextFirst, Chained, TornCount, Recorded, Ring.Inv, Ring.Cell;
    Ring.StepKeepsInv(s.ring, Ring.Store);
    GrowsKeepsConsumed(s, Step(s, Store).value);
  }

  lemma PublishKeepsInv<T>(s: State<T>)
    requires Inv(s) && Step(s, Publish).Some?
    ensures Inv(Step(s, Publish).value)
  {
    hide NextFirst, Chained, TornCount, Recorded, Ring.Inv, Word;
    var next, data := Step(s, Publish).value, s.ring.producer.data;
    Ring.StepKeepsInv(s.ring, Ring.PublishHead);
    RingInvHas(s.ring);
    FlatSnoc(s.records, data);
    FlatUniform(s.records, s.stride);
    FlatUniform(next.records, s.stride);
    ModUnique(s.stride * |next.records|, s.stride, |next.records|, 0);
    assert next.ring.written == s.stride * |next.records|;
    GrowsKeepsConsumed(s, next);
  }

  // The consumer's steps

  lemma AttachedStepKeepsInv<T>(s: State<T>, a: Action<T>)
    requires Inv(s) && Step(s, a).Some?
    requires a.Accept? || a.Peek? || a.Fetch? || a.Refused? || a.Leave?
    ensures Inv(Step(s, a).value)
  {
    hide NextFirst, Chained, TornCount, Recorded, Ring.Inv, Ring.Cell, Word, Distance;
    match a
    case Accept => RingInvHas(s.ring);
    case Peek(h) => Ring.StepKeepsInv(s.ring, Ring.Peek(h));
    case Fetch => Ring.StepKeepsInv(s.ring, Ring.Fetch);
    case Refused => Ring.StepKeepsInv(s.ring, Ring.GiveUp);
    case Leave =>
  }

  lemma TookKeepsInv<T>(s: State<T>, n: nat, h: nat)
    requires Inv(s) && Step(s, Took(n, h)).Some?
    ensures Inv(Step(s, Took(n, h)).value)
  {
    hide NextFirst, Chained, TornCount, Recorded, Uniform, Ring.Inv, Word, Distance;
    var got := s.ring.consumer.got;
    var at := s.stride * s.first;
    Ring.StepKeepsInv(s.ring, Ring.Advance(n, h));
    Ring.AdvanceIsExact(s.ring, n, h);
    GotIsAccepted(s.ring);
    SliceSplits(s.ring.accepted, at, s.ring.taken, s.ring.taken + n);
    DropTake(s.ring.accepted, s.ring.taken, 0, n);
    DropTake(got, 0, 0, n);
    assert got[..n] == s.ring.accepted[s.ring.taken..s.ring.taken + n];
  }

  lemma GotIsAccepted<T>(r: Ring.State<T>)
    requires Ring.Inv(r) && r.consumer.Reading?
    ensures r.taken + |r.consumer.got| <= |r.accepted|
    ensures r.consumer.got == r.accepted[r.taken..r.taken + |r.consumer.got|]
  {
  }

  /** Rounding a position up to the next record from the count alone. */
  lemma RoundsUp(stride: nat, first: nat, n: nat, h: nat)
    requires stride >= 1 && h % stride == 0 && stride * first + n <= h
    ensures var rem := (h - (stride * first + n)) % stride;
      && (rem == 0 <==> n % stride == 0)
      && rem <= h - (stride * first + n)
      && stride * first + n + rem == stride * Used(first, n, stride)
  {
    DivMod(h, stride);
    DivMod(n, stride);
    RoundsUpAt(stride, first, n, h, n / stride, n % stride, h / stride);
  }

  lemma RoundsUpAt(stride: nat, first: nat, n: nat, h: nat, q: nat, r: nat, j: nat)
    requires h == stride * j && n == stride * q + r && r < stride && stride * first + n <= h
    ensures var rem := (h - (stride * first + n)) % stride;
      && (rem == 0 <==> r == 0)
      && rem <= h - (stride * first + n)
      && stride * first + n + rem == stride * (first + q + (if r != 0 then 1 else 0))
  {
    if r == 0 {
      Aligned(stride, first, q, j);
    } else {
      CutShort(stride, first, q, r, j);
    }
  }

  lemma Aligned(stride: nat, first: nat, q: nat, j: nat)
    requires stride >= 1 && stride * first + stride * q <= stride * j
    ensures (stride * j - (stride * first + stride * q)) % stride == 0
    ensures stride * first + stride * q == stride * (first + q)
  {
    var left := stride * j - (stride * first + stride * q);
    assert left == stride * (j - first - q);
    ModUnique(left, stride, j - first - q, 0);
  }

  lemma CutShort(stride: nat, first: nat, q: nat, r: nat, j: nat)
    requires 0 < r < stride && stride * first + stride * q + r <= stride * j
    ensures (stride * j - (stride * first + stride * q + r)) % stride == stride - r
    ensures stride * first + stride * q + stride == stride * (first + q + 1) <= stride * j
  {
    var left := stride * j - (stride * first + stride * q + r);
    assert stride * first + stride * q == stride * (first + q);
    if first + q >= j { if first + q > j { MulStep(stride, j, first + q); } }
    MulStep(stride, first + q, j);
    assert left == stride * (j - first - q - 1) + (stride - r);
    ModUnique(left, stride, j - first - q - 1, stride - r);
  }

  /** The head itself is on a record boundary after every number of records
      exactly when the stride divides the index range; the count is in any case. */
  lemma HeadAlignmentExact(stride: nat, w: nat)
    requires 1 <= stride <= Pow2(w)
    ensures (forall n: nat :: Word(stride * n, w) % stride == 0) <==> Pow2(w) % stride == 0
  {
    hide Pow2;
    var m := Pow2(w);
    DivMod(m, stride);
    if m % stride == 0 {
      forall n: nat ensures Word(stride * n, w) % stride == 0 {
        ModOfMod(stride * n, stride, m / stride);
        ModUnique(stride * n, stride, n, 0);
      }
    } else {
      var n := m / stride + 1;
      var r := stride * n - m;
      assert stride * n == stride * (m / stride) + stride;
      ModUnique(stride * n, m, 1, r);
      assert Word(stride * n, w) == r;
      ModUnique(r, stride, 0, r);
    }
  }

  /** An odd factor of the stride is enough: the index range is a power of two. */
  lemma {:induction false} OddNeverDivides(w: nat, odd: nat)
    requires odd % 2 == 1 && odd > 1
    ensures Pow2(w) % odd != 0
  {
    if w == 0 {
      ModUnique(1, odd, 0, 1);
    } else {
      OddNeverDivides(w - 1, odd);
      if Pow2(w) % odd == 0 { HalfDivides(Pow2(w - 1), odd); }
    }
  }

  lemma HalfDivides(p: nat, odd: nat)
    requires odd % 2 == 1 && (2 * p) % odd == 0
    ensures p % odd == 0
  {
    var q := 2 * p / odd;
    DivMod(2 * p, odd);
    EvenProduct(odd, q);
    assert 2 * p == odd * (2 * (q / 2));
    assert odd * (2 * (q / 2)) == 2 * (odd * (q / 2));
    ModUnique(p, odd, q / 2, 0);
  }

  lemma EvenProduct(odd: nat, q: nat)
    requires odd % 2 == 1 && (odd * q) % 2 == 0
    ensures q % 2 == 0 && q == 2 * (q / 2)
  {
    var k := odd / 2;
    assert odd == 2 * k + 1;
    assert odd * q == 2 * (k * q) + q;
  }

  /** The records of the SocketCAN stream are 88 bytes long, and 88 divides no index
      range: once its index has wrapped the head is not always on a boundary. */
  lemma HeadOf88NotAligned(w: nat)
    requires 88 <= Pow2(w)
    ensures Pow2(w) % 88 != 0
    ensures exists n: nat :: Word(88 * n, w) % 88 != 0
  {
    OddNeverDivides(w, 11);
    var m := Pow2(w);
    if m % 88 == 0 {
      DivMod(m, 88);
      assert 88 * (m / 88) == 11 * (8 * (m / 88));
      ModUnique(m, 11, 8 * (m / 88), 0);
    }
    HeadAlignmentExact(88, w);
  }

  lemma DivMod(n: nat, d: nat)
    requires d >= 1
    ensures n == d * (n / d) + n % d
  {
  }

  lemma RealignKeepsInv<T>(s: State<T>, h: nat, h': nat)
    requires Inv(s) && Step(s, Realign(h, h')).Some?
    ensures Inv(Step(s, Realign(h, h')).value)
  {
    RealignMovesRing(s, h, h');
    ClosingKeepsInv(s, Step(s, Realign(h, h')).value);
  }

  lemma ClosingKeepsInv<T>(s: State<T>, next: State<T>)
    requires Inv(s) && s.link == Leaving && Ring.Inv(next.ring) && next.ring.consumer.Waiting?
    requires next == s.(ring := next.ring, link := Detached, sessions := s.sessions + [Session(s.first, s.sent)],
                        torn := s.torn + (if |s.sent| % s.stride != 0 then 1 else 0))
    requires next.ring.taken == s.stride * Used(s.first, |s.sent|, s.stride)
    requires next.ring.accepted == s.ring.accepted && next.ring.written == s.ring.written
    requires next.ring.producer == s.ring.producer && next.ring.seenTail == s.ring.seenTail
    requires |next.ring.cells| == |s.ring.cells|
    ensures Inv(next)
  {
    hide NextFirst, Chained, TornCount, Recorded, Used, Sliced, Ring.Inv, Uniform;
    SessionCloses(s.sessions, Session(s.first, s.sent), s.ring.accepted, s.stride);
  }

  lemma SessionCloses<T>(sessions: seq<Session<T>>, x: Session<T>, accepted: seq<T>, stride: nat)
    requires stride >= 1 && Chained(sessions, stride) && Recorded(sessions, accepted, stride)
    requires x.first == NextFirst(sessions, stride) && Sliced(x.bytes, accepted, stride * x.first)
    ensures var more := sessions + [x];
      && Chained(more, stride) && Recorded(more, accepted, stride)
      && TornCount(more, stride) == TornCount(sessions, stride) + (if EndsMidRecord(x, stride) then 1 else 0)
      && NextFirst(more, stride) == Used(x.first, |x.bytes|, stride)
  {
    hide Sliced, Used, EndsMidRecord;
    var more := sessions + [x];
    assert more[..|sessions|] == sessions;
    forall i | 0 <= i < |more| ensures more[i].first == NextFirst(more[..i], stride) {
      if i < |sessions| {
        SliceOfAppend(sessions, [x], 0, i);
      }
    }
  }

  /** What realign does to the ring, whichever branch it takes. */
  lemma RealignMovesRing<T>(s: State<T>, h: nat, h': nat)
    requires Inv(s) && Step(s, Realign(h, h')).Some?
    ensures var next := Step(s, Realign(h, h')).value;
      && var mid := |s.sent| % s.stride != 0;
      && Ring.Inv(next.ring) && next.ring.consumer.Waiting?
      && next == s.(ring := next.ring, link := Detached, sessions := s.sessions + [Session(s.first, s.sent)],
                    torn := s.torn + (if mid then 1 else 0))
      && next.ring.taken == s.stride * Used(s.first, |s.sent|, s.stride)
      && next.ring.accepted == s.ring.accepted && next.ring.written == s.ring.written
      && next.ring.producer == s.ring.producer && next.ring.seenTail == s.ring.seenTail
      && |next.ring.cells| == |s.ring.cells|
  {
    hide NextFirst, Chained, TornCount, Recorded, Sliced, Used, Produced, Distance, Word, Ring.Skip, Ring.Inv;
    HeadsPublished(s, h);
    HeadsPublished(s, h');
    RingInvHas(s.ring);
    SeeingKeepsInv(s.ring, h);
    Ring.CountIsSafe(s.ring, h);
    RoundsUp(s.stride, s.first, |s.sent|, h);
    var rem := (h - s.ring.taken) % s.stride;
    if s.stride > 1 && rem != 0 {
      Ring.SkipKeepsInv(s.ring.(seenHead := h), rem, h');
    }
  }

  lemma HeadsPublished<T>(s: State<T>, h: nat)
    requires Produced(s) && h in s.heads
    ensures s.stride >= 1 && h % s.stride == 0 && h <= s.ring.written
  {
  }

  lemma SeeingKeepsInv<T>(r: Ring.State<T>, h: nat)
    requires Ring.Inv(r) && r.seenHead <= h <= r.written
    ensures Ring.Inv(r.(seenHead := h))
  {
    hide Window;
  }

  lemma StepKeepsInv<T>(s: State<T>, a: Action<T>)
    requires Inv(s) && Step(s, a).Some?
    ensures Inv(Step(s, a).value)
  {
    hide Inv, Step;
    match a
    case Check(t) => CheckKeepsInv(s, t);
    case Begin(record, t) => BeginKeepsInv(s, record, t);
    case Store => StoreKeepsInv(s);
    case Publish => PublishKeepsInv(s);
    case Took(n, h) => TookKeepsInv(s, n, h);
    case Realign(h, h') => RealignKeepsInv(s, h, h');
    case _ => AttachedStepKeepsInv(s, a);
  }

  lemma {:induction false} RunKeepsInv<T>(s: State<T>, acts: seq<Action<T>>)
    requires Inv(s) && Run(s, acts).Some?
    ensures Inv(Run(s, acts).value)
    ensures Run(s, acts).value.stride == s.stride
    decreases |acts|
  {
    hide Inv;
    if acts != [] {
      StepKeepsInv(s, acts[0]);
      RunKeepsInv(Step(s, acts[0]).value, acts[1..]);
    }
  }

  lemma InitialInv<T>(s: State<T>, k: nat, w: nat)
    requires Initial(s, k, w)
    ensures Inv(s)
  {
    Ring.InitialInv(s.ring, k, w);
    ModUnique(0, s.stride, 0, 0);
  }

  // What it means for the records

  datatype Fate = Delivered(session: nat) | Torn(session: nat)

  /** What became of each record used up so far, in record order. */
  function Fates<T>(sessions: seq<Session<T>>, stride: nat): seq<Fate>
    requires stride >= 1
  {
    if sessions == [] then []
    else
      var i := |sessions| - 1;
      Fates(sessions[..i], stride)
      + seq(Whole(sessions[i], stride), _ => Delivered(i))
      + (if EndsMidRecord(sessions[i], stride) then [Torn(i)] else [])
  }

  lemma {:induction false} FatesCount<T>(sessions: seq<Session<T>>, stride: nat)
    requires stride >= 1 && Chained(sessions, stride)
    ensures |Fates(sessions, stride)| == NextFirst(sessions, stride)
  {
    if sessions != [] {
      ChainedPrefix(sessions, |sessions| - 1, stride);
      FatesCount(sessions[..|sessions| - 1], stride);
    }
  }

  lemma ChainedPrefix<T>(sessions: seq<Session<T>>, n: nat, stride: nat)
    requires n <= |sessions| && Chained(sessions, stride)
    ensures Chained(sessions[..n], stride)
  {
    hide NextFirst;
    forall i | 0 <= i < n ensures sessions[..n][i].first == NextFirst(sessions[..n][..i], stride) {
      assert sessions[..n][..i] == sessions[..i];
    }
  }

  /** The fate of a record places it in its session: the delivered ones come in
      order from the session's first record on, the torn one right after. */
  lemma {:induction false} FatePlaces<T>(sessions: seq<Session<T>>, stride: nat, r: nat)
    requires stride >= 1 && Chained(sessions, stride) && r < |Fates(sessions, stride)|
    ensures match Fates(sessions, stride)[r]
            case Delivered(i) =>
              i < |sessions| && sessions[i].first <= r < sessions[i].first + Whole(sessions[i], stride)
            case Torn(i) =>
              i < |sessions| && r == sessions[i].first + Whole(sessions[i], stride)
              && EndsMidRecord(sessions[i], stride)
    decreases |sessions|
  {
    if sessions != [] {
      var n := |sessions| - 1;
      ChainedPrefix(sessions, n, stride);
      FatesCount(sessions[..n], stride);
      if r < |Fates(sessions[..n], stride)| {
        FatePlaces(sessions[..n], stride, r);
      }
    }
  }

  /** How far q records and r bytes from record `first` on reach. */
  lemma ReachesRecord(stride: nat, first: nat, q: nat, r: nat, count: nat)
    requires stride >= 1 && stride * first + (stride * q + r) <= stride * count
    ensures stride * (first + q) == stride * first + stride * q
    ensures first + q <= count && (r > 0 ==> first + q < count)
  {
    assert stride * (first + q) == stride * first + stride * q;
    if first + q > count { MulStep(stride, count, first + q); }
  }

  /** The bytes are q whole records from `first` on, then r bytes of the next,
      a proper part of it. */
  ghost predicate IsRun<T>(bytes: seq<T>, records: seq<seq<T>>, first: nat, q: nat, r: nat) {
    && first + q <= |records|
    && (r > 0 ==> first + q < |records| && r < |records[first + q]|)
    && bytes == Flat(records[first..first + q]) + (if r > 0 then records[first + q][..r] else [])
  }

  /** A run of bytes cut from the records at a record boundary is whole records
      and then part of one. */
  lemma SlicedIsRecords<T>(records: seq<seq<T>>, stride: nat, bytes: seq<T>, first: nat, q: nat, r: nat)
    requires Uniform(records, stride) && Sliced(bytes, Flat(records), stride * first)
    requires |bytes| == stride * q + r && r < stride
    ensures IsRun(bytes, records, first, q, r)
  {
    hide Flat;
    FlatUniform(records, stride);
    ReachesRecord(stride, first, q, r, |records|);
    SpanIsRecords(records, stride, first, q, r);
    hide Uniform;
    RecordLength(records, stride, first + q);
  }

  lemma RecordLength<T>(records: seq<seq<T>>, stride: nat, i: nat)
    requires Uniform(records, stride)
    ensures i < |records| ==> |records[i]| == stride
  {
  }

  lemma MiddleAndMore<T>(a: seq<T>, b: seq<T>, c: seq<T>, r: nat)
    requires r <= |c|
    ensures (a + b + c)[|a|..|a| + |b| + r] == b + c[..r]
  {
  }

  lemma SpanIsRecords<T>(records: seq<seq<T>>, stride: nat, first: nat, q: nat, r: nat)
    requires stride >= 1 && Uniform(records, stride)
    requires first + q <= |records| && r < stride && (r > 0 ==> first + q < |records|)
    requires stride * (first + q) == stride * first + stride * q
    requires stride * first + stride * q + r <= |Flat(records)|
    ensures Flat(records)[stride * first..stride * first + stride * q + r]
            == Flat(records[first..first + q]) + (if r > 0 then records[first + q][..r] else [])
  {
    hide Flat;
    var upto, span, rest := records[..first], records[first..first + q], records[first + q..];
    FlatSplit(records, first + q, stride);
    assert records[..first + q] == upto + span;
    FlatAppend(upto, span);
    FlatUniform(upto, stride);
    FlatUniform(span, stride);
    var a, b, c := Flat(upto), Flat(span), Flat(rest);
    assert Flat(records) == a + b + c;
    hide Uniform;
    MiddleAndMore(a, b, c, r);
    if r > 0 {
      FlatHead(rest);
      assert c[..r] == rest[0][..r];
    }
  }

  lemma FlatHead<T>(records: seq<seq<T>>)
    requires records != []
    ensures Flat(records) == records[0] + Flat(records[1..])
  {
  }

  lemma FlatSplit<T>(records: seq<seq<T>>, n: nat, stride: nat)
    requires n <= |records| && Uniform(records, stride)
    ensures Flat(records) == Flat(records[..n]) + Flat(records[n..])
    ensures |Flat(records[..n])| == stride * n
  {
    assert records == records[..n] + records[n..];
    FlatAppend(records[..n], records[n..]);
    FlatUniform(records[..n], stride);
  }

  /** Every consumer session, whenever it attached and however it ended, was
      sent a contiguous run of whole records starting on a record boundary,
      then at most one cut record; and the torn counter counts exactly the
      sessions that ended inside a record. */
  lemma EverySessionIsWholeRecords<T>(s0: State<T>, k: nat, w: nat, acts: seq<Action<T>>, i: nat)
    requires Initial(s0, k, w) && Run(s0, acts).Some? && i < |Run(s0, acts).value.sessions|
    ensures var s := Run(s0, acts).value;
      && WholeRecords(s.sessions[i], s.records, s0.stride)
      && s.torn == TornCount(s.sessions, s0.stride)
  {
    InitialInv(s0, k, w);
    RunKeepsInv(s0, acts);
    hide Inv, Initial, Run, WholeRecords;
    SessionIsWhole(Run(s0, acts).value, i);
  }

  /** A session's bytes are whole records, then at most a proper part of one. */
  ghost predicate WholeRecords<T>(x: Session<T>, records: seq<seq<T>>, stride: nat) {
    stride >= 1 && IsRun(x.bytes, records, x.first, Whole(x, stride), |x.bytes| % stride)
  }

  lemma SessionIsWhole<T>(s: State<T>, i: nat)
    requires Inv(s) && i < |s.sessions|
    ensures WholeRecords(s.sessions[i], s.records, s.stride)
    ensures s.torn == TornCount(s.sessions, s.stride)
  {
    hide Ring.Inv, NextFirst, TornCount, IsRun, Flat, Sliced, Uniform;
    var x := s.sessions[i];
    assert Sliced(x.bytes, Flat(s.records), s.stride * x.first);
    hide Produced, Consumed, Recorded;
    DivMod(|x.bytes|, s.stride);
    SlicedIsRecords(s.records, s.stride, x.bytes, x.first, Whole(x, s.stride), |x.bytes| % s.stride);
  }

  /** The bytes of the running session; none while no consumer is attached. */
  function Running<T>(s: State<T>): seq<T> {
    if s.link == Detached then [] else s.sent
  }

  /** After the first `used` records come those of the running session, whole ones
      and at most a part of the next, and then what is still queued. */
  ghost predicate Divided<T>(s: State<T>, used: nat) {
    && s.stride >= 1 && used <= |s.records| && (s.link != Detached ==> s.first == used)
    && IsRun(Running(s), s.records, used, |Running(s)| / s.stride, |Running(s)| % s.stride)
    && Distance(s.ring.head, s.ring.tail, s.ring.w) == s.stride * (|s.records| - used) - |Running(s)|
  }

  /** No record is lost between sessions or sent to two of them. The records
      published are those the closed sessions account for, each delivered whole to
      one session or torn by one; then those of the running session; and then what
      is still queued: in every reachable state, also when the indices have wrapped
      and when the stride does not divide the ring. */
  lemma EveryRecordHasOneFate<T>(s0: State<T>, k: nat, w: nat, acts: seq<Action<T>>)
    requires Initial(s0, k, w) && Run(s0, acts).Some?
    ensures var s := Run(s0, acts).value;
      && Divided(s, |Fates(s.sessions, s0.stride)|)
      && forall r :: 0 <= r < |Fates(s.sessions, s0.stride)| ==> Settled(s.sessions, s.records, s0.stride, r)
  {
    InitialInv(s0, k, w);
    RunKeepsInv(s0, acts);
    hide Inv, Initial, Run, Fates, Settled, Divided;
    var s := Run(s0, acts).value;
    var used := |Fates(s.sessions, s.stride)|;
    SessionsAre(s);
    QueuedCount(s, used);
    forall r | 0 <= r < used ensures Settled(s.sessions, s.records, s.stride, r) {
      RecordSettles(s.sessions, s.records, s.stride, r);
    }
  }

  lemma SessionsAre<T>(s: State<T>)
    requires Inv(s)
    ensures s.stride >= 1 && Uniform(s.records, s.stride)
    ensures Chained(s.sessions, s.stride) && Recorded(s.sessions, Flat(s.records), s.stride)
    ensures |Fates(s.sessions, s.stride)| == NextFirst(s.sessions, s.stride)
  {
    hide NextFirst, TornCount, Sliced, Fates, Ring.Inv;
    FatesCount(s.sessions, s.stride);
  }

  lemma QueuedCount<T>(s: State<T>, used: nat)
    requires Inv(s) && used == NextFirst(s.sessions, s.stride)
    ensures Divided(s, used)
  {
    hide Running, Inv, NextFirst, Sliced, Uniform, Distance, IsRun;
    QueueLength(s, used);
    CutIsRun(s.records, s.stride, Running(s), used);
  }

  lemma CutIsRun<T>(records: seq<seq<T>>, stride: nat, bytes: seq<T>, first: nat)
    requires stride >= 1 && Uniform(records, stride) && Sliced(bytes, Flat(records), stride * first)
    ensures IsRun(bytes, records, first, |bytes| / stride, |bytes| % stride)
  {
    hide Sliced, Uniform, IsRun;
    DivMod(|bytes|, stride);
    SlicedIsRecords(records, stride, bytes, first, |bytes| / stride, |bytes| % stride);
  }

  lemma QueueLength<T>(s: State<T>, used: nat)
    requires Inv(s) && used == NextFirst(s.sessions, s.stride)
    ensures s.stride >= 1 && used <= |s.records| && (s.link != Detached ==> s.first == used)
    ensures Distance(s.ring.head, s.ring.tail, s.ring.w) == s.stride * (|s.records| - used) - |Running(s)|
    ensures Uniform(s.records, s.stride) && Sliced(Running(s), Flat(s.records), s.stride * used)
  {
    hide NextFirst, TornCount, Chained, Recorded, Ring.Inv, Distance;
    RingInvHas(s.ring);
    FlatUniform(s.records, s.stride);
    Ring.CountIsSafe(s.ring, s.ring.written);
    Scaled(s.stride, used, |s.records|);
  }

  lemma Scaled(stride: nat, used: nat, count: nat)
    requires stride >= 1 && stride * used <= stride * count
    ensures used <= count && stride * count - stride * used == stride * (count - used)
  {
    if used > count { MulStep(stride, count, used); }
  }

  /** The bytes of record r are in the session its fate names, and a torn one
      is there only in part. */
  ghost predicate Settled<T>(sessions: seq<Session<T>>, records: seq<seq<T>>, stride: nat, r: nat)
    requires stride >= 1
  {
    && r < |Fates(sessions, stride)| && r < |records|
    && match Fates(sessions, stride)[r]
       case Delivered(i) =>
         && i < |sessions| && sessions[i].first <= r
         && Sliced(records[r], sessions[i].bytes, stride * (r - sessions[i].first))
       case Torn(i) =>
         && i < |sessions| && sessions[i].first <= r
         && var cut := |sessions[i].bytes| % stride;
         && 0 < cut < |records[r]|
         && Sliced(records[r][..cut], sessions[i].bytes, stride * (r - sessions[i].first))
         && stride * (r - sessions[i].first) + cut == |sessions[i].bytes|
  }

  lemma RecordSettles<T>(sessions: seq<Session<T>>, records: seq<seq<T>>, stride: nat, r: nat)
    requires stride >= 1 && Uniform(records, stride)
    requires Chained(sessions, stride) && Recorded(sessions, Flat(records), stride)
    requires r < |Fates(sessions, stride)|
    ensures Settled(sessions, records, stride, r)
  {
    FatePlaces(sessions, stride, r);
    hide NextFirst, Fates, Chained;
    var fate := Fates(sessions, stride)[r];
    var x := sessions[fate.session];
    DivMod(|x.bytes|, stride);
    SlicedIsRecords(records, stride, x.bytes, x.first, |x.bytes| / stride, |x.bytes| % stride);
    hide Recorded;
    SettlesIn(x, records, stride, r);
  }

  lemma SettlesIn<T>(x: Session<T>, records: seq<seq<T>>, stride: nat, r: nat)
    requires stride >= 1 && Uniform(records, stride)
    requires IsRun(x.bytes, records, x.first, Whole(x, stride), |x.bytes| % stride)
    ensures x.first <= r < x.first + Whole(x, stride) ==>
      r < |records| && Sliced(records[r], x.bytes, stride * (r - x.first))
    ensures r == x.first + Whole(x, stride) && EndsMidRecord(x, stride) ==>
      && r < |records| && 0 < |x.bytes| % stride < |records[r]|
      && Sliced(records[r][..|x.bytes| % stride], x.bytes, stride * (r - x.first))
      && stride * (r - x.first) + |x.bytes| % stride == |x.bytes|
  {
    hide Sliced, Flat;
    var q, cut := Whole(x, stride), |x.bytes| % stride;
    hide Whole;
    var span := records[x.first..x.first + q];
    FlatUniform(span, stride);
    var rest := if cut > 0 then records[x.first + q][..cut] else [];
    if x.first <= r < x.first + q {
      RecordInFlat(span, stride, r - x.first, rest);
      assert span[r - x.first] == records[r];
    } else if r == x.first + q && cut > 0 {
      SuffixSliced(Flat(span), rest);
    }
  }

  lemma RecordInFlat<T>(span: seq<seq<T>>, stride: nat, j: nat, rest: seq<T>)
    requires Uniform(span, stride) && j < |span|
    ensures Sliced(span[j], Flat(span) + rest, stride * j)
  {
    hide Flat;
    FlatSplit(span, j, stride);
    FlatHead(span[j..]);
    var a, b, c := Flat(span[..j]), span[j], Flat(span[j..][1..]);
    hide Uniform;
    assert Flat(span) == a + (b + c);
    SlicedBetween(a, b, c, rest);
  }

  lemma SlicedBetween<T>(a: seq<T>, b: seq<T>, c: seq<T>, d: seq<T>)
    ensures Sliced(b, a + (b + c) + d, |a|)
  {
    assert a + (b + c) + d == a + (b + (c + d));
  }

  lemma SuffixSliced<T>(a: seq<T>, b: seq<T>)
    ensures Sliced(b, a + b, |a|)
  {
  }

  // A record that goes all the way

  function Stores<T>(n: nat): seq<Action<T>> {
    seq(n, i => Store)
  }

  function Fetches<T>(n: nat): seq<Action<T>> {
    seq(n, i => Fetch)
  }

  lemma RunFirst<T>(s: State<T>, a: Action<T>, more: seq<Action<T>>)
    requires Step(s, a).Some?
    ensures Run(s, [a] + more) == Run(Step(s, a).value, more)
  {
    hide Step;
    assert ([a] + more)[1..] == more;
  }

  lemma {:induction false} StoresAre<T>(s: State<T>, n: nat, more: seq<Action<T>>)
    requires Ring.Run(s.ring, Ring.Stores(n)).Some?
    ensures Run(s, Stores(n) + more) == Run(s.(ring := Ring.Run(s.ring, Ring.Stores(n)).value), more)
    decreases n
  {
    hide Ring.Step;
    if n == 0 {
      assert Stores<T>(0) + more == more && Ring.Stores<T>(0) == [];
    } else {
      assert Ring.Stores<T>(n)[0] == Ring.Store && Ring.Stores<T>(n)[1..] == Ring.Stores(n - 1);
      assert Stores<T>(n) + more == [Store] + (Stores(n - 1) + more);
      var t := Step(s, Store).value;
      RunFirst(s, Store, Stores(n - 1) + more);
      hide Run, Stores, Ring.Stores;
      StoresAre(t, n - 1, more);
    }
  }

  lemma {:induction false} FetchesAre<T>(s: State<T>, n: nat, more: seq<Action<T>>)
    requires Ring.Run(s.ring, Ring.Fetches(n)).Some?
    ensures Run(s, Fetches(n) + more) == Run(s.(ring := Ring.Run(s.ring, Ring.Fetches(n)).value), more)
    decreases n
  {
    hide Ring.Step;
    if n == 0 {
      assert Fetches<T>(0) + more == more && Ring.Fetches<T>(0) == [];
    } else {
      assert Ring.Fetches<T>(n)[0] == Ring.Fetch && Ring.Fetches<T>(n)[1..] == Ring.Fetches(n - 1);
      assert Fetches<T>(n) + more == [Fetch] + (Fetches(n - 1) + more);
      var t := Step(s, Fetch).value;
      RunFirst(s, Fetch, Fetches(n - 1) + more);
      hide Run, Fetches, Ring.Fetches;
      FetchesAre(t, n - 1, more);
    }
  }

  /** The producer finds room and begins. */
  lemma RecordBegun<T>(s: State<T>, k: nat, w: nat, record: seq<T>, more: seq<Action<T>>) returns (t: State<T>)
    requires Initial(s, k, w) && |record| == s.stride <= |s.ring.cells|
    ensures Inv(t) && t == s.(ring := s.ring.(producer := Ring.Writing(record, 0))) && |t.ring.cells| > 0
    ensures Run(s, [Check(0)] + ([Begin(record, 0)] + more)) == Run(t, more)
  {
    InitialInv(s, k, w);
    CheckFinds(s, record);
    var s1 := Step(s, Check(0)).value;
    CheckKeepsInv(s, 0);
    BeginFits(s1, record);
    t := Step(s1, Begin(record, 0)).value;
    BeginKeepsInv(s1, record, 0);
    hide Inv, Step;
    RunFirst(s, Check(0), [Begin(record, 0)] + more);
    RunFirst(s1, Begin(record, 0), more);
  }

  /** It writes and publishes. */
  lemma RecordPublished<T>(s: State<T>, record: seq<T>, more: seq<Action<T>>) returns (t: State<T>)
    requires Inv(s) && s.ring.producer == Ring.Writing(record, 0) && |s.ring.cells| > 0
    requires s.records == [] && s.ring.accepted == [] && s.ring.written == 0 && s.heads == {0}
    ensures Inv(t) && t == s.(ring := t.ring, heads := {0, |record|}, records := [record])
    ensures t.ring.consumer == s.ring.consumer && t.ring.accepted == record && t.ring.taken == s.ring.taken
    ensures t.ring.seenHead == s.ring.seenHead && t.ring.written == |record| && |t.ring.cells| == |s.ring.cells|
    ensures t.ring.w == s.ring.w
    ensures Run(s, Stores(|record|) + ([Publish] + more)) == Run(t, more)
  {
    Ring.StoresRun(s.ring, |record|);
    var s1 := s.(ring := Ring.Run(s.ring, Ring.Stores(|record|)).value);
    StepsKeep(s, Stores(|record|), s1) by {
      StoresAre(s, |record|, []);
      assert Stores<T>(|record|) + [] == Stores(|record|);
    }
    t := Step(s1, Publish).value;
    PublishKeepsInv(s1);
    StoresAre(s, |record|, [Publish] + more);
    hide Inv;
    RunFirst(s1, Publish, more);
    assert s.ring.accepted + record == record && s.records + [record] == [record];
  }

  lemma StepsKeep<T>(s: State<T>, acts: seq<Action<T>>, t: State<T>)
    requires Inv(s) && Run(s, acts) == Some(t)
    ensures Inv(t)
  {
    hide Inv;
    RunKeepsInv(s, acts);
  }

  lemma CheckFinds<T>(s: State<T>, record: seq<T>)
    requires Inv(s) && s.ring.producer.Resting? && s.ring.seenTail == s.ring.taken == s.ring.written == 0
    requires |record| == s.stride <= |s.ring.cells|
    ensures Step(s, Check(0)) == Some(s.(checked := true))
  {
    hide Word, Distance;
    RingInvHas(s.ring);
    Ring.FreeIsSafe(s.ring, 0);
  }

  lemma BeginFits<T>(s: State<T>, record: seq<T>)
    requires Inv(s) && s.checked && |record| == s.stride && s.ring.seenTail == s.ring.taken == 0
    ensures Step(s, Begin(record, 0)) ==
      Some(s.(checked := false, ring := s.ring.(producer := Ring.Writing(record, 0)))) && |s.ring.cells| > 0
  {
    hide Word, Distance, Ring.Inv;
    Ring.LoadTailFits(s.ring, record, 0);
  }

  /** A consumer attaches and peeks at the record. */
  lemma RecordPeeked<T>(s: State<T>, n: nat, more: seq<Action<T>>) returns (t: State<T>)
    requires Inv(s) && s.link == Detached && s.sessions == [] && s.ring.taken == s.ring.seenHead == 0
    requires s.ring.written == n <= |s.ring.cells| && n in s.heads
    ensures Inv(t) && t == s.(link := Attached, first := 0, sent := [], ring := t.ring)
    ensures t.ring == s.ring.(seenHead := n, consumer := Ring.Reading(n, [])) && |t.ring.cells| > 0
    ensures Run(s, [Accept] + ([Peek(n)] + more)) == Run(t, more)
  {
    hide Inv, Step;
    var s1 := AcceptIs(s);
    t := PeekIs(s1, n);
    RunFirst(s, Accept, [Peek(n)] + more);
    RunFirst(s1, Peek(n), more);
  }

  lemma AcceptIs<T>(s: State<T>) returns (t: State<T>)
    requires Inv(s) && s.link == Detached && s.sessions == []
    ensures Inv(t) && Step(s, Accept) == Some(t) && t == s.(link := Attached, first := 0, sent := [])
    ensures t.ring.consumer.Waiting?
  {
    t := Step(s, Accept).value;
    AttachedStepKeepsInv(s, Accept);
  }

  lemma PeekIs<T>(s: State<T>, n: nat) returns (t: State<T>)
    requires Inv(s) && s.link == Attached && n in s.heads && s.ring.consumer.Waiting?
    requires s.ring.taken == s.ring.seenHead == 0 && s.ring.written == n <= |s.ring.cells|
    ensures Inv(t) && Step(s, Peek(n)) == Some(t) && |t.ring.cells| > 0
    ensures t == s.(ring := s.ring.(seenHead := n, consumer := Ring.Reading(n, [])))
  {
    PeekFindsAll(s.ring, n);
    t := Step(s, Peek(n)).value;
    AttachedStepKeepsInv(s, Peek(n));
  }

  lemma LeaveIs<T>(s: State<T>) returns (t: State<T>)
    requires s.link == Attached && s.ring.consumer.Waiting?
    ensures Step(s, Leave) == Some(t) && t == s.(link := Leaving)
  {
    t := s.(link := Leaving);
  }

  lemma RealignIs<T>(s: State<T>, n: nat) returns (t: State<T>)
    requires Ring.Inv(s.ring) && s.link == Leaving && n in s.heads && s.ring.consumer.Waiting?
    requires s.ring.taken == s.ring.seenHead == s.ring.written == n
    ensures Step(s, Realign(n, n)) == Some(t)
    ensures t == s.(link := Detached, sessions := s.sessions + [Session(s.first, s.sent)], ring := t.ring)
  {
    hide Word, Distance, Ring.Inv;
    NothingLeft(s.ring, n);
    t := Step(s, Realign(n, n)).value;
  }

  lemma PeekFindsAll<T>(r: Ring.State<T>, n: nat)
    requires Ring.Inv(r) && r.consumer.Waiting? && r.taken == r.seenHead == 0 && r.written == n <= |r.cells|
    ensures Ring.Step(r, Ring.Peek(n)) == Some(r.(seenHead := n, consumer := Ring.Reading(n, []))) && |r.cells| > 0
  {
    Ring.CountIsSafe(r, n);
    Ring.CellIsSlot(r, 0, 0);
    hide Word, Distance, Ring.Cell, Window;
    assert Slot(0, |r.cells|) == 0;
    assert Ring.Cell(r, r.tail) == 0;
  }

  /** The socket takes the record, the consumer leaves, the session is closed. */
  lemma RecordTaken<T>(s: State<T>, record: seq<T>, more: seq<Action<T>>) returns (t: State<T>)
    requires Inv(s) && s.link == Attached && s.first == 0 && s.sent == [] && s.sessions == [] && |record| == s.stride
    requires s.ring.consumer == Ring.Reading(|record|, []) && s.ring.accepted == record && s.ring.taken == 0
    requires s.ring.seenHead == s.ring.written == |record| && |record| in s.heads && |s.ring.cells| > 0
    ensures t.sessions == [Session(0, record)] && t.records == s.records && t.torn == s.torn && t.link == Detached
    ensures Run(s, Fetches(|record|) + ([Took(|record|, |record|)] + ([Leave] + ([Realign(|record|, |record|)] + more))))
            == Run(t, more)
  {
    var n := |record|;
    Ring.FetchesRun(s.ring, n);
    var s1 := s.(ring := Ring.Run(s.ring, Ring.Fetches(n)).value);
    StepsKeep(s, Fetches(n), s1) by {
      FetchesAre(s, n, []);
      assert Fetches<T>(n) + [] == Fetches(n);
    }
    FetchesAre(s, n, [Took(n, n)] + ([Leave] + ([Realign(n, n)] + more)));
    hide Step;
    var s2 := TookAll(s1, record);
    TookKeepsInv(s1, n, n);
    var s3 := LeaveIs(s2);
    t := RealignIs(s3, n);
    assert s.sessions + [Session(0, record)] == [Session(0, record)];
    hide Inv;
    RunFirst(s1, Took(n, n), [Leave] + ([Realign(n, n)] + more));
    RunFirst(s2, Leave, [Realign(n, n)] + more);
    RunFirst(s3, Realign(n, n), more);
  }

  lemma TookAll<T>(s: State<T>, record: seq<T>) returns (t: State<T>)
    requires Inv(s) && s.link == Attached && s.ring.consumer.Reading? && |s.ring.consumer.got| == |record| > 0
    requires s.ring.accepted == record && s.ring.taken == 0 && s.ring.seenHead == s.ring.written == |record|
    requires |record| in s.heads && s.sent == []
    ensures Step(s, Took(|record|, |record|)) == Some(t)
    ensures t == s.(sent := record, ring := t.ring) && t.ring.consumer.Waiting?
    ensures t.ring.taken == t.ring.seenHead == t.ring.written == |record|
  {
    var n := |record|;
    GotIsAccepted(s.ring);
    assert record[0..n] == record && record[..n] == record && [] + record == record;
    hide Word, Distance;
    Ring.CountIsSafe(s.ring, n);
    t := Step(s, Took(n, n)).value;
  }

  lemma NothingLeft<T>(r: Ring.State<T>, h: nat)
    requires Ring.Inv(r) && r.taken == r.seenHead == r.written == h
    ensures Distance(Word(h, r.w), r.tail, r.w) == 0
  {
    Ring.CountIsSafe(r, h);
  }

  /** Producer, then consumer. */
  function Delivery<T>(record: seq<T>): seq<Action<T>> {
    var n := |record|;
    [Check(0)] + ([Begin(record, 0)] + (Stores(n) + ([Publish] + ([Accept] + ([Peek(n)] +
    (Fetches(n) + ([Took(n, n)] + ([Leave] + ([Realign(n, n)] + [])))))))))
  }

  /** A record written to a fresh stream and taken by the first consumer is delivered
      whole: every step of the way is possible. */
  lemma RecordDelivered<T>(s: State<T>, k: nat, w: nat, record: seq<T>)
    requires Initial(s, k, w) && |record| == s.stride <= |s.ring.cells|
    ensures var r := Run(s, Delivery(record));
      && r.Some? && r.value.records == [record] && r.value.sessions == [Session(0, record)]
      && r.value.torn == 0 && r.value.link == Detached
  {
    var n := |record|;
    var toClose: seq<Action<T>> := Fetches(n) + ([Took(n, n)] + ([Leave] + ([Realign(n, n)] + [])));
    var toPeek := [Accept] + ([Peek(n)] + toClose);
    hide Inv, Run, Stores, Fetches;
    var s1 := RecordBegun(s, k, w, record, Stores(n) + ([Publish] + toPeek));
    var s2 := RecordPublished(s1, record, toPeek);
    var s3 := RecordPeeked(s2, n, toClose);
    var s4 := RecordTaken(s3, record, []);
    EndOfRun(s4);
  }

  lemma EndOfRun<T>(s: State<T>)
    ensures Run(s, []) == Some(s)
  {
  }
}
