/** The byte ring (helpers/ring_buffer.c) as one thread sees it: free-running
    indices that wrap at the machine word, masked only to address a cell. */
module RingBuffer {
  import opened Common
  import opened Wrapping

  /** The cell of a free-running position. */
  function Slot(x: nat, size: nat): (c: nat)
    requires size > 0
    ensures c < size
  {
    x % size
  }

  /** The ring read as a queue from position t, n elements long. */
  function Window<T>(cells: seq<T>, t: nat, n: nat): (s: seq<T>)
    requires |cells| > 0
    ensures |s| == n
  {
    seq(n, i requires 0 <= i < n => cells[Slot(t + i, |cells|)])
  }

  lemma WindowSplits<T>(cells: seq<T>, t: nat, a: nat, b: nat)
    requires |cells| > 0
    ensures Window(cells, t, a + b) == Window(cells, t, a) + Window(cells, t + a, b)
  {
    hide Slot;
  }

  lemma WindowNext<T>(cells: seq<T>, t: nat, n: nat)
    requires |cells| > 0
    ensures Window(cells, t, n + 1) == Window(cells, t, n) + [cells[Slot(t + n, |cells|)]]
  {
    hide Slot;
  }

  /** Storing behind the window appends to it and disturbs nothing in it. */
  lemma WindowPut<T>(cells: seq<T>, t: nat, n: nat, v: T)
    requires n < |cells|
    ensures Window(cells[Slot(t + n, |cells|) := v], t, n + 1) == Window(cells, t, n) + [v]
  {
    var cells' := cells[Slot(t + n, |cells|) := v];
    var before, after := Window(cells, t, n), Window(cells', t, n + 1);
    forall i | 0 <= i < n ensures after[i] == before[i] {
      DistinctCells(t + i, t + n, |cells|);
      assert after[i] == cells'[Slot(t + i, |cells|)];
      assert before[i] == cells[Slot(t + i, |cells|)];
    }
    assert after == before + [v];
  }

  /** Up to the end of the storage the window lies in consecutive cells. */
  lemma WindowLinear<T>(cells: seq<T>, t: nat, n: nat)
    requires |cells| > 0 && Slot(t, |cells|) + n <= |cells|
    ensures Window(cells, t, n) == cells[Slot(t, |cells|)..Slot(t, |cells|) + n]
  {
    var index, size := Slot(t, |cells|), |cells|;
    var window, run := Window(cells, t, n), cells[index..index + n];
    forall i | 0 <= i < n ensures window[i] == run[i] {
      assert t == size * (t / size) + index;
      ModUnique(t + i, size, t / size, index + i);
      assert Slot(t + i, size) == index + i;
    }
  }

  class Ring<T> {
    const buf: array<T>
    const w: nat                 // indices wrap at 2^w
    ghost const k: nat           // the size is 2^k
    var head: nat
    var tail: nat
    ghost var written: nat       // free-running head
    ghost var taken: nat         // free-running tail

    ghost predicate Valid()
      reads this
    {
      && k < w && buf.Length == Pow2(k) < Pow2(w)
      && head == Word(written, w) && tail == Word(taken, w)
      && taken <= written <= taken + buf.Length
    }

    /** What is queued, oldest first. */
    ghost function Contents(): (q: seq<T>)
      requires Valid()
      reads this, buf
      ensures |q| == written - taken
    {
      Window(buf[..], taken, written - taken)
    }

    constructor (storage: array<T>, ghost k: nat, w: nat)
      requires k < w && storage.Length == Pow2(k) < Pow2(w)
      ensures Valid() && buf == storage && this.w == w && Contents() == []
    {
      WordZero(w);
      hide Window, Word, Pow2;
      buf, this.k, this.w := storage, k, w;
      head, tail, written, taken := 0, 0, 0, 0;
    }

    /** Masked addressing; the argument wraps first. */
    function Cell(x: nat): nat
      requires buf.Length > 0
    {
      And(Word(x, w), buf.Length - 1)
    }

    lemma CellIsSlot(x: nat, i: nat)
      requires k < w && buf.Length == Pow2(k)
      ensures Cell(Word(x, w) + i) == Slot(x + i, buf.Length)
    {
      WordCell(x, i, k, w);
    }

    method Count() returns (n: nat)
      requires Valid()
      ensures n == |Contents()|
    {
      hide Window, Word, Distance;
      n := Distance(head, tail, w);
      WordDistance(written, taken, w);
    }

    method Free() returns (n: nat)
      requires Valid()
      ensures n == buf.Length - |Contents()|
    {
      hide Window;
      var count := Count();
      n := buf.Length - count;
    }

    /** Stores into the cell i places behind the head. */
    method Put(i: nat, v: T)
      requires Valid()
      modifies buf
      ensures buf[..] == old(buf[..])[Slot(written + i, buf.Length) := v]
    {
      CellIsSlot(written, i);
      buf[Cell(head + i)] := v;
    }

    /** As much of the data as there is room for, appended to the queue. */
    method Write(data: seq<T>) returns (n: nat)
      requires Valid()
      modifies this`head, this`written, buf
      ensures Valid() && n == Min(|data|, buf.Length - |old(Contents())|)
      ensures Contents() == old(Contents()) + data[..n]
    {
      hide Window, Slot, Cell, Word, Pow2;
      var free := Free();
      n := |data|;
      if n > free { n := free; }
      ghost var q := Contents();
      var i := 0;
      while i < n
        invariant i <= n && head == old(head) && written == old(written)
        invariant Window(buf[..], taken, |q| + i) == q + data[..i]
      {
        WindowPut(buf[..], taken, |q| + i, data[i]);
        Put(i, data[i]);
        Assoc(q, data[..i], [data[i]]);
        assert data[..i + 1] == data[..i] + [data[i]];
        i := i + 1;
      }
      WordAdvance(written, n, w);
      head := Word(head + n, w);
      written := written + n;
    }

    /** As many elements as asked for and available, taken off the front. */
    method Read(len: nat) returns (data: seq<T>)
      requires Valid()
      modifies this`tail, this`taken
      ensures Valid() && |data| == Min(len, |old(Contents())|)
      ensures old(Contents()) == data + Contents()
    {
      hide Window, Slot, Cell, Word, Pow2;
      var n := Count();
      if len <= n { n := len; }
      data := [];
      var i := 0;
      while i < n
        invariant i == |data| <= n && data == Window(buf[..], taken, i)
        invariant tail == old(tail) && taken == old(taken)
      {
        CellIsSlot(taken, i);
        WindowNext(buf[..], taken, i);
        data := data + [buf[Cell(tail + i)]];
        i := i + 1;
      }
      Take(n);
    }

    /** Publishes the new tail after n elements have been used. */
    method Take(n: nat)
      requires Valid() && n <= |Contents()|
      modifies this`tail, this`taken
      ensures Valid() && taken == old(taken) + n
      ensures old(Contents()) == Window(buf[..], old(taken), n) + Contents()
    {
      hide Window, Word, Pow2;
      WindowSplits(buf[..], taken, n, written - taken - n);
      WordAdvance(taken, n, w);
      tail := Word(tail + n, w);
      taken := taken + n;
    }

    /** The front of the queue up to the end of the storage, in place. */
    method PeekLinear() returns (index: nat, n: nat)
      requires Valid()
      ensures index + n <= buf.Length && n <= |Contents()|
      ensures buf[index..index + n] == Contents()[..n]
      ensures n == 0 <==> Contents() == []
      ensures n > 0 ==> index == Slot(taken, buf.Length) && n == Min(|Contents()|, buf.Length - index)
    {
      hide Window, Slot, Cell, Word, Pow2;
      var count := Count();
      if count == 0 { return 0, 0; }
      CellIsSlot(taken, 0);
      index := Cell(tail);
      n := buf.Length - index;
      if n > count { n := count; }
      WindowLinear(buf[..], taken, n);
      WindowSplits(buf[..], taken, n, count - n);
    }

    /** Drops up to len elements off the front. */
    method Advance(len: nat)
      requires Valid()
      modifies this`tail, this`taken
      ensures Valid() && Contents() == old(Contents())[Min(len, |old(Contents())|)..]
      ensures taken == old(taken) + Min(len, |old(Contents())|)
    {
      hide Window, Word, Pow2;
      var n := Count();
      if len <= n { n := len; }
      Take(n);
    }

    /** Quiesced use only: both indices back to zero. */
    method Clear()
      requires Valid()
      modifies this
      ensures Valid() && Contents() == []
    {
      WordZero(w);
      hide Window, Word, Pow2;
      head, tail, written, taken := 0, 0, 0, 0;
    }
  }

  /** Storage is accepted exactly when its size is a power of two. */
  method Init<T>(storage: array<T>, w: nat) returns (r: Ring?<T>)
    requires storage.Length < Pow2(w)
    ensures r != null <==> exists k :: storage.Length == Pow2(k)
    ensures r != null ==> fresh(r) && r.Valid() && r.buf == storage && r.Contents() == []
  {
    SizeTestExact(storage.Length);
    if !PassesSizeTest(storage.Length) { return null; }
    ghost var k := SizeTestFinds(storage.Length);
    PowMonotone(k, w);
    r := new Ring(storage, k, w);
  }

  lemma {:induction false} PowMonotone(k: nat, w: nat)
    requires Pow2(k) < Pow2(w)
    ensures k < w
    decreases w
  {
    if w > 0 && k > 0 {
      PowMonotone(k - 1, w - 1);
    }
  }
}
