/** Masks and wrapped indices of a ring whose size is a power of two. */
module Wrapping {
  /** Bitwise and of two naturals. */
  function And(x: nat, y: nat): (r: nat)
    ensures r <= x && r <= y
  {
    if x == 0 || y == 0 then 0
    else 2 * And(x / 2, y / 2) + (if x % 2 == 1 && y % 2 == 1 then 1 else 0)
  }

  function Pow2(k: nat): (p: nat)
    ensures p >= 1
  {
    if k == 0 then 1 else 2 * Pow2(k - 1)
  }

  lemma {:induction false} AndSelf(x: nat)
    ensures And(x, x) == x
  {
    if x > 0 { AndSelf(x / 2); }
  }

  lemma MulStep(m: nat, a: int, b: int)
    requires a < b
    ensures m * a + m <= m * b
  {
    Distribute(m, a, b);
    MulNext(m, b - a - 1);
    NotNegative(m, b - a - 1);
  }

  lemma Distribute(m: nat, a: int, b: int)
    ensures m * b - m * a == m * (b - a)
  {
  }

  lemma MulNext(m: nat, q: int)
    ensures m * (q + 1) == m * q + m
  {
  }

  lemma NotNegative(m: nat, k: nat)
    ensures m * k >= 0
  {
  }

  lemma ModUnique(x: nat, m: nat, q: int, r: nat)
    requires m > 0 && x == m * q + r && r < m
    ensures x % m == r && x / m == q
  {
    assert x == m * (x / m) + x % m;
    if x / m > q {
      MulStep(m, q, x / m);
    } else if x / m < q {
      MulStep(m, x / m, q);
    }
  }

  lemma AndStep(x: nat, y: nat)
    ensures And(x, y) == 2 * And(x / 2, y / 2) + (if x % 2 == 1 && y % 2 == 1 then 1 else 0)
  {
  }

  /** Masking with 2^k - 1 is the remainder by 2^k. */
  lemma {:induction false} MaskIsMod(x: nat, k: nat)
    ensures And(x, Pow2(k) - 1) == x % Pow2(k)
  {
    if k == 0 {
      assert Pow2(0) == 1;
    } else {
      hide And;
      MaskIsMod(x / 2, k - 1);
      MaskStep(x, Pow2(k - 1));
    }
  }

  lemma MaskStep(x: nat, p: nat)
    requires p >= 1 && And(x / 2, p - 1) == (x / 2) % p
    ensures And(x, 2 * p - 1) == x % (2 * p)
  {
    hide And;
    HalfMod(x, p);
    AndStep(x, 2 * p - 1);
    OddHalf(p);
  }

  lemma OddHalf(p: nat)
    requires p >= 1
    ensures (2 * p - 1) / 2 == p - 1 && (2 * p - 1) % 2 == 1
  {
  }

  lemma HalfMod(x: nat, p: nat)
    requires p > 0
    ensures x % (2 * p) == 2 * ((x / 2) % p) + x % 2
  {
    var q, r := (x / 2) / p, (x / 2) % p;
    assert x / 2 == p * q + r;
    assert 2 * (p * q) == 2 * p * q;
    ModUnique(x, 2 * p, q, 2 * r + x % 2);
  }

  /** The test the ring applies to its size. */
  predicate PassesSizeTest(v: nat) {
    v != 0 && And(v, v - 1) == 0
  }

  lemma {:induction false} SizeTestFinds(v: nat) returns (k: nat)
    requires PassesSizeTest(v)
    ensures v == Pow2(k)
  {
    if v == 1 {
      k := 0;
    } else if v % 2 == 1 {
      assert (v - 1) / 2 == v / 2;
      AndSelf(v / 2);
      assert false;
    } else {
      assert (v - 1) / 2 == v / 2 - 1;
      var j := SizeTestFinds(v / 2);
      k := j + 1;
    }
  }

  lemma {:induction false} PowersPass(k: nat)
    ensures PassesSizeTest(Pow2(k))
  {
    if k > 0 {
      PowersPass(k - 1);
      assert (Pow2(k) - 1) / 2 == Pow2(k - 1) - 1;
    }
  }

  /** The size test accepts the powers of two and nothing else. */
  lemma SizeTestExact(v: nat)
    ensures PassesSizeTest(v) <==> exists k :: v == Pow2(k)
  {
    if PassesSizeTest(v) {
      var k := SizeTestFinds(v);
    }
    if k :| v == Pow2(k) {
      PowersPass(k);
    }
  }

  lemma {:induction false} PowDivides(k: nat, w: nat)
    requires k <= w
    ensures Pow2(w) == Pow2(k) * Pow2(w - k)
    decreases w
  {
    if k < w { PowDivides(k, w - 1); }
  }

  /** Quotients of numbers less than m apart are the same or successive. */
  lemma CloseQuotients(qh: int, a: nat, qt: int, b: nat, m: nat, d: nat)
    requires a < m && b < m && d < m && m * qh + a == m * qt + b + d
    ensures qh == qt || qh == qt + 1
  {
    if qh > qt + 1 {
      MulNext(m, qt);
      MulStep(m, qt + 1, qh);
    } else if qh < qt {
      MulStep(m, qh, qt);
    }
  }

  lemma SmallMod(d: nat, m: nat)
    requires d < m
    ensures d % m == d
  {
  }

  /** Unsigned subtraction of wrapped indices gives the distance. */
  lemma WrappedDistance(h: nat, t: nat, m: nat)
    requires m > 0 && t <= h < t + m
    ensures (h % m - t % m) % m == h - t
  {
    var qh, a, qt, b := h / m, h % m, t / m, t % m;
    assert h == m * qh + a && t == m * qt + b;
    CloseQuotients(qh, a, qt, b, m, h - t);
    MulNext(m, qt);
    if qh == qt {
      SmallMod(h - t, m);
    } else {
      ModUniqueNegative(a - b, m, h - t);
    }
  }

  lemma AddMultiple(x: nat, e: nat, m: nat)
    requires m > 0
    ensures (x + m * e) % m == x % m
  {
    var q, r := x / m, x % m;
    assert x == m * q + r;
    assert m * (q + e) == m * q + m * e;
    ModUnique(x + m * e, m, q + e, r);
  }

  /** However far apart, it gives the distance modulo the word. */
  lemma WrappedDifference(h: nat, t: nat, m: nat)
    requires m > 0 && t <= h
    ensures (h % m - t % m) % m == (h - t) % m
  {
    var e, r := (h - t) / m, (h - t) % m;
    assert h - t == m * e + r;
    AddMultiple(t + r, e, m);
    WrappedDistance(t + r, t, m);
  }

  lemma ModUniqueNegative(x: int, m: nat, r: nat)
    requires m > 0 && x == r - m && r < m
    ensures x % m == r
  {
    assert x == m * (x / m) + x % m;
    if x / m > -1 {
      MulStep(m, -1, x / m);
    } else if x / m < -1 {
      MulStep(m, x / m, -1);
    }
  }

  /** What the difference of two readings of a wrapped counter says. */
  lemma CounterStep(now: nat, before: nat, m: nat)
    requires m > 0 && before <= now
    ensures (now % m - before % m) % m == (now - before) % m
    ensures now % m == before % m <==> (now - before) % m == 0
    ensures (now - before) % m == now - before <==> now - before < m
  {
    WrappedDifference(now, before, m);
    var a, b, d := now % m, before % m, now - before;
    if a == b {
      SmallMod(0, m);
    } else if a > b {
      SmallMod(a - b, m);
    } else {
      ModUniqueNegative(a - b, m, a - b + m);
    }
    if d < m { SmallMod(d, m); }
  }

  /** Advancing a wrapped index. */
  lemma WrappedAdvance(h: nat, n: nat, m: nat)
    requires m > 0
    ensures (h % m + n) % m == (h + n) % m
  {
    var q0, q, r := h / m, (h % m + n) / m, (h % m + n) % m;
    assert h == m * q0 + h % m;
    assert h % m + n == m * q + r;
    assert m * (q0 + q) == m * q0 + m * q;
    ModUnique(h + n, m, q0 + q, r);
  }

  lemma ModOfMod(x: nat, p: nat, e: nat)
    requires p > 0 && e > 0 && p * e > 0
    ensures (x % (p * e)) % p == x % p
  {
    var m := p * e;
    var q, r := x / m, x % m;
    assert x == m * q + r;
    assert r == p * (r / p) + r % p;
    assert p * e * q == p * (e * q);
    assert p * (e * q) + p * (r / p) == p * (e * q + r / p);
    ModUnique(x, p, e * q + r / p, r % p);
  }

  /** The masked cell of a wrapped index is the cell of the free-running one. */
  lemma WrappedCell(x: nat, k: nat, w: nat)
    requires k <= w
    ensures And(x % Pow2(w), Pow2(k) - 1) == x % Pow2(k)
  {
    MaskIsMod(x % Pow2(w), k);
    PowDivides(k, w);
    ModOfMod(x, Pow2(k), Pow2(w - k));
  }

  /** Positions less than a ring apart are different cells. */
  lemma DistinctCells(x: nat, y: nat, p: nat)
    requires p > 0 && x < y < x + p
    ensures x % p != y % p
  {
    var qx, qy := x / p, y / p;
    assert x == p * qx + x % p && y == p * qy + y % p;
    if qy > qx {
      MulStep(p, qx, qy);
    } else if qy < qx {
      MulStep(p, qy, qx);
    }
  }

  /** The w-bit machine word a free-running index x is held in. */
  function Word(x: nat, w: nat): nat {
    x % Pow2(w)
  }

  /** head - tail in machine words. */
  function Distance(head: nat, tail: nat, w: nat): nat {
    (head - tail) % Pow2(w)
  }

  lemma WordZero(w: nat)
    ensures Word(0, w) == 0
  {
    ModUnique(0, Pow2(w), 0, 0);
  }

  lemma WordAdvance(x: nat, n: nat, w: nat)
    ensures Word(Word(x, w) + n, w) == Word(x + n, w)
  {
    WrappedAdvance(x, n, Pow2(w));
  }

  lemma WordDistance(h: nat, t: nat, w: nat)
    requires t <= h < t + Pow2(w)
    ensures Distance(Word(h, w), Word(t, w), w) == h - t
  {
    WrappedDistance(h, t, Pow2(w));
  }

  /** The masked machine word addresses the cell of the unwrapped position. */
  lemma WordCell(x: nat, i: nat, k: nat, w: nat)
    requires k <= w
    ensures And(Word(Word(x, w) + i, w), Pow2(k) - 1) == (x + i) % Pow2(k)
  {
    WordAdvance(x, i, w);
    WrappedCell(x + i, k, w);
  }
}
