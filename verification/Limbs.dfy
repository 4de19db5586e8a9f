/** Sign-magnitude limbs, one number at a time: what a limb is, what the limbs
    below an index add up to, and how the limb products of two vectors
    accumulate to their dot product. */
module Limbs {
  import opened Arithmetic

  function Sign(x: int): int { if x < 0 then -1 else 1 }

  /** Limb number `m` of `x`, with the sign of `x`. */
  function Limb(x: int, bits: nat, m: nat): int
  {
    Sign(x) * ((Abs(x) / Pow2(bits * m)) % Pow2(bits))
  }

  /** The part of `x` held by its first `m` limbs. */
  function Low(x: int, bits: nat, m: nat): int
  {
    Sign(x) * (Abs(x) % Pow2(bits * m))
  }

  function LimbVec(v: Vec, bits: nat, m: nat): Vec
  {
    if v == [] then [] else [Limb(v[0], bits, m)] + LimbVec(v[1..], bits, m)
  }

  /** The running total of the limb products of two vectors after every limb
      of `b` met the limbs of `a` below `i`, and limb `i` of `a` met the limbs
      of `b` below `j`. */
  function LaneSum(a: Vec, b: Vec, ba: nat, bb: nat, i: nat, j: nat): int
  {
    if a == [] || b == [] then 0
    else LaneTerm(a[0], b[0], ba, bb, i, j) + LaneSum(a[1..], b[1..], ba, bb, i, j)
  }

  function LaneTerm(x: int, y: int, ba: nat, bb: nat, i: nat, j: nat): int
  {
    Low(x, ba, i) * y + Pow2(ba * i) * Limb(x, ba, i) * Low(y, bb, j)
  }

  // ---- one number --------------------------------------------------------

  lemma ShiftNext(bits: nat, m: nat)
    ensures Pow2(bits * (m + 1)) == Pow2(bits * m) * Pow2(bits)
  {
    assert bits * (m + 1) == bits * m + bits;
    Pow2Add(bits * m, bits);
  }

  lemma ModStep(x: nat, p: int, q: int)
    requires p > 0 && q > 0
    ensures p * q > 0
    ensures x % (p * q) == x % p + p * ((x / p) % q)
  {
    MulMono(1, p, q);
    var y := x / p;
    var z, e := y / q, y % q;
    assert x == z * (p * q) + (p * e + x % p) by {
      assert x == y * p + x % p && y == z * q + e;
      Distribute(z * q, e, p);
      Rotate(z, q, p);
    }
    assert 0 <= p * e + x % p < p * q by {
      MulMono(e, q - 1, p);
      MulMono(0, e, p);
      Distribute(q, -1, p);
    }
    assert x / (p * q) == z by { DivUnique(x, p * q, z); }
    assert x % (p * q) == x - z * (p * q);
  }

  lemma Rotate(z: int, q: int, p: int)
    ensures (z * q) * p == z * (p * q)
  {
  }

  lemma LimbStep(x: int, bits: nat, m: nat)
    ensures Low(x, bits, m + 1) == Low(x, bits, m) + Pow2(bits * m) * Limb(x, bits, m)
  {
    hide Pow2;
    ShiftNext(bits, m);
    ModStep(Abs(x), Pow2(bits * m), Pow2(bits));
  }

  lemma LowZero(x: int, bits: nat)
    ensures Low(x, bits, 0) == 0
  {
  }

  lemma LowAll(x: int, bits: nat, m: nat)
    requires Abs(x) < Pow2(bits * m)
    ensures Low(x, bits, m) == x
  {
    hide Pow2;
    ModSmall(Abs(x), Pow2(bits * m));
  }

  lemma ModSmall(x: nat, d: int)
    requires x < d
    ensures x % d == x
  {
    DivUnique(x, d, 0);
  }

  lemma LimbBound(x: int, bits: nat, m: nat)
    ensures Abs(Limb(x, bits, m)) < Pow2(bits)
  {
    hide Pow2;
  }

  /** Low limbs, and a single limb in its place, never exceed the number. */
  lemma LimbWithin(x: int, bits: nat, m: nat)
    ensures Abs(Low(x, bits, m)) + Abs(Pow2(bits * m) * Limb(x, bits, m)) <= Abs(x)
  {
    hide Pow2;
    ShiftNext(bits, m);
    var p, q := Pow2(bits * m), Pow2(bits);
    ModStep(Abs(x), p, q);
    var l := (Abs(x) / p) % q;
    assert Abs(Low(x, bits, m)) == Abs(x) % p;
    AbsMul(p, Limb(x, bits, m));
    assert Abs(Limb(x, bits, m)) == l;
    assert Abs(x) % (p * q) <= Abs(x) by { ModWithin(Abs(x), p * q); }
  }

  lemma ModWithin(x: nat, d: int)
    requires d > 0
    ensures x % d <= x
  {
    assert x == (x / d) * d + x % d;
    if x / d < 0 { MulMono(x / d, -1, d); }
    MulMono(0, x / d, d);
  }

  // ---- vectors -----------------------------------------------------------

  lemma {:induction false} LimbVecAt(v: Vec, bits: nat, m: nat)
    ensures |LimbVec(v, bits, m)| == |v|
    ensures forall t | 0 <= t < |v| :: LimbVec(v, bits, m)[t] == Limb(v[t], bits, m)
  {
    hide Limb;
    if v != [] { LimbVecAt(v[1..], bits, m); }
  }

  lemma TermStep(x: int, y: int, ba: nat, bb: nat, i: nat, j: nat)
    ensures LaneTerm(x, y, ba, bb, i, j + 1)
         == LaneTerm(x, y, ba, bb, i, j) + (Limb(x, ba, i) * Limb(y, bb, j)) * (Pow2(ba * i) * Pow2(bb * j))
  {
    hide Limb;
    hide Low;
    hide Pow2;
    LimbStep(y, bb, j);
    TermStepAlgebra(Pow2(ba * i), Limb(x, ba, i), Low(y, bb, j), Pow2(bb * j), Limb(y, bb, j));
  }

  lemma TermStepAlgebra(p: int, l: int, low: int, r: int, k: int)
    ensures p * l * (low + r * k) == p * l * low + (l * k) * (p * r)
  {
    Distribute(low, r * k, p * l);
    Rearrange(l, k, p, r);
  }

  lemma LimbDotCons(a: Vec, b: Vec, ba: nat, bb: nat, i: nat, j: nat)
    requires a != [] && b != []
    ensures Dot(LimbVec(a, ba, i), LimbVec(b, bb, j))
         == Limb(a[0], ba, i) * Limb(b[0], bb, j) + Dot(LimbVec(a[1..], ba, i), LimbVec(b[1..], bb, j))
  {
    hide Limb;
    var u, v := LimbVec(a, ba, i), LimbVec(b, bb, j);
    assert u[1..] == LimbVec(a[1..], ba, i);
    assert v[1..] == LimbVec(b[1..], bb, j);
  }

  lemma LimbDotStep(a: Vec, b: Vec, ba: nat, bb: nat, i: nat, j: nat, w: int)
    requires a != [] && b != []
    ensures Dot(LimbVec(a, ba, i), LimbVec(b, bb, j)) * w
         == Limb(a[0], ba, i) * Limb(b[0], bb, j) * w + Dot(LimbVec(a[1..], ba, i), LimbVec(b[1..], bb, j)) * w
  {
    hide Limb;
    hide LimbVec;
    hide Dot;
    LimbDotCons(a, b, ba, bb, i, j);
    Distribute(Limb(a[0], ba, i) * Limb(b[0], bb, j), Dot(LimbVec(a[1..], ba, i), LimbVec(b[1..], bb, j)), w);
  }

  /** Adding one shifted limb product advances the running total. */
  lemma {:induction false} LaneStep(a: Vec, b: Vec, ba: nat, bb: nat, i: nat, j: nat)
    ensures LaneSum(a, b, ba, bb, i, j + 1)
         == LaneSum(a, b, ba, bb, i, j)
            + Dot(LimbVec(a, ba, i), LimbVec(b, bb, j)) * (Pow2(ba * i) * Pow2(bb * j))
  {
    hide Limb;
    hide Low;
    hide Pow2;
    if a != [] && b != [] {
      LaneStep(a[1..], b[1..], ba, bb, i, j);
      TermStep(a[0], b[0], ba, bb, i, j);
      LimbDotStep(a, b, ba, bb, i, j, Pow2(ba * i) * Pow2(bb * j));
    }
  }

  /** Once every limb of `b` met limb `i` of `a`, the next limb of `a` is up. */
  lemma {:induction false} LaneCarry(a: Vec, b: Vec, ba: nat, bb: nat, i: nat, n: nat)
    requires forall t | 0 <= t < |b| :: Abs(b[t]) < Pow2(bb * n)
    ensures LaneSum(a, b, ba, bb, i, n) == LaneSum(a, b, ba, bb, i + 1, 0)
  {
    hide Limb;
    hide Low;
    hide Pow2;
    if a != [] && b != [] {
      LaneCarry(a[1..], b[1..], ba, bb, i, n);
      LowAll(b[0], bb, n);
      LimbStep(a[0], ba, i);
      LowZero(b[0], bb);
      Distribute(Low(a[0], ba, i), Pow2(ba * i) * Limb(a[0], ba, i), b[0]);
    }
  }

  lemma {:induction false} LaneStart(a: Vec, b: Vec, ba: nat, bb: nat)
    ensures LaneSum(a, b, ba, bb, 0, 0) == 0
  {
    hide Limb;
    hide Low;
    hide Pow2;
    if a != [] && b != [] {
      LaneStart(a[1..], b[1..], ba, bb);
      LowZero(a[0], ba);
      LowZero(b[0], bb);
    }
  }

  lemma {:induction false} LaneEnd(a: Vec, b: Vec, ba: nat, bb: nat, n: nat)
    requires forall t | 0 <= t < |a| :: Abs(a[t]) < Pow2(ba * n)
    ensures LaneSum(a, b, ba, bb, n, 0) == Dot(a, b)
  {
    hide Limb;
    hide Low;
    hide Pow2;
    if a != [] && b != [] {
      LaneEnd(a[1..], b[1..], ba, bb, n);
      LowAll(a[0], ba, n);
      LowZero(b[0], bb);
    }
  }

  lemma TermWithin(x: int, y: int, ba: nat, bb: nat, i: nat, j: nat)
    ensures Abs(LaneTerm(x, y, ba, bb, i, j)) <= Abs(x * y)
  {
    hide Limb;
    hide Low;
    hide Pow2;
    LimbWithin(x, ba, i);
    LimbWithin(y, bb, j);
    AbsMul(x, y);
    TermWithinBound(Low(x, ba, i), Pow2(ba * i) * Limb(x, ba, i), y, Low(y, bb, j), Abs(x), Abs(y));
  }

  lemma ProductWithin(x: int, y: int, ba: nat, bb: nat, i: nat, j: nat)
    ensures Abs(Limb(x, ba, i) * Limb(y, bb, j) * (Pow2(ba * i) * Pow2(bb * j))) <= Abs(x * y)
  {
    hide Limb;
    hide Low;
    hide Pow2;
    var sx, sy := Pow2(ba * i) * Limb(x, ba, i), Pow2(bb * j) * Limb(y, bb, j);
    assert Abs(sx) <= Abs(x) by { LimbWithin(x, ba, i); }
    assert Abs(sy) <= Abs(y) by { LimbWithin(y, bb, j); }
    Rearrange(Limb(x, ba, i), Limb(y, bb, j), Pow2(ba * i), Pow2(bb * j));
    AbsMulWithin(sx, sy, x, y);
  }

  lemma AbsMulWithin(a: int, b: int, x: int, y: int)
    requires Abs(a) <= Abs(x) && Abs(b) <= Abs(y)
    ensures Abs(a * b) <= Abs(x * y)
  {
    AbsMulLe(a, b, Abs(y));
    MulMono(Abs(a), Abs(x), Abs(y));
    AbsMul(x, y);
  }

  lemma Rearrange(a: int, b: int, p: int, q: int)
    ensures a * b * (p * q) == (p * a) * (q * b)
  {
    assert a * b * (p * q) == a * (b * p) * q;
  }

  lemma TermWithinBound(lx: int, sx: int, y: int, ly: int, mx: nat, my: nat)
    requires Abs(lx) + Abs(sx) <= mx && Abs(y) <= my && Abs(ly) <= my
    ensures Abs(lx * y + sx * ly) <= mx * my
  {
    AbsMulLe(lx, y, my);
    AbsMulLe(sx, ly, my);
    Distribute(Abs(lx), Abs(sx), my);
    MulMono(Abs(lx) + Abs(sx), mx, my);
  }

  /** No running total and no shifted limb product leaves the bound on the
      magnitudes of the exact products. */
  lemma {:induction false} LaneWithin(a: Vec, b: Vec, ba: nat, bb: nat, i: nat, j: nat)
    ensures Abs(LaneSum(a, b, ba, bb, i, j)) <= AbsDot(a, b)
    ensures Abs(Dot(LimbVec(a, ba, i), LimbVec(b, bb, j)) * (Pow2(ba * i) * Pow2(bb * j))) <= AbsDot(a, b)
  {
    hide Limb;
    hide Low;
    hide Pow2;
    if a != [] && b != [] {
      LaneWithin(a[1..], b[1..], ba, bb, i, j);
      TermWithin(a[0], b[0], ba, bb, i, j);
      ProductWithin(a[0], b[0], ba, bb, i, j);
      LimbDotStep(a, b, ba, bb, i, j, Pow2(ba * i) * Pow2(bb * j));
    }
  }

  lemma {:induction false} AbsSumLe(v: Vec, lim: nat)
    requires Bounded(v, lim)
    ensures AbsSum(v) <= |v| * lim
  {
    if v != [] {
      AbsSumLe(v[1..], lim);
      Distribute(1, |v| - 1, lim);
    }
  }

  lemma LimbVecBounded(v: Vec, bits: nat, m: nat)
    ensures |LimbVec(v, bits, m)| == |v|
    ensures Bounded(LimbVec(v, bits, m), Pow2(bits))
  {
    hide Limb;
    hide Pow2;
    LimbVecAt(v, bits, m);
    forall t | 0 <= t < |v|
      ensures Abs(LimbVec(v, bits, m)[t]) <= Pow2(bits)
    {
      LimbBound(v[t], bits, m);
    }
  }

  /** The limb widths chosen from the inner dimension keep a limb product
      below 2^52. */
  lemma LimbProductSmall(a: Vec, b: Vec, ba: nat, bb: nat, i: nat, j: nat, kb: nat)
    requires |a| <= Pow2(kb) && kb + ba + bb == 52
    ensures AbsDot(LimbVec(a, ba, i), LimbVec(b, bb, j)) < TWO53
  {
    hide Limb;
    hide Pow2;
    var u, v := LimbVec(a, ba, i), LimbVec(b, bb, j);
    LimbVecBounded(a, ba, i);
    LimbVecBounded(b, bb, j);
    AbsDotBound(u, v, Pow2(bb));
    AbsSumLe(u, Pow2(ba));
    TripleMono(AbsSum(u), |u|, Pow2(kb), Pow2(ba), Pow2(bb));
    Pow52(kb, ba, bb);
  }

  lemma Pow2Triple(a: nat, b: nat, c: nat)
    ensures Pow2(a) * Pow2(b) * Pow2(c) == Pow2(a + b + c)
  {
    hide Pow2;
    Pow2Add(a, b);
    Pow2Add(a + b, c);
  }

  lemma Pow52(kb: nat, ba: nat, bb: nat)
    requires kb + ba + bb == 52
    ensures Pow2(kb) * Pow2(ba) * Pow2(bb) < TWO53
  {
    Pow2Triple(kb, ba, bb);
    Below53();
    hide Pow2;
  }

  lemma Below53()
    ensures Pow2(52) < TWO53
  {
    hide Pow2;
    Pow2Constants();
  }

  lemma TripleMono(s: nat, n: nat, p: nat, q: nat, r: nat)
    requires s <= n * q && n <= p
    ensures s * r <= p * q * r
  {
    MulMono(n, p, q);
    MulMono(s, p * q, r);
  }
}
