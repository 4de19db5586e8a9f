/** How good the Newton inverse square root is: what one step computes, how
    fast five steps approach 2^24 / sqrt(x), and where they do not. */
module InverseRootAccuracy {
  import opened Arithmetic
  import opened Rounding
  import opened LegacyExp
  import LegacyIsqrt

  /** The root of x is reached when x * y^2 is 2^48. */
  const GOAL: int := 0x1_0000_0000_0000

  /** One step from y to z through its two floors and its truncation. */
  predicate IsNewton(x: int, y: int, y2: int, t: int, z: int)
  {
    && IsFloor(y2, y * y, 16) && IsFloor(t, x * y2, 16)
    && InI64(y * y) && InI64(x * y2) && InI64(y * (0x3_0000 - t))
    && if y * (0x3_0000 - t) >= 0x2_0000 then IsTruncation(z, y * (0x3_0000 - t), 0x2_0000) else z == 1
  }

  /** A step returns z exactly when z is the truncation of y * (3 - x * y^2) / 2,
      and 1 when that is smaller. */
  lemma StepMeaning(x: int, y: int, z: int)
    ensures NewtonStep(x, y) == Some(z) <==> exists y2, t :: IsNewton(x, y, y2, t, z)
  {
    hide IsFloor;
    hide IsTruncation;
    var y2 := Shr(y * y, 16);
    var t := Shr(x * y2, 16);
    ShrIsFloor(y * y, 16, y2);
    ShrIsFloor(x * y2, 16, t);
    hide Shr;
    var n := y * (0x3_0000 - t);
    TDivIsTruncation(n, 0x2_0000, TDiv(n, 0x2_0000));
    TDivIsTruncation(n, 0x2_0000, z);
    if n >= 0x2_0000 { DivMono(0x2_0000, n, 0x2_0000); } else { SmallTruncation(n); }
    forall a, b | IsNewton(x, y, a, b, z)
      ensures a == y2 && b == t
    {
      ShrIsFloor(y * y, 16, a);
      ShrIsFloor(x * y2, 16, b);
    }
    if NewtonStep(x, y) == Some(z) { assert IsNewton(x, y, y2, t, z); }
  }

  lemma SmallTruncation(n: int)
    requires n < 0x2_0000
    ensures TDiv(n, 0x2_0000) <= 0
  {
  }

  // ---- one step in numbers ---------------------------------------------------

  /** What the two floors can lose, in units of 2^-48. */
  function Loss(x: int): int { 0x1_0000 * x + 0x1_0000_0000 }

  /** 3 - x * y^2 as the step sees it, in units of 2^-48. */
  lemma Factor(x: int, y: int, y2: int, t: int, z: int)
    requires x >= 1 && IsNewton(x, y, y2, t, z)
    ensures var w, a := x * (y * y), 0x1_0000_0000 * (0x3_0000 - t); 3 * GOAL - w <= a < 3 * GOAL - w + Loss(x)
  {
    Pow2Small();
    MulMono(y2 * ONE, y * y, x);
    MulStrict(y * y, y2 * ONE + ONE, x);
    assert (y2 * ONE) * x == (x * y2) * ONE;
    assert (y2 * ONE + ONE) * x == (x * y2) * ONE + ONE * x;
  }

  /** The product of a number and the square of what is left of a fixed sum is
      largest at one third. */
  lemma LargestProduct(w: int, a: int)
    requires 0 <= w && 0 <= a
    ensures 27 * (w * (a * a)) <= 4 * ((w + a) * ((w + a) * (w + a)))
  {
    var s := 2 * w - a;
    assert 4 * ((w + a) * ((w + a) * (w + a))) - 27 * (w * (a * a)) == (s * s) * (w + 4 * a);
    MulMono(0, s * s, w + 4 * a);
  }

  lemma CubeBound(n: int, d: int)
    requires 0 <= d <= n
    ensures (3 * n + d) * ((3 * n + d) * (3 * n + d)) <= 27 * (n * (n * n)) + 37 * (n * n * d)
  {
    MulMono(d, n, d);
    MulMono(d * d, n * d, d);
    MulMono(d * d, n * d, n);
    MulMono(d * d, n * d, n);
    MulMono(d, n, n * d);
    assert (3 * n + d) * ((3 * n + d) * (3 * n + d))
        == 27 * (n * (n * n)) + 27 * (n * n * d) + 9 * (n * (d * d)) + d * (d * d);
    assert n * (d * d) <= n * n * d;
    assert d * (d * d) <= n * n * d;
  }

  lemma CubeMono(a: int, b: int)
    requires 0 <= a <= b
    ensures a * (a * a) <= b * (b * b)
  {
    MulMono(a, b, a);
    MulMono(a, b, b);
    MulMono(a, b, a * a);
    MulMono(a * a, b * b, b);
  }

  /** Squaring c * z <= y * a and multiplying by x. */
  lemma SquaredLe(x: int, y: int, z: int, a: int, c: int)
    requires x >= 0 && 0 <= c * z <= y * a
    ensures c * c * (x * (z * z)) <= (x * (y * y)) * (a * a)
  {
    var p, q := c * z, y * a;
    MulMono(p, q, p);
    MulMono(p, q, q);
    MulMono(p * p, q * q, x);
    assert (p * p) * x == c * c * (x * (z * z));
    assert (q * q) * x == (x * (y * y)) * (a * a);
  }

  const TWO49: int := 0x2_0000_0000_0000

  /** The square of a step against the cube it comes from; `a` stands for
      3 - x * y^2. */
  lemma StepSquared(x: int, y: int, f: int, z: int)
    requires 1 <= x && 1 <= y && y * f >= 0x2_0000 && IsTruncation(z, y * f, 0x2_0000)
    ensures z >= 1 && f > 0
    ensures var w, a := x * (y * y), 0x1_0000_0000 * f;
      TWO49 * TWO49 * (x * (z * z)) <= w * (a * a) <= TWO49 * TWO49 * (x * ((z + 1) * (z + 1)))
  {
    Truncated(y * f, z);
    Positive(y, f);
    Scaled(y, f);
    SquaredLe(x, y, z, 0x1_0000_0000 * f, TWO49);
    SquaredGe(x, y, z + 1, 0x1_0000_0000 * f, TWO49);
  }

  lemma SquaredGe(x: int, y: int, z: int, a: int, c: int)
    requires x >= 0 && 0 <= y * a <= c * z
    ensures (x * (y * y)) * (a * a) <= c * c * (x * (z * z))
  {
    var p, q := y * a, c * z;
    MulMono(p, q, p);
    MulMono(p, q, q);
    MulMono(p * p, q * q, x);
    assert (p * p) * x == (x * (y * y)) * (a * a);
    assert (q * q) * x == c * c * (x * (z * z));
  }

  /** No step ends far above the root, wherever it starts. */
  lemma UpperStep(x: int, y: int, y2: int, t: int, z: int)
    requires 1 <= x && 1 <= y && Loss(x) <= GOAL && IsNewton(x, y, y2, t, z)
    ensures z >= 1 && 27 * (x * (z * z) - GOAL) <= 37 * Loss(x)
  {
    Factor(x, y, y2, t, z);
    hide IsFloor;
    hide IsTruncation;
    hide Loss;
    if y * (0x3_0000 - t) >= 0x2_0000 {
      StepSquared(x, y, 0x3_0000 - t, z);
      MulMono(1, y, y);
      MulMono(0, y * y, x);
      CubeOfGoal(x, x * (y * y), 0x1_0000_0000 * (0x3_0000 - t));
      var a := 0x1_0000_0000 * (0x3_0000 - t);
      DivideOut(x * (z * z), (x * (y * y)) * (a * a), Loss(x));
    } else {
      LossCovers(x);
    }
  }

  lemma DivideOut(s: int, p: int, d: int)
    requires TWO49 * TWO49 * s <= p && 27 * p <= 4 * (27 * (GOAL * (GOAL * GOAL)) + 37 * (GOAL * GOAL * d))
    ensures 27 * (s - GOAL) <= 37 * d
  {
  }

  lemma LossCovers(x: int)
    requires 1 <= x && Loss(x) <= GOAL
    ensures x <= GOAL && Loss(x) >= 0
  {
  }

  lemma Truncated(n: int, z: int)
    requires n >= 0x2_0000 && IsTruncation(z, n, 0x2_0000)
    ensures 1 <= z && 0x2_0000 * z <= n < 0x2_0000 * z + 0x2_0000
  {
  }

  lemma Positive(y: int, f: int)
    requires y >= 1 && y * f > 0
    ensures f > 0
  {
    if f <= 0 { MulMono(f, 0, y); }
  }

  lemma Scaled(y: int, f: int)
    ensures y * (0x1_0000_0000 * f) == 0x1_0000_0000 * (y * f)
  {
  }

  lemma CubeOfGoal(x: int, w: int, a: int)
    requires 1 <= x && 0 <= w && 0 <= a && w + a <= 3 * GOAL + Loss(x) && Loss(x) <= GOAL
    ensures 27 * (w * (a * a)) <= 4 * (27 * (GOAL * (GOAL * GOAL)) + 37 * (GOAL * GOAL * Loss(x)))
  {
    LossCovers(x);
    LargestProduct(w, a);
    hide Loss;
    CubeMono(w + a, 3 * GOAL + Loss(x));
    CubeBound(GOAL, Loss(x));
  }

  /** w * (3 - w)^2 / 4 is 1 at w = 1 and flat there. */
  lemma Flat(n: int, w: int)
    ensures w * ((3 * n - w) * (3 * n - w)) == 4 * (n * (n * n)) - ((n - w) * (n - w)) * (4 * n - w)
  {
  }

  /** v^2 * (3 - v) grows up to v = 2. */
  lemma RisingCubic(n: int, v: int, u: int)
    requires 0 <= v <= u <= 2 * n
    ensures (v * v) * (3 * n - v) <= (u * u) * (3 * n - u)
  {
    var c := 3 * n * (u + v) - (u * u + u * v + v * v);
    assert c >= 0 by { SlopePositive(n, v, u); }
    CubicDifference(n, v, u);
    MulMono(0, u - v, c);
  }

  lemma SlopePositive(n: int, v: int, u: int)
    requires 0 <= v <= u <= 2 * n
    ensures 3 * n * (u + v) - (u * u + u * v + v * v) >= 0
  {
    assert u * u <= 2 * n * u by { MulMono(u, 2 * n, u); }
    assert u * v <= 2 * n * v by { MulMono(u, 2 * n, v); }
    assert v * v <= 2 * n * v by { MulMono(v, 2 * n, v); }
    assert v * n <= u * n by { MulMono(v, u, n); }
  }

  lemma CubicDifference(n: int, v: int, u: int)
    ensures (u * u) * (3 * n - u) - (v * v) * (3 * n - v)
         == (u - v) * (3 * n * (u + v) - (u * u + u * v + v * v))
  {
  }

  /** How far (1 - w)^2 * (4 - w) can be from 0 for w between 1 - lo and 1 + hi. */
  lemma Dip(n: int, w: int, lo: int, hi: int, m: int)
    requires 0 <= lo <= n && 0 <= hi <= 2 * n && n - lo <= w <= n + hi
    requires (lo * lo) * (3 * n + lo) <= m && (hi * hi) * (3 * n - hi) <= m
    ensures ((n - w) * (n - w)) * (4 * n - w) <= m
  {
    if w <= n {
      var v := n - w;
      MulMono(v, lo, v);
      MulMono(v, lo, lo);
      MulMono(v * v, lo * lo, 3 * n + v);
      MulMono(v, lo, lo * lo);
      assert (lo * lo) * (3 * n + v) <= (lo * lo) * (3 * n + lo);
    } else {
      RisingCubic(n, w - n, hi);
      assert (n - w) * (n - w) == (w - n) * (w - n);
    }
  }

  lemma SquareScaled(w: int, b: int, a: int)
    requires 0 <= w && 0 <= b <= a
    ensures w * (b * b) <= w * (a * a)
  {
    MulMono(b, a, b);
    MulMono(b, a, a);
    MulMono(b * b, a * a, w);
  }

  /** The next step is at most e below the root, plus one unit of z. */
  lemma LowerStep(x: int, y: int, y2: int, t: int, z: int, lo: int, hi: int, e: int)
    requires 1 <= x && 1 <= y && IsNewton(x, y, y2, t, z)
    requires 0 <= lo <= GOAL && 0 <= hi < 2 * GOAL && GOAL - lo <= x * (y * y) <= GOAL + hi
    requires (lo * lo) * (3 * GOAL + lo) <= 4 * (GOAL * GOAL) * e
    requires (hi * hi) * (3 * GOAL - hi) <= 4 * (GOAL * GOAL) * e
    ensures x * ((z + 1) * (z + 1)) >= GOAL - e
  {
    Factor(x, y, y2, t, z);
    hide IsFloor;
    hide IsTruncation;
    hide Loss;
    var w, f := x * (y * y), 0x3_0000 - t;
    var a := 0x1_0000_0000 * f;
    StepBelow(x, y, f, z);
    SquareScaled(w, 3 * GOAL - w, a);
    Flat(GOAL, w);
    Dip(GOAL, w, lo, hi, 4 * (GOAL * GOAL) * e);
    Below(x * ((z + 1) * (z + 1)), w * (a * a), ((GOAL - w) * (GOAL - w)) * (4 * GOAL - w), e);
  }

  lemma StepBelow(x: int, y: int, f: int, z: int)
    requires 1 <= x && 1 <= y && f > 0
    requires if y * f >= 0x2_0000 then IsTruncation(z, y * f, 0x2_0000) else z == 1
    ensures var w, a := x * (y * y), 0x1_0000_0000 * f;
      w * (a * a) <= TWO49 * TWO49 * (x * ((z + 1) * (z + 1)))
  {
    MulMono(1, f, y);
    Scaled(y, f);
    if y * f >= 0x2_0000 { Truncated(y * f, z); }
    SquaredGe(x, y, z + 1, 0x1_0000_0000 * f, TWO49);
  }

  lemma Below(s: int, p: int, dip: int, e: int)
    requires p <= TWO49 * TWO49 * s && 4 * (GOAL * (GOAL * GOAL)) - dip <= p && dip <= 4 * (GOAL * GOAL) * e
    ensures s >= GOAL - e
  {
  }

  // ---- the chain ---------------------------------------------------------------

  /** x * y^2 lies between 1 - lo and 1 + hi. */
  ghost predicate Near(x: int, y: int, lo: int, hi: int)
  {
    y >= 1 && GOAL - lo <= x * (y * y) <= GOAL + hi
  }

  /** One unit of z is worth at most `unit` when x * z^2 is at most `top`. */
  lemma OneUnit(x: int, z: int, top: int, root: int, unit: int)
    requires x >= 1 && z >= 1 && root >= 0 && x * (z * z) <= top && x * top < root * root && 2 * root + x <= unit
    ensures x * ((z + 1) * (z + 1)) - x * (z * z) <= unit
  {
    BelowRoot(x, z, top, root);
    NextSquare(x, z);
  }

  lemma BelowRoot(x: int, z: int, top: int, root: int)
    requires x >= 1 && z >= 1 && root >= 0 && x * (z * z) <= top && x * top < root * root
    ensures x * z < root
  {
    MulMono(x * (z * z), top, x);
    Regrouped(x, z);
    if x * z >= root { LegacyIsqrt.SquareMono(root, x * z); }
  }

  lemma Regrouped(x: int, z: int)
    ensures (x * z) * (x * z) == (x * (z * z)) * x
  {
  }

  lemma NextSquare(x: int, z: int)
    ensures x * ((z + 1) * (z + 1)) == x * (z * z) + 2 * (x * z) + x
  {
  }

  /** The starting value is within a factor of two. */
  lemma FirstGuessNear(x: int)
    requires 1 <= x < 0x1_0000_0000_0000
    ensures Near(x, FirstGuess(x), GOAL / 2, GOAL - 1)
  {
    hide Pow2;
    var b := Floor2(x);
    var c := (b + 1) / 2;
    LegacyIsqrt.Pow24();
    Pow48();
    if b >= 48 { Pow2Mono(48, b); }
    Pow2Add(24 - c, c);
    DivOfMultiple(Pow2(24 - c), 0, Pow2(c));
    var y := Pow2(24 - c);
    Pow2Add(24 - c, 24 - c);
    Pow2Add(b, 48 - 2 * c);
    Pow2Add(b + 1, 48 - 2 * c);
    MulMono(Pow2(b), x, y * y);
    MulStrict(x, Pow2(b + 1), y * y);
    Pow2Mono(47, b + 48 - 2 * c);
    Pow2Mono(b + 49 - 2 * c, 49);
  }

  lemma Pow48()
    ensures Pow2(47) == 0x8000_0000_0000 && Pow2(48) == GOAL
  {
    Pow2Small();
    Pow2Add(31, 16);
    Pow2Add(32, 16);
  }

  /** What a step does to the bounds of its starting point. */
  lemma StepNear(x: int, y: int, lo: int, hi: int, z: int, e: int, hi': int)
    requires 1 <= x && Loss(x) <= GOAL && NewtonStep(x, y) == Some(z) && Near(x, y, lo, hi)
    requires 0 <= lo <= GOAL && 0 <= hi < 2 * GOAL && 37 * Loss(x) <= 27 * hi'
    requires (lo * lo) * (3 * GOAL + lo) <= 4 * (GOAL * GOAL) * e
    requires (hi * hi) * (3 * GOAL - hi) <= 4 * (GOAL * GOAL) * e
    ensures z >= 1 && x * (z * z) <= GOAL + hi' && x * ((z + 1) * (z + 1)) >= GOAL - e
  {
    StepMeaning(x, y, z);
    hide NewtonStep;
    hide IsNewton;
    hide Loss;
    var y2, t :| IsNewton(x, y, y2, t, z);
    UpperStep(x, y, y2, t, z);
    LowerStep(x, y, y2, t, z, lo, hi, e);
  }

  /** The same with the unit of z taken off, ready for the next step. */
  lemma NextNear(x: int, y: int, lo: int, hi: int, z: int, e: int, hi': int, root: int, lo': int)
    requires 1 <= x && Loss(x) <= GOAL && NewtonStep(x, y) == Some(z) && Near(x, y, lo, hi)
    requires 0 <= lo <= GOAL && 0 <= hi < 2 * GOAL && 37 * Loss(x) <= 27 * hi'
    requires (lo * lo) * (3 * GOAL + lo) <= 4 * (GOAL * GOAL) * e
    requires (hi * hi) * (3 * GOAL - hi) <= 4 * (GOAL * GOAL) * e
    requires root >= 0 && x * (GOAL + hi') < root * root && e + 2 * root + x <= lo'
    ensures Near(x, z, lo', hi')
  {
    StepNear(x, y, lo, hi, z, e, hi');
    OneUnit(x, z, GOAL + hi', root, 2 * root + x);
  }

  /** The last step the code takes, from any starting value. */
  lemma LastStep(x: int) returns (y: int, r: int)
    requires 1 <= x && InI64(x)
    ensures InverseSqrt(x) == Some(r) && Newton(x, FirstGuess(x), 4) == Some(y) && NewtonStep(x, y) == Some(r)
  {
    hide NewtonStep;
    LegacyIsqrt.InverseSqrtTotal(x);
    y, r := NewtonSplit(x, FirstGuess(x), 4);
  }

  lemma {:induction false} NewtonSplit(x: int, y: int, n: nat) returns (mid: int, end: int)
    requires Newton(x, y, n + 1).Some?
    ensures Newton(x, y, n) == Some(mid) && NewtonStep(x, mid) == Some(end) && Newton(x, y, n + 1) == Some(end)
    decreases n
  {
    hide NewtonStep;
    if n == 0 {
      mid := y;
      assert Newton(x, NewtonStep(x, y).value, 0) == NewtonStep(x, y);
      end := NewtonStep(x, y).value;
    } else {
      mid, end := NewtonSplit(x, NewtonStep(x, y).value, n - 1);
    }
  }

  // ---- everywhere below 2^32 -----------------------------------------------------

  const COARSE_LO: int := 0xC7AF_0000_0000
  const COARSE_HI: int := 0x1_5ED1_0000_0000

  /** Below 2^32 no step leaves the interval from 0.22 to 2.38. */
  lemma {:induction false} StaysCoarse(x: int, y: int, n: nat)
    requires 1 <= x <= 0xFFFF_0000 && Newton(x, y, n).Some?
    requires Near(x, y, COARSE_LO, COARSE_HI)
    ensures Near(x, Newton(x, y, n).value, COARSE_LO, COARSE_HI)
    decreases n
  {
    hide NewtonStep;
    if n > 0 {
      var z := NewtonStep(x, y).value;
      CoarseStep(x, y, z, COARSE_LO, COARSE_HI);
      StaysCoarse(x, z, n - 1);
    }
  }

  lemma CoarseStep(x: int, y: int, z: int, lo: int, hi: int)
    requires 1 <= x <= 0xFFFF_0000 && NewtonStep(x, y) == Some(z) && Near(x, y, lo, hi)
    requires (lo == COARSE_LO && hi == COARSE_HI) || (lo == GOAL / 2 && hi == GOAL - 1)
    ensures Near(x, z, COARSE_LO, COARSE_HI)
  {
    hide NewtonStep;
    NextNear(x, y, lo, hi, z, 0xC3DD_0000_0000, COARSE_HI, 0x18B_0000_0000, COARSE_LO);
  }

  /** Below 2^32 the result is within a factor of the root of five, and never
      more than a factor 64/27 too large in the square. */
  lemma InverseSqrtCoarse(x: int)
    requires 1 <= x <= 0xFFFF_0000
    ensures InverseSqrt(x).Some?
    ensures var r := InverseSqrt(x).value; GOAL <= 5 * (x * (r * r)) && 27 * (x * (r * r)) <= 64 * GOAL
  {
    hide NewtonStep;
    LegacyIsqrt.InverseSqrtTotal(x);
    FirstGuessNear(x);
    var y := FirstGuess(x);
    hide FirstGuess;
    var z := NewtonStep(x, y).value;
    CoarseStep(x, y, z, GOAL / 2, GOAL - 1);
    StaysCoarse(x, z, 3);
    var u, r := LastStep(x);
    assert Newton(x, y, 4) == Newton(x, z, 3);
    CoarseStep(x, u, r, COARSE_LO, COARSE_HI);
    LastUpper(x, u, r);
  }

  lemma LastUpper(x: int, y: int, z: int)
    requires 1 <= x && 1 <= y && Loss(x) <= GOAL && NewtonStep(x, y) == Some(z)
    ensures 27 * (x * (z * z) - GOAL) <= 37 * Loss(x)
  {
    StepMeaning(x, y, z);
    hide NewtonStep;
    hide IsNewton;
    hide Loss;
    var y2, t :| IsNewton(x, y, y2, t, z);
    UpperStep(x, y, y2, t, z);
  }

  // ---- up to 2^28 ----------------------------------------------------------------

  /** Above 37/27 of the loss and easier to square. */
  function Excess(x: int): int { 0x1_6000 * (x + 0x1_0000) }

  const FINE_HI: int := 0x1601_6000_0000

  const FINE_ROOT: int := 0x42_B400_0000

  lemma FineStep(x: int, y: int, lo: int, hi: int, z: int, e: int, lo': int)
    requires 1 <= x <= 0x1000_0000 && NewtonStep(x, y) == Some(z) && Near(x, y, lo, hi)
    requires 0 <= lo <= GOAL && 0 <= hi < 2 * GOAL && e + 2 * FINE_ROOT + 0x1000_0000 <= lo'
    requires (lo * lo) * (3 * GOAL + lo) <= 4 * (GOAL * GOAL) * e
    requires (hi * hi) * (3 * GOAL - hi) <= 4 * (GOAL * GOAL) * e
    ensures Near(x, z, lo', Excess(x)) && Near(x, z, lo', FINE_HI)
  {
    hide NewtonStep;
    MulMono(GOAL + Excess(x), GOAL + FINE_HI, x);
    MulMono(x, 0x1000_0000, GOAL + FINE_HI);
    NextNear(x, y, lo, hi, z, e, Excess(x), FINE_ROOT, lo');
  }

  /** Up to 2^28 four steps reach the root to within one percent. */
  lemma FourSteps(x: int)
    requires 1 <= x <= 0x1000_0000 && Newton(x, FirstGuess(x), 4).Some?
    ensures Near(x, Newton(x, FirstGuess(x), 4).value, 0x1E7_0000_0000, Excess(x))
  {
    hide NewtonStep;
    FirstGuessNear(x);
    var y0 := FirstGuess(x);
    hide FirstGuess;
    var y1 := NewtonStep(x, y0).value;
    var y2 := NewtonStep(x, y1).value;
    var y3 := NewtonStep(x, y2).value;
    var y4 := NewtonStep(x, y3).value;
    assert Newton(x, y0, 4) == Newton(x, y1, 3) == Newton(x, y2, 2) == Newton(x, y3, 1) == Newton(x, y4, 0);
    FineStep(x, y0, GOAL / 2, GOAL - 1, y1, 0x8000_0000_0000, 0x8086_0000_0000);
    FineStep(x, y1, 0x8086_0000_0000, FINE_HI, y2, 0x387E_0000_0000, 0x3904_0000_0000);
    FineStep(x, y2, 0x3904_0000_0000, FINE_HI, y3, 0xA3C_0000_0000, 0xAC2_0000_0000);
    FineStep(x, y3, 0xAC2_0000_0000, FINE_HI, y4, 0x161_0000_0000, 0x1E7_0000_0000);
  }

  /** Up to 2^28 the result r is the inverse root: x * r^2 exceeds 2^48 by at
      most 37/27 of what the two floors lose, and x * (r + 1)^2 falls short of it
      by at most 2^34 + 3 (x + 2^16)^2 / 2^17. */
  lemma InverseSqrtAccurate(x: int)
    requires 1 <= x <= 0x1000_0000
    ensures InverseSqrt(x).Some?
    ensures var r := InverseSqrt(x).value;
      && 27 * (x * (r * r) - GOAL) <= 37 * Loss(x)
      && 0x2_0000 * (GOAL - x * ((r + 1) * (r + 1))) <= 0x8_0000_0000_0000 + 3 * ((x + 0x1_0000) * (x + 0x1_0000))
  {
    hide NewtonStep;
    hide Newton;
    hide InverseSqrt;
    var y, r := LastStep(x);
    FourSteps(x);
    hide FirstGuess;
    LastUpper(x, y, r);
    LastLower(x, y, r);
    hide Loss;
  }

  lemma LastLower(x: int, y: int, r: int)
    requires 1 <= x <= 0x1000_0000 && NewtonStep(x, y) == Some(r) && Near(x, y, 0x1E7_0000_0000, Excess(x))
    ensures 0x2_0000 * (GOAL - x * ((r + 1) * (r + 1)))
         <= 0x8_0000_0000_0000 + 3 * ((x + 0x1_0000) * (x + 0x1_0000))
  {
    hide NewtonStep;
    var s := x + 0x1_0000;
    var q := s * s;
    var e := 0x4_0000_0000 + 3 * q / 0x2_0000;
    ExcessSquared(s);
    MulMono(1, s, s);
    ExcessDip(Excess(x), q, e);
    hide Near;
    StepNear(x, y, 0x1E7_0000_0000, Excess(x), r, e, Excess(x));
  }

  lemma ExcessSquared(s: int)
    ensures (0x1_6000 * s) * (0x1_6000 * s) == 0x1_6000 * 0x1_6000 * (s * s)
  {
  }

  lemma ExcessDip(h: int, q: int, e: int)
    requires 0 <= h && h * h == 0x1_6000 * 0x1_6000 * q && e == 0x4_0000_0000 + 3 * q / 0x2_0000
    ensures (h * h) * (3 * GOAL - h) <= 4 * (GOAL * GOAL) * e
  {
    MulMono(3 * GOAL - h, 3 * GOAL, h * h);
  }

  /** Up to 2^24 the square is right to one part in 128. */
  lemma InverseSqrtClose(x: int)
    requires 1 <= x <= 0x100_0000
    ensures InverseSqrt(x).Some?
    ensures var r := InverseSqrt(x).value; Abs(x * (r * r) - GOAL) <= GOAL / 128
  {
    InverseSqrtAccurate(x);
    LegacyIsqrt.InverseSqrtTotal(x);
    hide InverseSqrt;
    var r, s := InverseSqrt(x).value, x + 0x1_0000;
    MulMono(s, 0x101_0000, s);
    MulMono(x, 0x100_0000, 0x1_0200_0000_0000);
    OneUnit(x, r, 0x1_0200_0000_0000, 0x10_1000_0000, 0x21_0000_0000);
  }

  // ---- progress --------------------------------------------------------------------

  /** Below the root a step never moves away from it, and below 1/sqrt(2) of it
      it gains a quarter. */
  lemma Progress(x: int, y: int, z: int)
    requires 1 <= x && 1 <= y && NewtonStep(x, y) == Some(z)
    ensures x * (y * y) <= GOAL ==> z >= y
    ensures 2 * (x * (y * y)) <= GOAL ==> 4 * z > 5 * y - 4
  {
    StepMeaning(x, y, z);
    hide NewtonStep;
    hide IsFloor;
    hide IsTruncation;
    hide Loss;
    var y2, t :| IsNewton(x, y, y2, t, z);
    Factor(x, y, y2, t, z);
    hide IsNewton;
    if x * (y * y) <= GOAL { Grows(x, y, y2, t, z, 0x2_0000); }
    if 2 * (x * (y * y)) <= GOAL { Grows(x, y, y2, t, z, 0x2_8000); }
  }

  lemma Grows(x: int, y: int, y2: int, t: int, z: int, f: int)
    requires 1 <= y && IsNewton(x, y, y2, t, z) && 0x2_0000 <= f <= 0x3_0000 - t
    ensures 0x2_0000 * z + 0x2_0000 > y * f
  {
    hide IsFloor;
    MulMono(f, 0x3_0000 - t, y);
    MulMono(0x2_0000, 0x3_0000 - t, y);
    Truncated(y * (0x3_0000 - t), z);
    hide IsTruncation;
  }

  // ---- from 2^34 on ----------------------------------------------------------------

  /** A small y loses its square to the first floor and only grows. */
  lemma SmallStep(x: int, y: int)
    requires 0 <= x && InI64(x) && 1 <= y < 256
    ensures NewtonStep(x, y) == Some(if y == 1 then 1 else 3 * y / 2)
  {
    Pow2Small();
    MulMono(1, y, y);
    MulMono(y, 255, y);
  }

  /** A larger one overshoots so far that the step starts again at 1. */
  lemma Collapse(x: int, y: int)
    requires 0x4_0000_0000 <= x && InI64(x) && 256 <= y < 362
    ensures NewtonStep(x, y) == Some(1)
  {
    Pow2Small();
    MulMono(256, y, y);
    MulMono(y, 361, y);
    var t := x / ONE;
    DivMono(0x4_0000_0000, x, ONE);
    DivMono(x, TWO63, ONE);
    MulMono(0x3_0000 - t, 0, y);
    MulBound(y, 0x3_0000 - t, 361, 0x8000_0000_0000);
    assert IsNewton(x, y, 1, t, 1);
    StepMeaning(x, y, 1);
  }

  /** The starting value by the size of x. */
  lemma GuessAt(x: int, c: nat)
    requires 1 <= c && Pow2(2 * c - 1) <= x < Pow2(2 * c + 1)
    ensures FirstGuess(x) == if c <= 24 then Pow2(24 - c) else 1
  {
    hide Pow2;
    var b := Floor2(x);
    if b < 2 * c - 1 { Pow2Mono(b + 1, 2 * c - 1); }
    if b > 2 * c { Pow2Mono(2 * c + 1, b); }
    LegacyIsqrt.Pow24();
    if c <= 24 {
      Pow2Add(24 - c, c);
      DivOfMultiple(Pow2(24 - c), 0, Pow2(c));
    } else {
      Pow2Mono(25, c);
      DivUnique(0x100_0000, Pow2(c), 0);
    }
  }

  /** Five steps written out. */
  lemma Trace(x: int, y0: int, y1: int, y2: int, y3: int, y4: int, y5: int)
    requires 0x4_0000_0000 <= x && InI64(x) && 1 <= y0 && FirstGuess(x) == y0
    requires StepsTo(y0, y1) && StepsTo(y1, y2) && StepsTo(y2, y3) && StepsTo(y3, y4) && StepsTo(y4, y5)
    ensures InverseSqrt(x) == Some(y5)
  {
    hide FirstGuess;
    hide StepsTo;
    Steps(x, y0, y1);
    Steps(x, y1, y2);
    Steps(x, y2, y3);
    Steps(x, y3, y4);
    Steps(x, y4, y5);
    LegacyIsqrt.FiveSteps(x, y0, y1, y2, y3, y4, y5);
  }

  /** Where a step from y leads when x is at least 2^34. */
  predicate StepsTo(y: int, z: int)
  {
    1 <= y < 362 && z == if y == 1 || y >= 256 then 1 else 3 * y / 2
  }

  lemma Steps(x: int, y: int, z: int)
    requires 0x4_0000_0000 <= x && InI64(x) && StepsTo(y, z)
    ensures NewtonStep(x, y) == Some(z)
  {
    if y < 256 { SmallStep(x, y); } else { Collapse(x, y); }
  }

  /** From 2^34 on the result depends on the size of x alone. */
  function LargeRoot(x: int): int
  {
    if x < 0x20_0000_0000 then 1
    else if x < 0x80_0000_0000 then 243
    else if x < 0x200_0000_0000 then 121
    else if x < 0x800_0000_0000 then 60
    else if x < 0x2000_0000_0000 then 28
    else if x < 0x8000_0000_0000 then 13
    else 1
  }

  lemma LargePowers()
    ensures Pow2(33) == 0x2_0000_0000 && Pow2(35) == 0x8_0000_0000 && Pow2(37) == 0x20_0000_0000
    ensures Pow2(39) == 0x80_0000_0000 && Pow2(41) == 0x200_0000_0000 && Pow2(43) == 0x800_0000_0000
    ensures Pow2(45) == 0x2000_0000_0000 && Pow2(47) == 0x8000_0000_0000 && Pow2(49) == 0x2_0000_0000_0000
  {
    Pow2Small();
    var p32 := Pow2(32);
    assert Pow2(33) == 2 * p32;
    assert Pow2(35) == 2 * Pow2(34);
    assert Pow2(37) == 2 * Pow2(36);
    assert Pow2(39) == 2 * Pow2(38);
    assert Pow2(41) == 2 * Pow2(40);
    assert Pow2(43) == 2 * Pow2(42);
    assert Pow2(45) == 2 * Pow2(44);
    assert Pow2(47) == 2 * Pow2(46);
    assert Pow2(49) == 2 * Pow2(48);
  }

  lemma InverseSqrtLarge(x: int)
    requires 0x4_0000_0000 <= x && InI64(x)
    ensures InverseSqrt(x) == Some(LargeRoot(x))
  {
    LargePowers();
    SmallPowers();
    hide Pow2;
    hide FirstGuess;
    hide InverseSqrt;
    if x < 0x8_0000_0000 {
      GuessAt(x, 17);
      Trace(x, 128, 192, 288, 1, 1, 1);
    } else if x < 0x20_0000_0000 {
      GuessAt(x, 18);
      Trace(x, 64, 96, 144, 216, 324, 1);
    } else if x < 0x80_0000_0000 {
      GuessAt(x, 19);
      Trace(x, 32, 48, 72, 108, 162, 243);
    } else if x < 0x200_0000_0000 {
      GuessAt(x, 20);
      Trace(x, 16, 24, 36, 54, 81, 121);
    } else if x < 0x800_0000_0000 {
      GuessAt(x, 21);
      Trace(x, 8, 12, 18, 27, 40, 60);
    } else if x < 0x2000_0000_0000 {
      GuessAt(x, 22);
      Trace(x, 4, 6, 9, 13, 19, 28);
    } else if x < 0x8000_0000_0000 {
      GuessAt(x, 23);
      Trace(x, 2, 3, 4, 6, 9, 13);
    } else {
      GuessOne(x);
      Trace(x, 1, 1, 1, 1, 1, 1);
    }
  }

  lemma SmallPowers()
    ensures Pow2(0) == 1 && Pow2(1) == 2 && Pow2(2) == 4 && Pow2(3) == 8 && Pow2(4) == 16 && Pow2(5) == 32
    ensures Pow2(6) == 64 && Pow2(7) == 128
  {
    assert Pow2(7) == 2 * Pow2(6);
  }

  lemma GuessOne(x: int)
    requires 0x8000_0000_0000 <= x
    ensures FirstGuess(x) == 1
  {
    var b := Floor2(x);
    hide Pow2;
    LargePowers();
    SmallPowers();
    if b < 47 { Pow2Mono(b + 1, 47); }
    var c := (b + 1) / 2;
    if c == 24 {
      GuessAt(x, c);
    } else {
      Pow2Mono(2 * c - 1, b);
      Pow2Mono(b + 1, 2 * c + 1);
      GuessAt(x, c);
    }
  }

  /** Within a factor of the root of five of 2^24 / sqrt(x). */
  predicate IsInverseRoot(x: int, r: int) { GOAL <= 5 * (x * (r * r)) && x * (r * r) <= 5 * GOAL }

  /** Where the result approximates the inverse root: everywhere up to
      2^32 - 2^16, and from 2^34 on exactly between 2^47 and 5 * 2^48. */
  lemma WhereItApproximates(x: int)
    requires InI64(x) && (1 <= x <= 0xFFFF_0000 || 0x4_0000_0000 <= x)
    ensures InverseSqrt(x).Some?
    ensures IsInverseRoot(x, InverseSqrt(x).value) <==> x <= 0xFFFF_0000 || 0x8000_0000_0000 <= x <= 5 * GOAL
  {
    hide InverseSqrt;
    hide LargeRoot;
    if x <= 0xFFFF_0000 {
      InverseSqrtCoarse(x);
    } else {
      InverseSqrtLarge(x);
      LargeIsRoot(x);
    }
  }

  lemma LargeIsRoot(x: int)
    requires 0x4_0000_0000 <= x
    ensures IsInverseRoot(x, LargeRoot(x)) <==> 0x8000_0000_0000 <= x <= 5 * GOAL
  {
    var r := LargeRoot(x);
    if r == 243 {
      assert x * (243 * 243) == 59049 * x;
    } else if r == 1 {
      assert x * (1 * 1) == x;
    }
  }

  /** In between it depends on x: 256 is right for 2^32, 47 is not for a value
      above it whose root is 218. */
  lemma BetweenItDepends()
    ensures InverseSqrt(0x1_0000_0000) == Some(256) && IsInverseRoot(0x1_0000_0000, 256)
    ensures InverseSqrt(0x1_6000_0000) == Some(47) && !IsInverseRoot(0x1_6000_0000, 47)
  {
    hide InverseSqrt;
    Orbit(0x1_0000_0000, 256, 256, 256, 256, 256);
    Orbit(0x1_6000_0000, 208, 312, 253, 379, 47);
  }

  /** Five steps from 256, each checked on its own numbers. */
  lemma Orbit(x: int, y1: int, y2: int, y3: int, y4: int, y5: int)
    requires 0x8000_0000 <= x < 0x2_0000_0000
    requires LiteralStep(x, 256, y1) && LiteralStep(x, y1, y2) && LiteralStep(x, y2, y3)
    requires LiteralStep(x, y3, y4) && LiteralStep(x, y4, y5)
    ensures InverseSqrt(x) == Some(y5)
  {
    Pow2Small();
    LargePowers();
    Pow8();
    hide Pow2;
    GuessAt(x, 16);
    hide FirstGuess;
    hide LiteralStep;
    LiteralIs(x, 256, y1);
    LiteralIs(x, y1, y2);
    LiteralIs(x, y2, y3);
    LiteralIs(x, y3, y4);
    LiteralIs(x, y4, y5);
    LegacyIsqrt.FiveSteps(x, 256, y1, y2, y3, y4, y5);
  }

  predicate LiteralStep(x: int, y: int, z: int)
  {
    var y2 := y * y / 0x1_0000;
    var f := 0x3_0000 - x * y2 / 0x1_0000;
    1 <= y < 512 && f >= 0 && z == AtLeastOne(y * f / 0x2_0000)
  }

  lemma LiteralIs(x: int, y: int, z: int)
    requires 0 <= x < 0x2_0000_0000 && LiteralStep(x, y, z)
    ensures NewtonStep(x, y) == Some(z)
  {
    Pow2Small();
    var y2 := y * y / 0x1_0000;
    MulMono(1, y, y);
    MulMono(y, 511, y);
    MulMono(0, y2, x);
    MulMono(y2, 4, x);
    var f := 0x3_0000 - x * y2 / 0x1_0000;
    DivMono(0, x * y2, 0x1_0000);
    MulMono(0, f, y);
    MulMono(y, 511, f);
  }

  lemma Pow8()
    ensures Pow2(8) == 256
  {
  }
}
