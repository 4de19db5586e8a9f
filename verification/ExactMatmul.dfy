/** The exact integer matrix product of the fast path. A stack of matrices is
    multiplied by a stack of column lists; the product goes through float64
    directly when the estimate is below 2^53 and through limbs otherwise. */
module ExactMatmul {
  import opened Arithmetic
  import opened Int64Lanes
  import opened Float64
  import opened Limbs

  /** Beyond this inner dimension the limb width of the source reaches 0. */
  const K_LIMIT: int := 0x4_0000_0000_0000

  /** A stack of matrices: stack, row (or column), entry. */
  type Ten = seq<Mat>

  predicate SameRows(a: Ten, b: Ten)
  {
    && |a| == |b|
    && forall h | 0 <= h < |a| :: |a[h]| == |b[h]|
  }

  predicate Shaped(a: Ten, k: nat)
  {
    forall h, i | 0 <= h < |a| && 0 <= i < |a[h]| :: |a[h][i]| == k
  }

  predicate TenBounded(a: Ten, lim: int)
  {
    forall h, i | 0 <= h < |a| && 0 <= i < |a[h]| :: Bounded(a[h][i], lim)
  }

  predicate VecBelow(v: Vec, lim: nat)
  {
    forall t | 0 <= t < |v| :: Abs(v[t]) < lim
  }

  predicate TenBelow(a: Ten, lim: nat)
  {
    forall h, i | 0 <= h < |a| && 0 <= i < |a[h]| :: VecBelow(a[h][i], lim)
  }

  predicate NonZero(v: Vec)
  {
    exists t | 0 <= t < |v| :: v[t] != 0
  }

  // ---- limbs of a whole stack --------------------------------------------

  /** Magnitudes after `n` shifts by `bits`. */
  function MagVec(v: Vec, bits: nat, n: nat): Vec
  {
    if n == 0 then seq(|v|, t requires 0 <= t < |v| => Abs(v[t]))
    else ShiftVec(MagVec(v, bits, n - 1), bits)
  }

  function ShiftVec(v: Vec, bits: nat): Vec
  {
    seq(|v|, t requires 0 <= t < |v| => Shr(v[t], bits))
  }

  /** The low `bits` of the magnitudes with the signs of `v` put back. */
  function SignedLow(v: Vec, mag: Vec, bits: nat): Vec
    requires |v| == |mag|
  {
    seq(|v|, t requires 0 <= t < |v| => Sign(v[t]) * (mag[t] % Pow2(bits)))
  }

  predicate IsLimb(limb: Ten, a: Ten, bits: nat, m: nat)
  {
    && SameRows(limb, a)
    && forall h, i | 0 <= h < |a| && 0 <= i < |a[h]| :: limb[h][i] == LimbVec(a[h][i], bits, m)
  }

  predicate IsMag(mag: Ten, a: Ten, bits: nat, n: nat)
  {
    && SameRows(mag, a)
    && forall h, i | 0 <= h < |a| && 0 <= i < |a[h]| :: mag[h][i] == MagVec(a[h][i], bits, n)
  }

  lemma {:induction false} MagVecAt(v: Vec, bits: nat, n: nat)
    ensures |MagVec(v, bits, n)| == |v|
    ensures forall t | 0 <= t < |v| :: MagVec(v, bits, n)[t] == Abs(v[t]) / Pow2(bits * n)
  {
    if n > 0 {
      MagVecAt(v, bits, n - 1);
      ShiftNext(bits, n - 1);
      forall t | 0 <= t < |v|
        ensures MagVec(v, bits, n)[t] == Abs(v[t]) / Pow2(bits * n)
      {
        DivDiv(Abs(v[t]), Pow2(bits * (n - 1)), Pow2(bits));
      }
    }
  }

  lemma SignedLowIsLimb(v: Vec, bits: nat, n: nat)
    ensures |MagVec(v, bits, n)| == |v|
    ensures SignedLow(v, MagVec(v, bits, n), bits) == LimbVec(v, bits, n)
  {
    hide MagVec;
    hide Pow2;
    MagVecAt(v, bits, n);
    LimbVecAt(v, bits, n);
  }

  /** A vector whose magnitudes are shifted out is held by its limbs; one that
      is not has been shifted fewer than 63 times. */
  lemma MagExhausted(v: Vec, bits: nat, n: nat)
    requires bits >= 1 && Bounded(v, LIM62)
    ensures !NonZero(MagVec(v, bits, n)) ==> VecBelow(v, Pow2(bits * n))
    ensures NonZero(MagVec(v, bits, n)) ==> n < 63
  {
    hide MagVec;
    hide Pow2;
    MagVecAt(v, bits, n);
    forall t | 0 <= t < |v|
      ensures MagVec(v, bits, n)[t] == 0 <==> Abs(v[t]) < Pow2(bits * n)
    {
      ZeroQuotient(Abs(v[t]), Pow2(bits * n));
    }
    if n >= 63 {
      MulMono(1, bits, n);
      Pow2Mono(63, bits * n);
      Pow2Constants();
    }
  }

  lemma ZeroQuotient(x: nat, d: int)
    requires d > 0
    ensures x / d == 0 <==> x < d
  {
    DivBounds(x, d);
    if x < d { DivUnique(x, d, 0); }
  }

  /** Splits every entry into sign-magnitude limbs until no magnitude is left.
      Limb number m is limb number m of every entry, and together the limbs
      hold every entry. */
  method SplitLimbs(a: Ten, bits: nat) returns (out: seq<Ten>)
    requires 1 <= bits
    requires TenBounded(a, LIM62)
    ensures |out| >= 1
    ensures forall m | 0 <= m < |out| :: IsLimb(out[m], a, bits, m)
    ensures TenBelow(a, Pow2(bits * |out|))
  {
    hide Pow2;
    hide MagVec;
    hide IsLimb;
    hide IsMag;
    hide TenBelow;
    var mag: Ten := seq(|a|, h requires 0 <= h < |a| =>
      seq(|a[h]|, i requires 0 <= i < |a[h]| => MagVec(a[h][i], bits, 0)));
    MagStart(mag, a, bits);
    out := [];
    while true
      invariant IsMag(mag, a, bits, |out|)
      invariant forall m | 0 <= m < |out| :: IsLimb(out[m], a, bits, m)
      invariant |out| < 63
      decreases 63 - |out|
    {
      var limb, left;
      limb, mag, left := NextLimb(a, mag, bits, |out|);
      out := out + [limb];
      if !left {
        return;
      }
    }
  }

  /** Takes the low bits of every magnitude and shifts them out. */
  method NextLimb(a: Ten, mag: Ten, bits: nat, n: nat) returns (limb: Ten, next: Ten, left: bool)
    requires 1 <= bits && TenBounded(a, LIM62) && IsMag(mag, a, bits, n)
    ensures IsLimb(limb, a, bits, n) && IsMag(next, a, bits, n + 1)
    ensures if left then n + 1 < 63 else TenBelow(a, Pow2(bits * (n + 1)))
  {
    hide Pow2;
    hide MagVec;
    hide NonZero;
    hide SignedLow;
    hide ShiftVec;
    hide IsLimb;
    hide IsMag;
    hide TenBelow;
    LimbOfMag(mag, a, bits, n);
    limb := seq(|a|, h requires 0 <= h < |a| =>
      seq(|a[h]|, i requires 0 <= i < |a[h]| => SignedLow(a[h][i], mag[h][i], bits)));
    IsLimbFrom(limb, a, mag, bits, n);
    next := seq(|mag|, h requires 0 <= h < |mag| =>
      seq(|mag[h]|, i requires 0 <= i < |mag[h]| => ShiftVec(mag[h][i], bits)));
    MagNext(next, mag, a, bits, n);
    left := exists h, i | 0 <= h < |next| && 0 <= i < |next[h]| :: NonZero(next[h][i]);
    MagLeft(next, a, bits, n + 1, left);
  }

  lemma MagStart(mag: Ten, a: Ten, bits: nat)
    requires SameRows(mag, a)
    requires forall h, i | 0 <= h < |a| && 0 <= i < |a[h]| :: mag[h][i] == MagVec(a[h][i], bits, 0)
    ensures IsMag(mag, a, bits, 0)
  {
  }

  lemma LimbOfMag(mag: Ten, a: Ten, bits: nat, n: nat)
    requires IsMag(mag, a, bits, n)
    ensures SameRows(mag, a)
    ensures forall h, i | 0 <= h < |a| && 0 <= i < |a[h]| :: |mag[h][i]| == |a[h][i]|
  {
    hide MagVec;
    forall h, i | 0 <= h < |a| && 0 <= i < |a[h]|
      ensures |mag[h][i]| == |a[h][i]|
    {
      MagVecAt(a[h][i], bits, n);
    }
  }

  lemma IsLimbFrom(limb: Ten, a: Ten, mag: Ten, bits: nat, n: nat)
    requires IsMag(mag, a, bits, n) && SameRows(limb, a)
    requires forall h, i | 0 <= h < |a| && 0 <= i < |a[h]| ::
      |mag[h][i]| == |a[h][i]| && limb[h][i] == SignedLow(a[h][i], mag[h][i], bits)
    ensures IsLimb(limb, a, bits, n)
  {
    hide MagVec;
    hide LimbVec;
    hide SignedLow;
    forall h, i | 0 <= h < |a| && 0 <= i < |a[h]|
      ensures limb[h][i] == LimbVec(a[h][i], bits, n)
    {
      SignedLowIsLimb(a[h][i], bits, n);
    }
  }

  lemma MagNext(next: Ten, mag: Ten, a: Ten, bits: nat, n: nat)
    requires IsMag(mag, a, bits, n) && SameRows(next, mag)
    requires forall h, i | 0 <= h < |mag| && 0 <= i < |mag[h]| :: next[h][i] == ShiftVec(mag[h][i], bits)
    ensures IsMag(next, a, bits, n + 1)
  {
    hide ShiftVec;
  }

  lemma MagLeft(mag: Ten, a: Ten, bits: nat, n: nat, left: bool)
    requires bits >= 1 && TenBounded(a, LIM62) && IsMag(mag, a, bits, n)
    requires left == exists h, i | 0 <= h < |mag| && 0 <= i < |mag[h]| :: NonZero(mag[h][i])
    ensures if left then n < 63 else TenBelow(a, Pow2(bits * n))
  {
    hide MagVec;
    hide Pow2;
    hide NonZero;
    hide VecBelow;
    forall h, i | 0 <= h < |a| && 0 <= i < |a[h]|
      ensures !NonZero(mag[h][i]) ==> VecBelow(a[h][i], Pow2(bits * n))
      ensures NonZero(mag[h][i]) ==> n < 63
    {
      MagExhausted(a[h][i], bits, n);
    }
  }

  // ---- the product -------------------------------------------------------

  /** Row `r` holds the dot products of `x` with every column. */
  predicate IsDotRow(r: Vec, x: Vec, cols: Mat)
  {
    && |r| == |cols|
    && forall j | 0 <= j < |cols| :: r[j] == Dot(x, cols[j])
  }

  predicate IsProduct(r: Ten, a: Ten, b: Ten)
    requires |a| == |b|
  {
    && SameRows(r, a)
    && forall h, i | 0 <= h < |a| && 0 <= i < |a[h]| :: IsDotRow(r[h][i], a[h][i], b[h])
  }

  /** The running total of the limb products, lane by lane. */
  predicate IsLaneRow(r: Vec, x: Vec, cols: Mat, ba: nat, bb: nat, m: nat, n: nat)
  {
    && |r| == |cols|
    && forall j | 0 <= j < |cols| :: r[j] == LaneSum(x, cols[j], ba, bb, m, n)
  }

  predicate IsLaneTen(r: Ten, a: Ten, b: Ten, ba: nat, bb: nat, m: nat, n: nat)
    requires |a| == |b|
  {
    && SameRows(r, a)
    && forall h, i | 0 <= h < |a| && 0 <= i < |a[h]| :: IsLaneRow(r[h][i], a[h][i], b[h], ba, bb, m, n)
  }

  function BitLength(n: nat): (r: nat)
    ensures n < Pow2(r)
    ensures r > 0 ==> Pow2(r - 1) <= n
  {
    if n == 0 then 0 else 1 + BitLength(n / 2)
  }

  function MaxAbsVec(v: Vec): (r: nat)
    ensures Bounded(v, r)
  {
    if v == [] then 0
    else
      var r := MaxAbsVec(v[1..]);
      assert forall t | 0 <= t < |v[1..]| :: v[1..][t] == v[t + 1];
      if r <= Abs(v[0]) then Abs(v[0]) else r
  }

  function MaxAbsMat(a: Mat): (r: nat)
    ensures forall i | 0 <= i < |a| :: Bounded(a[i], r)
  {
    if a == [] then 0
    else
      var r := MaxAbsMat(a[1..]);
      assert forall i | 0 <= i < |a[1..]| :: a[1..][i] == a[i + 1];
      if r <= MaxAbsVec(a[0]) then MaxAbsVec(a[0]) else r
  }

  function MaxAbsTen(a: Ten): (r: nat)
    ensures TenBounded(a, r)
  {
    if a == [] then 0
    else
      var r := MaxAbsTen(a[1..]);
      assert forall h | 0 <= h < |a[1..]| :: a[1..][h] == a[h + 1];
      if r <= MaxAbsMat(a[0]) then MaxAbsMat(a[0]) else r
  }

  /** Every product row is small enough in magnitude for an int64 lane. */
  ghost predicate LanesFit(a: Ten, b: Ten)
    requires |a| == |b|
  {
    forall h, i, j | 0 <= h < |a| && 0 <= i < |a[h]| && 0 <= j < |b[h]| :: AbsDot(a[h][i], b[h][j]) < TWO63
  }

  /** One more limb product on one lane: float64 product, shift, int64 sum. */
  function AddPart(f: Fpu, total: int, u: Vec, v: Vec, sh: nat): int
    requires InI64(BlasDot(f, u, v)) && InI64(BlasDot(f, u, v) * Pow2(sh))
    requires InI64(total + BlasDot(f, u, v) * Pow2(sh))
  {
    Fit(total + Fit(Fit(BlasDot(f, u, v)) * Pow2(sh)))
  }

  lemma PartStep(f: Fpu, x: Vec, y: Vec, ba: nat, bb: nat, m: nat, n: nat, kb: nat, sh: nat)
    requires ValidFpu(f) && |x| <= Pow2(kb) && kb + ba + bb == 52 && sh == ba * m + bb * n
    requires AbsDot(x, y) < TWO63
    ensures var p := BlasDot(f, LimbVec(x, ba, m), LimbVec(y, bb, n));
      && InI64(p) && InI64(p * Pow2(sh))
      && LaneSum(x, y, ba, bb, m, n + 1) == LaneSum(x, y, ba, bb, m, n) + p * Pow2(sh)
      && InI64(LaneSum(x, y, ba, bb, m, n + 1))
  {
    hide Pow2;
    hide LimbVec;
    hide LaneSum;
    hide Dot;
    hide AbsDot;
    hide BlasDot;
    hide ValidFpu;
    var u, v := LimbVec(x, ba, m), LimbVec(y, bb, n);
    LimbProductSmall(x, y, ba, bb, m, n, kb);
    BlasDotExact(f, u, v);
    DotBound(u, v);
    assert Dot(u, v) * Pow2(sh) == Dot(u, v) * (Pow2(ba * m) * Pow2(bb * n)) by { Pow2Add(ba * m, bb * n); }
    LaneStep(x, y, ba, bb, m, n);
    LaneWithin(x, y, ba, bb, m, n);
    LaneWithin(x, y, ba, bb, m, n + 1);
  }

  /** All lanes take one limb product: `total` moves from (m, n) to (m, n + 1). */
  method AddPartTen(f: Fpu, a: Ten, b: Ten, limbA: Ten, limbB: Ten, total: Ten,
                    ba: nat, bb: nat, m: nat, n: nat, kb: nat)
    returns (r: Ten)
    requires ValidFpu(f) && |a| == |b| && LanesFit(a, b)
    requires forall h, i | 0 <= h < |a| && 0 <= i < |a[h]| :: |a[h][i]| <= Pow2(kb)
    requires kb + ba + bb == 52
    requires IsLimb(limbA, a, ba, m) && IsLimb(limbB, b, bb, n)
    requires IsLaneTen(total, a, b, ba, bb, m, n)
    ensures IsLaneTen(r, a, b, ba, bb, m, n + 1)
  {
    hide Pow2;
    hide LimbVec;
    hide LaneSum;
    hide AbsDot;
    hide BlasDot;
    hide ValidFpu;
    var sh := ba * m + bb * n;
    forall h, i, j | 0 <= h < |a| && 0 <= i < |a[h]| && 0 <= j < |b[h]|
      ensures var p := BlasDot(f, limbA[h][i], limbB[h][j]);
        && InI64(p) && InI64(p * Pow2(sh)) && InI64(total[h][i][j] + p * Pow2(sh))
        && total[h][i][j] + p * Pow2(sh) == LaneSum(a[h][i], b[h][j], ba, bb, m, n + 1)
    {
      assert IsLaneRow(total[h][i], a[h][i], b[h], ba, bb, m, n);
      PartStep(f, a[h][i], b[h][j], ba, bb, m, n, kb, sh);
    }
    r := seq(|a|, h requires 0 <= h < |a| =>
      seq(|a[h]|, i requires 0 <= i < |a[h]| =>
        seq(|b[h]|, j requires 0 <= j < |b[h]| =>
          AddPart(f, total[h][i][j], limbA[h][i], limbB[h][j], sh))));
    forall h, i | 0 <= h < |a| && 0 <= i < |a[h]|
      ensures IsLaneRow(r[h][i], a[h][i], b[h], ba, bb, m, n + 1)
    {
    }
  }

  lemma {:induction false} BitLengthLe(n: nat, m: nat)
    requires n < Pow2(m)
    ensures BitLength(n) <= m
  {
    if n > 0 { BitLengthLe(n / 2, m - 1); }
  }

  lemma {:induction false} LimbVecWhole(v: Vec, bits: nat)
    requires VecBelow(v, Pow2(bits))
    ensures LimbVec(v, bits, 0) == v
  {
    LimbVecAt(v, bits, 0);
    forall t | 0 <= t < |v|
      ensures Limb(v[t], bits, 0) == v[t]
    {
      ModSmall(Abs(v[t]), Pow2(bits));
    }
  }

  /** An operand narrower than one limb is its own only limb. */
  lemma WholeIsLimb(b: Ten, bits: nat, bMax: nat)
    requires TenBounded(b, bMax) && bMax < Pow2(bits)
    ensures IsLimb(b, b, bits, 0) && TenBelow(b, Pow2(bits * 1))
  {
    hide Pow2;
    hide LimbVec;
    forall h, i | 0 <= h < |b| && 0 <= i < |b[h]|
      ensures VecBelow(b[h][i], Pow2(bits)) && LimbVec(b[h][i], bits, 0) == b[h][i]
    {
      LimbVecWhole(b[h][i], bits);
    }
  }

  lemma CarryTen(r: Ten, a: Ten, b: Ten, ba: nat, bb: nat, m: nat, n: nat)
    requires |a| == |b| && IsLaneTen(r, a, b, ba, bb, m, n) && TenBelow(b, Pow2(bb * n))
    ensures IsLaneTen(r, a, b, ba, bb, m + 1, 0)
  {
    hide Pow2;
    hide LaneSum;
    forall h, i, j | 0 <= h < |a| && 0 <= i < |a[h]| && 0 <= j < |b[h]|
      ensures LaneSum(a[h][i], b[h][j], ba, bb, m, n) == LaneSum(a[h][i], b[h][j], ba, bb, m + 1, 0)
    {
      assert VecBelow(b[h][j], Pow2(bb * n));
      LaneCarry(a[h][i], b[h][j], ba, bb, m, n);
    }
    forall h, i | 0 <= h < |a| && 0 <= i < |a[h]|
      ensures IsLaneRow(r[h][i], a[h][i], b[h], ba, bb, m + 1, 0)
    {
      assert IsLaneRow(r[h][i], a[h][i], b[h], ba, bb, m, n);
    }
  }

  lemma EndTen(r: Ten, a: Ten, b: Ten, ba: nat, bb: nat, m: nat)
    requires |a| == |b| && IsLaneTen(r, a, b, ba, bb, m, 0) && TenBelow(a, Pow2(ba * m))
    ensures IsProduct(r, a, b)
  {
    hide Pow2;
    hide LaneSum;
    hide Dot;
    forall h, i | 0 <= h < |a| && 0 <= i < |a[h]|
      ensures IsDotRow(r[h][i], a[h][i], b[h])
    {
      assert IsLaneRow(r[h][i], a[h][i], b[h], ba, bb, m, 0);
      assert VecBelow(a[h][i], Pow2(ba * m));
      forall j | 0 <= j < |b[h]|
        ensures r[h][i][j] == Dot(a[h][i], b[h][j])
      {
        LaneEnd(a[h][i], b[h][j], ba, bb, m);
      }
    }
  }

  function ZeroLanes(a: Ten, b: Ten): Ten
    requires |a| == |b|
  {
    seq(|a|, h requires 0 <= h < |a| =>
      seq(|a[h]|, i requires 0 <= i < |a[h]| => seq(|b[h]|, _ => 0)))
  }

  lemma StartTen(a: Ten, b: Ten, ba: nat, bb: nat)
    requires |a| == |b|
    ensures IsLaneTen(ZeroLanes(a, b), a, b, ba, bb, 0, 0)
  {
    hide LaneSum;
    forall h, i, j | 0 <= h < |a| && 0 <= i < |a[h]| && 0 <= j < |b[h]|
      ensures LaneSum(a[h][i], b[h][j], ba, bb, 0, 0) == 0
    {
      LaneStart(a[h][i], b[h][j], ba, bb);
    }
  }

  /** The limb path: every limb of `a` against every limb of `b`. */
  method LimbProduct(f: Fpu, a: Ten, b: Ten, bParts: seq<Ten>, ba: nat, bb: nat, kb: nat) returns (r: Ten)
    requires ValidFpu(f) && |a| == |b| && LanesFit(a, b) && TenBounded(a, LIM62)
    requires forall h, i | 0 <= h < |a| && 0 <= i < |a[h]| :: |a[h][i]| <= Pow2(kb)
    requires kb + ba + bb == 52 && ba >= 1
    requires forall j | 0 <= j < |bParts| :: IsLimb(bParts[j], b, bb, j)
    requires TenBelow(b, Pow2(bb * |bParts|))
    ensures IsProduct(r, a, b)
  {
    hide Pow2;
    hide ValidFpu;
    hide LanesFit;
    hide IsLaneTen;
    hide IsLimb;
    hide IsProduct;
    var limbsA := SplitLimbs(a, ba);
    StartTen(a, b, ba, bb);
    r := ZeroLanes(a, b);
    for m := 0 to |limbsA|
      invariant IsLaneTen(r, a, b, ba, bb, m, 0)
    {
      for n := 0 to |bParts|
        invariant IsLaneTen(r, a, b, ba, bb, m, n)
      {
        r := AddPartTen(f, a, b, limbsA[m], bParts[n], r, ba, bb, m, n, kb);
      }
      CarryTen(r, a, b, ba, bb, m, |bParts|);
    }
    EndTen(r, a, b, ba, bb, |limbsA|);
  }

  /** The direct path: one float64 product, exact because every magnitude sum
      is below 2^53. */
  method DirectProduct(f: Fpu, a: Ten, b: Ten) returns (r: Ten)
    requires ValidFpu(f) && |a| == |b|
    requires forall h, i, j | 0 <= h < |a| && 0 <= i < |a[h]| && 0 <= j < |b[h]| :: AbsDot(a[h][i], b[h][j]) < TWO53
    ensures IsProduct(r, a, b)
  {
    hide ValidFpu;
    hide BlasDot;
    hide Dot;
    hide AbsDot;
    forall h, i, j | 0 <= h < |a| && 0 <= i < |a[h]| && 0 <= j < |b[h]|
      ensures BlasDot(f, a[h][i], b[h][j]) == Dot(a[h][i], b[h][j]) && InI64(Dot(a[h][i], b[h][j]))
    {
      BlasDotExact(f, a[h][i], b[h][j]);
      DotBound(a[h][i], b[h][j]);
    }
    r := seq(|a|, h requires 0 <= h < |a| =>
      seq(|a[h]|, i requires 0 <= i < |a[h]| =>
        seq(|b[h]|, j requires 0 <= j < |b[h]| => Fit(BlasDot(f, a[h][i], b[h][j])))));
    forall h, i | 0 <= h < |a| && 0 <= i < |a[h]|
      ensures IsDotRow(r[h][i], a[h][i], b[h])
    {
    }
  }

  /** The bits left for the limbs of the left operand: 52 are shared by the
      inner dimension and the two limb widths. */
  function RightBits(k: nat, bMax: nat, bFloat: bool): int
  {
    var budget := 52 - Max(1, BitLength(k));
    var bb := Max(1, BitLength(bMax));
    if bFloat || bb <= budget / 2 then bb else budget / 2
  }

  function LeftBits(k: nat, bMax: nat, bFloat: bool): int
  {
    52 - Max(1, BitLength(k)) - RightBits(k, bMax, bFloat)
  }

  /** The limb path with these widths; None when no bits are left, which only
      a float64 right operand can cause. */
  method SplitProduct(f: Fpu, a: Ten, b: Ten, k: nat, bMax: nat, bFloat: bool) returns (r: Option<Ten>)
    requires ValidFpu(f) && |a| == |b| && LanesFit(a, b)
    requires Shaped(a, k) && k < K_LIMIT
    requires TenBounded(a, LIM62) && TenBounded(b, LIM62)
    requires TenBounded(b, bMax)
    ensures r.None? <==> LeftBits(k, bMax, bFloat) < 1
    ensures r.Some? ==> IsProduct(r.value, a, b)
  {
    hide Pow2;
    hide BitLength;
    hide ValidFpu;
    hide LanesFit;
    hide IsLimb;
    hide IsProduct;
    KBits(k);
    var kb := Max(1, BitLength(k));
    var budget := 52 - kb;
    NarrowBits(bMax);
    var bb := Max(1, BitLength(bMax));
    var bParts: seq<Ten>;
    if bFloat || bb <= budget / 2 {
      WholeIsLimb(b, bb, bMax);
      bParts := [b];
    } else {
      bb := budget / 2;
      bParts := SplitLimbs(b, bb);
    }
    var ba := budget - bb;
    if ba < 1 {
      return None;
    }
    var t := LimbProduct(f, a, b, bParts, ba, bb, kb);
    r := Some(t);
  }

  lemma KBits(k: nat)
    requires k < K_LIMIT
    ensures BitLength(k) <= 50 && k <= Pow2(Max(1, BitLength(k)))
  {
    hide BitLength;
    hide Pow2;
    Pow50();
    BitLengthLe(k, 50);
    Pow2Mono(BitLength(k), Max(1, BitLength(k)));
  }

  lemma Pow50()
    ensures Pow2(50) == K_LIMIT
  {
    hide Pow2;
    Pow2Small();
    Pow2Add(29, 21);
  }

  lemma NarrowBits(m: nat)
    ensures m < Pow2(Max(1, BitLength(m)))
  {
    hide BitLength;
    Pow2Mono(BitLength(m), Max(1, BitLength(m)));
  }

  /** No bits run out for an int64 right operand, nor for INT8 weights against
      an inner dimension below 2^44. */
  lemma BudgetSuffices(k: nat, bMax: nat, bFloat: bool)
    requires k < K_LIMIT && (bFloat ==> k < 0x1000_0000_0000 && bMax < 0x80)
    ensures LeftBits(k, bMax, bFloat) >= 1
  {
    hide BitLength;
    KBits(k);
    if bFloat {
      assert k < Pow2(44) by {
        hide Pow2;
        Pow44();
      }
      BitLengthLe(k, 44);
      BitLengthLe(bMax, 7);
    }
  }

  /** The known or measured bound on the right operand. */
  function RightMax(b: Ten, bFloatMax: Option<nat>): nat
  {
    if bFloatMax.Some? then bFloatMax.value else MaxAbsTen(b)
  }

  /** Exact integer a @ b in int64 lanes. `bFloatMax` is the known bound of a
      right operand that is already float64. The answer is None (recompute with
      wide integers) exactly when the guard is on and the estimate reaches
      2^62, or the limb path is needed and has no bits left; without the guard
      the caller has established that the lanes fit. */
  method MatmulExact(f: Fpu, a: Ten, b: Ten, k: nat, bFloatMax: Option<nat>, guard: bool)
    returns (r: Option<Ten>)
    requires ValidFpu(f) && |a| == |b|
    requires Shaped(a, k) && k < K_LIMIT
    requires TenBounded(a, LIM62) && TenBounded(b, LIM62)
    requires bFloatMax.Some? ==> TenBounded(b, bFloatMax.value)
    requires guard || LanesFit(a, b)
    ensures var bMax := RightMax(b, bFloatMax);
      var bound := f.estimate(a, bMax);
      r.None? <==> (guard && bound >= LIM62) || (bound >= TWO53 && LeftBits(k, bMax, bFloatMax.Some?) < 1)
    ensures r.Some? ==> IsProduct(r.value, a, b) && LanesFit(a, b)
  {
    hide IsProduct;
    hide MaxAbsTen;
    hide AbsDot;
    hide AbsSum;
    hide LeftBits;
    var bMax := RightMax(b, bFloatMax);
    var bound := f.estimate(a, bMax);
    if guard && bound >= LIM62 {
      return None;
    }
    forall h, i, j | 0 <= h < |a| && 0 <= i < |a[h]| && 0 <= j < |b[h]|
      ensures AbsDot(a[h][i], b[h][j]) <= bound
    {
      AbsDotBound(a[h][i], b[h][j], bMax);
    }
    if bound < TWO53 {
      var t := DirectProduct(f, a, b);
      r := Some(t);
    } else {
      r := SplitProduct(f, a, b, k, bMax, bFloatMax.Some?);
    }
  }
}
