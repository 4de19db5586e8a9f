/** RMS normalisation on the fast path: the bound that keeps x * r small, the
    three-limb sum of squares, and the batched operator. */
module FastNorm {
  import opened Arithmetic
  import opened Int64Lanes
  import opened ModernOps
  import opened FastOps

  const TWO19: int := 0x8_0000
  const TWO21: int := 0x20_0000
  const TWO42: int := 0x400_0000_0000
  const TWO56: int := 0x100_0000_0000_0000
  const TWO84: int := 0x10_0000_0000_0000_0000_0000

  // ---- the reciprocal root -------------------------------------------------

  /** r is exactly floor(2^46 / sqrt(v)). */
  lemma InverseRmsExact(v: int)
    requires 0 < v
    ensures var r := InverseRms(v); r * r * v <= TWO92 < (r + 1) * (r + 1) * v
  {
    var d := TWO92 / v;
    DivBounds(TWO92, v);
    var r := InverseRms(v);
    MulMono(r * r, d, v);
    MulMono(d + 1, (r + 1) * (r + 1), v);
    Distribute(d, 1, v);
  }

  lemma {:induction false} SquareSumMember(x: Vec, i: nat)
    requires i < |x|
    ensures x[i] * x[i] <= SquareSum(x)
  {
    if i > 0 { SquareSumMember(x[1..], i - 1); }
  }

  lemma MeanCovers(s: nat, n: nat, eps: int)
    requires n > 0 && eps >= 1
    ensures s < n * (s / n + eps)
  {
    DivBounds(s, n);
    MulMono(1, eps, n);
    Distribute(s / n, eps, n);
  }

  /** (x_i * r)^2 < n * 2^92: normalised values never exceed sqrt(n) in Q46. */
  lemma NormBound(x: Vec, i: nat, eps: int)
    requires i < |x| && eps >= 1
    ensures MeanSquare(x, eps) > 0
    ensures var p := x[i] * InverseRms(MeanSquare(x, eps)); p * p < |x| * TWO92
  {
    var v := MeanSquare(x, eps);
    var n := |x|;
    MeanCovers(SquareSum(x), n, eps);
    SquareSumMember(x, i);
    assert v > 0 by {
      if v <= 0 { MulMono(v, 0, n); }
    }
    var r := InverseRms(v);
    InverseRmsExact(v);
    SquareProductBound(x[i], r, n, v);
  }

  lemma SquareProductBound(x: int, r: nat, n: nat, v: int)
    requires n > 0 && v > 0 && x * x < n * v && r * r * v <= TWO92
    ensures (x * r) * (x * r) < n * TWO92
  {
    assert (x * r) * (x * r) == (x * x) * (r * r) by { SquareOfProduct(x, r); }
    if r == 0 {
    } else {
      assert r * r >= 1 by { MulMono(1, r, r); }
      assert (x * x) * (r * r) < (n * v) * (r * r) by { MulStrict(x * x, n * v, r * r); }
      assert (n * v) * (r * r) == n * (r * r * v) by { Regroup(n, v, r * r); }
      MulMono(r * r * v, TWO92, n);
    }
  }

  lemma SquareOfProduct(x: int, r: int)
    ensures (x * r) * (x * r) == (x * x) * (r * r)
  {
    assert (x * r) * (x * r) == x * (r * x) * r;
  }

  lemma Regroup(n: int, v: int, q: int)
    ensures (n * v) * q == n * (q * v)
  {
  }

  lemma RootBound(p: int, n: nat)
    requires n <= TWO19 && p * p < n * TWO92
    ensures Abs(p) < TWO56
  {
    MulMono(n, TWO19, TWO92);
    if Abs(p) >= TWO56 {
      MulMono(TWO56, Abs(p), TWO56);
      MulMono(TWO56, Abs(p), Abs(p));
      AbsMul(p, p);
    }
  }

  /** For rows of at most 2^19 entries the product x * r stays below 2^56. */
  lemma ProductSmall(x: Vec, i: nat, eps: int)
    requires i < |x| <= TWO19 && eps >= 1
    ensures MeanSquare(x, eps) > 0
    ensures Abs(x[i] * InverseRms(MeanSquare(x, eps))) < TWO56
  {
    hide MeanSquare;
    hide InverseRms;
    NormBound(x, i, eps);
    RootBound(x[i] * InverseRms(MeanSquare(x, eps)), |x|);
  }

  // ---- the sum of squares in three limbs -----------------------------------

  /** Sums of the limb products of |x| = a * 2^42 + b * 2^21 + c. */
  datatype Squares = Squares(s4: int, s3: int, s2: int, s1: int, s0: int)

  function EntrySquares(x: int): Squares
  {
    var mag := Abs(x);
    var a, b, c := mag / TWO42, (mag / TWO21) % TWO21, mag % TWO21;
    Squares(a * a, 2 * (a * b), 2 * (a * c) + b * b, 2 * (b * c), c * c)
  }

  function LimbSquares(x: Vec): Squares
  {
    if x == [] then Squares(0, 0, 0, 0, 0)
    else
      var e, rest := EntrySquares(x[0]), LimbSquares(x[1..]);
      Squares(e.s4 + rest.s4, e.s3 + rest.s3, e.s2 + rest.s2, e.s1 + rest.s1, e.s0 + rest.s0)
  }

  predicate Within(s: Squares, lim: int)
  {
    && 0 <= s.s4 <= lim && 0 <= s.s3 <= lim && 0 <= s.s2 <= lim && 0 <= s.s1 <= lim && 0 <= s.s0 <= lim
  }

  function Total(s: Squares): int
  {
    s.s4 * TWO84 + s.s3 * TWO63 + s.s2 * TWO42 + s.s1 * TWO21 + s.s0
  }

  lemma ThreeLimbs(mag: nat)
    ensures mag == (mag / TWO42) * TWO42 + ((mag / TWO21) % TWO21) * TWO21 + mag % TWO21
  {
    DivDiv(mag, TWO21, TWO21);
  }

  lemma TrinomialSquare(a: int, b: int, c: int)
    ensures (a * TWO42 + b * TWO21 + c) * (a * TWO42 + b * TWO21 + c)
         == (a * a) * TWO84 + (2 * (a * b)) * TWO63 + (2 * (a * c) + b * b) * TWO42 + (2 * (b * c)) * TWO21 + c * c
  {
    var p, q := a * TWO42, b * TWO21;
    assert (p + q + c) * (p + q + c) == p * p + 2 * (p * q) + q * q + 2 * (p * c) + 2 * (q * c) + c * c by {
      BinomialSquare(p + q, c);
      BinomialSquare(p, q);
      Distribute(p, q, c);
    }
    assert p * p == (a * a) * TWO84 by { ScaledProduct(a, a, TWO42, TWO42); }
    assert p * q == (a * b) * TWO63 by { ScaledProduct(a, b, TWO42, TWO21); }
    assert q * q == (b * b) * TWO42 by { ScaledProduct(b, b, TWO21, TWO21); }
    assert p * c == (a * c) * TWO42 by { ScaledProduct(a, c, TWO42, 1); }
    assert q * c == (b * c) * TWO21 by { ScaledProduct(b, c, TWO21, 1); }
  }

  lemma BinomialSquare(p: int, q: int)
    ensures (p + q) * (p + q) == p * p + 2 * (p * q) + q * q
  {
    Distribute(p, q, p + q);
    Distribute(p, q, p);
    Distribute(p, q, q);
  }

  lemma ScaledProduct(a: int, b: int, u: int, v: int)
    ensures (a * u) * (b * v) == (a * b) * (u * v)
  {
    assert (a * u) * (b * v) == a * (u * b) * v;
  }

  lemma EntrySquaresExact(x: int)
    requires Abs(x) <= LIM62
    ensures Total(EntrySquares(x)) == x * x
    ensures Within(EntrySquares(x), 0x800_0000_0000)
  {
    var mag := Abs(x);
    var a, b, c := mag / TWO42, (mag / TWO21) % TWO21, mag % TWO21;
    assert mag == a * TWO42 + b * TWO21 + c by { ThreeLimbs(mag); }
    assert x * x == mag * mag;
    TrinomialSquare(a, b, c);
    LimbProductBounds(a, b, c);
  }

  /** The limb sums rebuild the exact sum of squares, and for rows of at most
      2^19 entries within 2^62 none of them leaves int64. */
  lemma {:induction false} LimbSquaresExact(x: Vec)
    requires Bounded(x, LIM62)
    ensures Total(LimbSquares(x)) == SquareSum(x)
    ensures Within(LimbSquares(x), |x| * 0x800_0000_0000)
    ensures |x| <= TWO19 ==> Within(LimbSquares(x), LIM62)
  {
    hide EntrySquares;
    if x != [] {
      LimbSquaresExact(x[1..]);
      EntrySquaresExact(x[0]);
    }
  }

  lemma LimbProductBounds(a: int, b: int, c: int)
    requires 0 <= a <= 0x10_0000 && 0 <= b < TWO21 && 0 <= c < TWO21
    ensures 0 <= a * a <= 0x800_0000_0000 && 0 <= 2 * (a * b) <= 0x800_0000_0000
    ensures 0 <= 2 * (a * c) + b * b <= 0x800_0000_0000
    ensures 0 <= 2 * (b * c) <= 0x800_0000_0000 && 0 <= c * c <= 0x800_0000_0000
  {
    NatProduct(a, a, 0x10_0000, 0x10_0000);
    NatProduct(a, b, 0x10_0000, TWO21);
    NatProduct(a, c, 0x10_0000, TWO21);
    NatProduct(b, b, TWO21, TWO21);
    NatProduct(b, c, TWO21, TWO21);
    NatProduct(c, c, TWO21, TWO21);
  }

  lemma NatProduct(a: nat, b: nat, x: nat, y: nat)
    requires a <= x && b <= y
    ensures 0 <= a * b <= x * y
  {
    MulMono(0, a, b);
    MulBound(a, b, x, y);
  }

  // ---- the batched operator ------------------------------------------------

  function NormAll(xs: Mat, gains: Vec, eps: int): seq<Option<Vec>>
    requires eps >= 1 && forall i | 0 <= i < |xs| :: xs[i] != []
  {
    seq(|xs|, i requires 0 <= i < |xs| => RmsNormInt(xs[i], gains, eps))
  }

  datatype Attempt = NeedSlow | Refused | Done(rows: Mat)

  /** np.abs on int64: the most negative value has no positive counterpart. */
  function AbsLane(x: int): int { if x == -TWO63 then x else Abs(x) }

  predicate GainsSmall(g: Vec)
  {
    forall i | 0 <= i < |g| :: AbsLane(g[i]) <= LIM62
  }

  predicate SmallProducts(x: Vec, r: int)
  {
    forall i | 0 <= i < |x| :: -TWO56 < x[i] * r < TWO56
  }

  function FastNormRow(x: Vec, r: int, g: Vec): seq<Option<int>>
    requires |x| == |g| && GainsSmall(g)
    requires SmallProducts(x, r)
  {
    seq(|x|, i requires 0 <= i < |x| =>
      assert -TWO56 < x[i] * r < TWO56;
      MulShr(Fit(x[i] * r), g[i], 46))
  }

  lemma FastNormRowExact(x: Vec, r: int, g: Vec)
    requires |x| == |g| && GainsSmall(g)
    requires SmallProducts(x, r)
    ensures AllSome(FastNormRow(x, r, g)) ==> Values(FastNormRow(x, r, g)) == NormValues(x, r, g)
  {
    hide MulShr;
    hide Shr;
    forall i | 0 <= i < |x|
      ensures MulShr(x[i] * r, g[i], 46).Some? ==> MulShr(x[i] * r, g[i], 46).value == Shr(x[i] * r * g[i], 46)
    {
      MulShrExact(x[i] * r, g[i], 46);
    }
  }

  /** The 2^127 refusal of the plain operator cannot happen on such rows. */
  lemma ProductsOk(x: Vec, r: int, g: Vec)
    requires |x| == |g| && forall i | 0 <= i < |g| :: InI64(g[i])
    requires SmallProducts(x, r)
    ensures NormProductsOk(x, r, g)
  {
    forall i | 0 <= i < |x|
      ensures Abs(x[i] * r * g[i]) < TWO127
    {
      MulBound(x[i] * r, g[i], TWO56, TWO63);
    }
  }

  /** One row: the mean square from its limb sums, refused above 2^92. */
  method RowRoot(x: Vec, eps: int) returns (r: Option<nat>)
    requires 0 < |x| <= TWO19 && Bounded(x, LIM62) && eps >= 1
    ensures MeanSquare(x, eps) > 0
    ensures r.None? <==> MeanSquare(x, eps) > TWO92
    ensures r.Some? ==> r.value == InverseRms(MeanSquare(x, eps))
    ensures r.Some? ==> SmallProducts(x, r.value)
  {
    hide InverseRms;
    LimbSquaresExact(x);
    var s := LimbSquares(x);
    var total := Fit(s.s4) * TWO84 + Fit(s.s3) * TWO63 + Fit(s.s2) * TWO42 + Fit(s.s1) * TWO21 + Fit(s.s0);
    var v := total / |x| + eps;
    assert v == MeanSquare(x, eps);
    ProductSmall(x, 0, eps);
    if v > TWO92 {
      return None;
    }
    // max|x| * r is far below 2^62: the fallback on that product is never taken.
    forall i | 0 <= i < |x|
      ensures Abs(x[i] * InverseRms(v)) < TWO56
    {
      ProductSmall(x, i, eps);
    }
    r := Some(InverseRms(v));
  }

  method RmsNormFast(xs: Mat, g: Vec, n: nat, eps: int) returns (a: Attempt)
    requires 0 < n && Wide(xs, n) && MatBounded(xs, LIM62) && eps >= 1
    requires |g| == n && forall i | 0 <= i < n :: InI64(g[i])
    ensures a.Refused? ==> exists i :: 0 <= i < |xs| && RmsNormInt(xs[i], g, eps).None?
    ensures a.Done? ==> |a.rows| == |xs| && forall i | 0 <= i < |xs| :: RmsNormInt(xs[i], g, eps) == Some(a.rows[i])
  {
    hide InverseRms;
    hide MeanSquare;
    hide NormValues;
    hide NormProductsOk;
    hide FastNormRow;
    if n > TWO19 {
      return NeedSlow;
    }
    var roots: seq<int> := [];
    for i := 0 to |xs|
      invariant |roots| == i
      invariant forall j | 0 <= j < i :: 0 < MeanSquare(xs[j], eps) <= TWO92
      invariant forall j | 0 <= j < i :: roots[j] == InverseRms(MeanSquare(xs[j], eps))
      invariant forall j | 0 <= j < i :: SmallProducts(xs[j], roots[j])
    {
      var r := RowRoot(xs[i], eps);
      if r.None? {
        assert RmsNormInt(xs[i], g, eps).None?;
        return Refused;
      }
      roots := roots + [r.value];
    }
    if !GainsSmall(g) {
      return NeedSlow;
    }
    var fast := seq(|xs|, i requires 0 <= i < |xs| => FastNormRow(xs[i], roots[i], g));
    if exists i | 0 <= i < |fast| :: !AllSome(fast[i]) {
      return NeedSlow;
    }
    var rows := seq(|fast|, i requires 0 <= i < |fast| => Values(fast[i]));
    forall i | 0 <= i < |xs|
      ensures rows[i] == NormValues(xs[i], roots[i], g)
      ensures RmsNormInt(xs[i], g, eps) == Check62(rows[i])
    {
      FastNormRowExact(xs[i], roots[i], g);
      ProductsOk(xs[i], roots[i], g);
    }
    var checked := Check62All(rows);
    if checked.None? {
      ghost var i :| 0 <= i < |rows| && !Bounded(rows[i], LIM62);
      assert RmsNormInt(xs[i], g, eps).None?;
      return Refused;
    }
    a := Done(rows);
  }

  method RmsNorm(xs: Mat, g: Vec, n: nat, eps: int) returns (r: Option<Mat>, slow: bool)
    requires 0 < n && Wide(xs, n) && MatBounded(xs, LIM62) && eps >= 1
    requires |g| == n && forall i | 0 <= i < n :: InI64(g[i])
    ensures r == Collect(NormAll(xs, g, eps))
  {
    hide RmsNormInt;
    var a := RmsNormFast(xs, g, n, eps);
    slow := a.NeedSlow?;
    match a
    case NeedSlow =>
      r := Collect(NormAll(xs, g, eps));
    case Refused =>
      r := None;
      ghost var i :| 0 <= i < |xs| && RmsNormInt(xs[i], g, eps).None?;
      assert NormAll(xs, g, eps)[i].None?;
      CollectIs(NormAll(xs, g, eps), r);
    case Done(rows) =>
      r := Some(rows);
      CollectIs(NormAll(xs, g, eps), r);
  }
}
