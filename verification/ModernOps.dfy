/** The operators of the dyadic profile in unbounded integers, one vector at a
    time. None is a refusal: some value left the domain of the profile. */
module ModernOps {
  import opened Arithmetic
  import opened Exponential

  const TWO92: int := 0x1000_0000_0000_0000_0000_0000
  const TWO127: int := 0x8000_0000_0000_0000_0000_0000_0000_0000

  /** INT8 rows with one dyadic scale mu * 2^-k each. */
  datatype Scaled = Scaled(q: Mat, mu: Vec, k: seq<nat>)

  predicate ScaledShape(w: Scaled, rows: nat, cols: nat)
  {
    && |w.q| == |w.mu| == |w.k| == rows
    && forall i | 0 <= i < rows :: |w.q[i]| == cols
  }

  /** What a validated package guarantees about scaled rows. */
  predicate ScaledRanges(w: Scaled)
    requires |w.q| == |w.mu| == |w.k|
  {
    && (forall i | 0 <= i < |w.q| :: Bounded(w.q[i], 127))
    && (forall i | 0 <= i < |w.mu| :: 0 <= w.mu[i] < TWO31)
    && (forall i | 0 <= i < |w.k| :: 16 <= w.k[i] <= 62)
  }

  function Check62(v: Vec): (r: Option<Vec>)
    ensures r.Some? <==> Bounded(v, LIM62)
    ensures r.Some? ==> r.value == v
  {
    if Bounded(v, LIM62) then Some(v) else None
  }

  function EmbedInt(row: Vec, mu: int, k: nat): (r: Option<Vec>)
    requires k >= 16
    ensures r.Some? ==> |r.value| == |row| && Bounded(r.value, LIM62)
  {
    Check62(seq(|row|, j requires 0 <= j < |row| => Shr(row[j] * mu, k - 16)))
  }

  /** The projection of `x` before its domain checks. */
  function ProjectValues(x: Vec, w: Scaled): (y: Vec)
    requires |w.q| == |w.mu| == |w.k|
    ensures |y| == |w.q|
  {
    seq(|w.q|, i requires 0 <= i < |w.q| => Shr(Dot(w.q[i], x) * w.mu[i], w.k[i]))
  }

  predicate ProjectInputOk(x: Vec) { 127 * AbsSum(x) < TWO63 }

  function ProjectInt(x: Vec, w: Scaled): (r: Option<Vec>)
    requires |w.q| == |w.mu| == |w.k|
    ensures r.Some? ==> |r.value| == |w.q| && Bounded(r.value, LIM62)
  {
    if !ProjectInputOk(x) then None else Check62(ProjectValues(x, w))
  }

  function SquareSum(x: Vec): nat
  {
    if x == [] then 0 else x[0] * x[0] + SquareSum(x[1..])
  }

  function MeanSquare(x: Vec, eps: int): int
    requires x != []
  {
    SquareSum(x) / |x| + eps
  }

  /** 1/rms in Q30. */
  function InverseRms(v: int): nat
    requires v > 0
  {
    Isqrt(TWO92 / v)
  }

  function NormValues(x: Vec, r: int, gains: Vec): Vec
  {
    seq(Min(|x|, |gains|), i requires 0 <= i < |x| && i < |gains| => Shr(x[i] * r * gains[i], 46))
  }

  predicate NormProductsOk(x: Vec, r: int, gains: Vec)
  {
    forall i | 0 <= i < |x| && i < |gains| :: Abs(x[i] * r * gains[i]) < TWO127
  }

  function RmsNormInt(x: Vec, gains: Vec, eps: int): (r: Option<Vec>)
    requires x != [] && eps >= 1
    ensures r.Some? ==> |r.value| == Min(|x|, |gains|) && Bounded(r.value, LIM62)
  {
    var v := MeanSquare(x, eps);
    if v > TWO92 then None
    else
      var r := InverseRms(v);
      if !NormProductsOk(x, r, gains) then None else Check62(NormValues(x, r, gains))
  }

  /** Coordinate `i` of the split-half rotation of one head. */
  function RopeAt(u: Vec, cos: Vec, sin: Vec, i: nat): int
    requires |u| / 2 <= |cos| && |u| / 2 <= |sin| && i < |u|
  {
    var h := |u| / 2;
    if i < h then Shr(u[i] * cos[i] - u[i + h] * sin[i], 16)
    else if i < 2 * h then Shr(u[i - h] * sin[i - h] + u[i] * cos[i - h], 16)
    else u[i]
  }

  function RopeValues(u: Vec, cos: Vec, sin: Vec): Vec
    requires |u| / 2 <= |cos| && |u| / 2 <= |sin|
  {
    seq(|u|, i requires 0 <= i < |u| => RopeAt(u, cos, sin, i))
  }

  function HeadSlice(x: Vec, head: nat, d: nat): (r: Vec)
    requires head * d + d <= |x|
    ensures |r| == d
  {
    x[head * d..head * d + d]
  }

  /** Every head of `x` rotated, heads concatenated in order. */
  function RopeHeads(x: Vec, heads: nat, d: nat, cos: Vec, sin: Vec): (r: Vec)
    requires heads * d <= |x| && d / 2 <= |cos| && d / 2 <= |sin|
    ensures |r| == heads * d
  {
    if heads == 0 then []
    else RopeHeads(x, heads - 1, d, cos, sin) + RopeValues(HeadSlice(x, heads - 1, d), cos, sin)
  }

  function RopeInt(x: Vec, heads: nat, d: nat, cos: Vec, sin: Vec): (r: Option<Vec>)
    requires heads * d <= |x| && d / 2 <= |cos| && d / 2 <= |sin|
    ensures r.Some? ==> |r.value| == heads * d && Bounded(r.value, LIM62)
  {
    Check62(RopeHeads(x, heads, d, cos, sin))
  }

  // ---- attention ---------------------------------------------------------

  function Score(q: Vec, key: Vec, lam: int): int { Shr(Dot(q, key) * lam, 46) }

  function Scores(q: Vec, keys: Mat, lam: int): (s: Vec)
    ensures |s| == |keys|
  {
    seq(|keys|, j requires 0 <= j < |keys| => Score(q, keys[j], lam))
  }

  function MaxOf(v: Vec): (m: int)
    requires v != []
    ensures m in v && forall i | 0 <= i < |v| :: v[i] <= m
  {
    if |v| == 1 then v[0]
    else
      var m := MaxOf(v[1..]);
      assert forall i | 1 <= i < |v| :: v[i] == v[1..][i - 1];
      Max(v[0], m)
  }

  function Weights(t: Vec, scores: Vec, top: int): Vec
    requires |t| == 4097 && forall i | 0 <= i < |scores| :: scores[i] <= top
  {
    seq(|scores|, j requires 0 <= j < |scores| => ExpQ16(t, scores[j] - top))
  }

  function Column(values: Mat, i: nat): Vec
    requires forall j | 0 <= j < |values| :: i < |values[j]|
  {
    seq(|values|, j requires 0 <= j < |values| => values[j][i])
  }

  /** One query head over the cached positions, two passes, one division. */
  function AttentionInt(t: Vec, q: Vec, keys: Mat, values: Mat, lam: int): (r: Vec)
    requires ValidTable(t) && |keys| == |values| > 0
    requires forall j | 0 <= j < |values| :: |values[j]| == |q|
    ensures |r| == |q|
  {
    var scores := Scores(q, keys, lam);
    var w := Weights(t, scores, MaxOf(scores));
    WeightSum(t, scores);
    seq(|q|, i requires 0 <= i < |q| => TDiv(Dot(w, Column(values, i)), Sum(w)))
  }

  /** The weights are non-negative and the best position alone contributes
      2^16, so the division is always defined. */
  lemma WeightSum(t: Vec, scores: Vec)
    requires ValidTable(t) && scores != []
    ensures var w := Weights(t, scores, MaxOf(scores));
      && (forall j | 0 <= j < |w| :: 0 <= w[j] <= ONE)
      && ONE <= Sum(w) <= |scores| * ONE
  {
    var top := MaxOf(scores);
    var w := Weights(t, scores, top);
    forall j | 0 <= j < |w|
      ensures 0 <= w[j] <= ONE
    {
      ExpRange(t, scores[j] - top);
    }
    var k :| 0 <= k < |scores| && scores[k] == top;
    SumAtLeast(w, k);
    SumAtMost(w, ONE);
  }

  lemma {:induction false} SumAtLeast(w: Vec, k: nat)
    requires k < |w| && forall j | 0 <= j < |w| :: 0 <= w[j]
    ensures w[k] <= Sum(w)
  {
    if k > 0 {
      SumAtLeast(w[1..], k - 1);
    } else {
      SumNonNegative(w[1..]);
    }
  }

  lemma {:induction false} SumNonNegative(w: Vec)
    requires forall j | 0 <= j < |w| :: 0 <= w[j]
    ensures 0 <= Sum(w)
  {
    if w != [] { SumNonNegative(w[1..]); }
  }

  lemma {:induction false} SumAtMost(w: Vec, m: int)
    requires forall j | 0 <= j < |w| :: w[j] <= m
    ensures Sum(w) <= |w| * m
  {
    if w != [] {
      SumAtMost(w[1..], m);
      Distribute(1, |w| - 1, m);
    }
  }

  lemma {:induction false} WeightedBounds(w: Vec, c: Vec, lo: int, hi: int)
    requires |w| == |c| && forall j | 0 <= j < |w| :: 0 <= w[j] && lo <= c[j] <= hi
    ensures lo * Sum(w) <= Dot(w, c) <= hi * Sum(w)
  {
    if w != [] {
      WeightedBounds(w[1..], c[1..], lo, hi);
      WeightedStep(w[0], c[0], Sum(w[1..]), Dot(w[1..], c[1..]), lo, hi);
    }
  }

  lemma WeightedStep(w: int, c: int, sum: int, dot: int, lo: int, hi: int)
    requires 0 <= w && lo <= c <= hi && lo * sum <= dot <= hi * sum
    ensures lo * (w + sum) <= w * c + dot <= hi * (w + sum)
  {
    MulMono(lo, c, w);
    MulMono(c, hi, w);
    Distribute(w, sum, lo);
    Distribute(w, sum, hi);
  }

  /** Attention averages: an output coordinate stays between any bounds on the
      attended values of that coordinate, the truncating division included. */
  lemma AttentionBetween(t: Vec, q: Vec, keys: Mat, values: Mat, lam: int, i: nat, lo: int, hi: int)
    requires ValidTable(t) && |keys| == |values| > 0 && i < |q|
    requires forall j | 0 <= j < |values| :: |values[j]| == |q|
    requires forall j | 0 <= j < |values| :: lo <= values[j][i] <= hi
    ensures lo <= AttentionInt(t, q, keys, values, lam)[i] <= hi
  {
    var scores := Scores(q, keys, lam);
    WeightSum(t, scores);
    var w := Weights(t, scores, MaxOf(scores));
    WeightedBounds(w, Column(values, i), lo, hi);
    TDivRange(Dot(w, Column(values, i)), lo, hi, Sum(w));
  }

  // ---- feed-forward and residual -----------------------------------------

  function SiluValue(t: Vec, g: int, u: int): int
    requires ValidTable(t)
  {
    Shr(g * Sigma(t, g) * u, 32)
  }

  function SiluInt(t: Vec, g: Vec, u: Vec): (r: Option<Vec>)
    requires ValidTable(t)
    ensures r.Some? ==> |r.value| == Min(|g|, |u|) && Bounded(r.value, LIM62)
  {
    Check62(seq(Min(|g|, |u|), i requires 0 <= i < |g| && i < |u| => SiluValue(t, g[i], u[i])))
  }

  function ResidualInt(h: Vec, y: Vec): (r: Option<Vec>)
    ensures r.Some? ==> |r.value| == Min(|h|, |y|) && Bounded(r.value, LIM62)
  {
    Check62(seq(Min(|h|, |y|), i requires 0 <= i < |h| && i < |y| => h[i] + y[i]))
  }

  predicate FitsCache(v: Vec)
  {
    forall i | 0 <= i < |v| :: InI32(v[i])
  }
}
