/** What the plain operators compute, said without their formulas: floors and
    truncations as inequalities over the exact sums, and when they refuse. */
module OperatorMeaning {
  import opened Arithmetic
  import opened Rounding
  import opened Exponential
  import opened ModernOps
  import FastNorm

  /** An embedding row: every weight scaled and floored, none beyond 2^62. */
  predicate IsEmbedding(row: Vec, mu: int, k: nat, y: Vec)
    requires k >= 16
  {
    |y| == |row| && Bounded(y, LIM62) && forall j | 0 <= j < |y| && j < |row| :: IsFloor(y[j], row[j] * mu, k - 16)
  }

  lemma EmbedMeaning(row: Vec, mu: int, k: nat, y: Vec)
    requires k >= 16
    ensures EmbedInt(row, mu, k) == Some(y) <==> IsEmbedding(row, mu, k, y)
  {
    hide Shr;
    hide IsFloor;
    if |y| == |row| {
      forall j | 0 <= j < |row|
        ensures Shr(row[j] * mu, k - 16) == y[j] <==> IsFloor(y[j], row[j] * mu, k - 16)
      {
        ShrIsFloor(row[j] * mu, k - 16, y[j]);
      }
      var z := seq(|row|, j requires 0 <= j < |row| => Shr(row[j] * mu, k - 16));
      assert y == z <==> forall j | 0 <= j < |row| :: y[j] == z[j];
    }
  }

  /** A projection: exact dot product, scaled, floored; refused when the input
      is too large or a value leaves 2^62. */
  predicate IsProjection(x: Vec, w: Scaled, y: Vec)
  {
    && |w.q| == |w.mu| == |w.k| == |y| && 127 * AbsSum(x) < TWO63 && Bounded(y, LIM62)
    && forall i | 0 <= i < |y| :: IsFloor(y[i], Dot(w.q[i], x) * w.mu[i], w.k[i])
  }

  lemma ProjectMeaning(x: Vec, w: Scaled, y: Vec)
    requires |w.q| == |w.mu| == |w.k|
    ensures ProjectInt(x, w) == Some(y) <==> IsProjection(x, w, y)
  {
    hide Shr;
    hide IsFloor;
    hide Dot;
    if |y| == |w.q| {
      var z := ProjectValues(x, w);
      forall i | 0 <= i < |z|
        ensures z[i] == y[i] <==> IsFloor(y[i], Dot(w.q[i], x) * w.mu[i], w.k[i])
      {
        ShrIsFloor(Dot(w.q[i], x) * w.mu[i], w.k[i], y[i]);
      }
      assert y == z <==> forall i | 0 <= i < |z| :: z[i] == y[i];
    }
  }

  /** r = floor(2^46 / sqrt(v)). */
  predicate IsInverseRoot(r: nat, v: int) { r * r * v <= 0x1000_0000_0000_0000_0000_0000 < (r + 1) * (r + 1) * v }

  lemma InverseRootUnique(r: nat, s: nat, v: int)
    requires v > 0 && IsInverseRoot(r, v) && IsInverseRoot(s, v)
    ensures r == s
  {
    if r < s { RootOrder(r, s, v); }
    if s < r { RootOrder(s, r, v); }
  }

  lemma RootOrder(r: nat, s: nat, v: int)
    requires v > 0 && r < s
    ensures (r + 1) * (r + 1) * v <= s * s * v
  {
    MulMono(r + 1, s, r + 1);
    MulMono(r + 1, s, s);
    MulMono((r + 1) * (r + 1), s * s, v);
  }

  predicate IsNormed(x: Vec, r: nat, g: Vec, y: Vec)
  {
    && |y| == Min(|x|, |g|) && Bounded(y, LIM62)
    && forall i | 0 <= i < |y| && i < |x| && i < |g| ::
         Abs(x[i] * r * g[i]) < 0x8000_0000_0000_0000_0000_0000_0000_0000 && IsFloor(y[i], x[i] * r * g[i], 46)
  }

  lemma NormedIs(x: Vec, r: nat, g: Vec, y: Vec)
    ensures IsNormed(x, r, g, y) <==> NormProductsOk(x, r, g) && Check62(NormValues(x, r, g)) == Some(y)
  {
    hide Shr;
    hide IsFloor;
    var z := NormValues(x, r, g);
    if |y| == |z| {
      forall i | 0 <= i < |z|
        ensures z[i] == y[i] <==> IsFloor(y[i], x[i] * r * g[i], 46)
      {
        ShrIsFloor(x[i] * r * g[i], 46, y[i]);
      }
      assert y == z <==> forall i | 0 <= i < |z| :: z[i] == y[i];
    }
  }

  /** v is the mean of the squares, rounded down, plus eps. */
  predicate IsMeanSquare(x: Vec, eps: int, v: int)
  {
    (v - eps) * |x| <= SquareSum(x) < (v - eps) * |x| + |x|
  }

  /** A normalisation: with v the mean square and r the floor of 2^46 over its
      root. */
  ghost predicate IsNormalisation(x: Vec, g: Vec, eps: int, y: Vec)
  {
    exists v: int, r: nat ::
      && IsMeanSquare(x, eps, v) && v <= 0x1000_0000_0000_0000_0000_0000
      && IsInverseRoot(r, v) && IsNormed(x, r, g, y)
  }

  lemma MeanSquareIs(x: Vec, eps: int, v: int)
    requires x != []
    ensures IsMeanSquare(x, eps, v) <==> v == MeanSquare(x, eps)
  {
    DivBounds(SquareSum(x), |x|);
    if IsMeanSquare(x, eps, v) { DivUnique(SquareSum(x), |x|, v - eps); }
  }

  lemma NormMeaning(x: Vec, g: Vec, eps: int, y: Vec)
    requires x != [] && eps >= 1
    ensures MeanSquare(x, eps) > 0
    ensures RmsNormInt(x, g, eps) == Some(y) <==> IsNormalisation(x, g, eps, y)
  {
    hide NormProductsOk;
    hide NormValues;
    hide IsNormed;
    MeanPositive(x, eps);
    var v := MeanSquare(x, eps);
    MeanSquareIs(x, eps, v);
    forall u | IsMeanSquare(x, eps, u) ensures u == v { MeanSquareIs(x, eps, u); }
    hide MeanSquare;
    hide IsMeanSquare;
    var r := InverseRms(v);
    hide InverseRms;
    assert IsInverseRoot(r, v) by { FastNorm.InverseRmsExact(v); }
    hide IsInverseRoot;
    NormedIs(x, r, g, y);
    forall s: nat | IsInverseRoot(s, v)
      ensures s == r
    {
      InverseRootUnique(s, r, v);
    }
  }

  lemma MeanPositive(x: Vec, eps: int)
    requires x != [] && eps >= 1
    ensures MeanSquare(x, eps) > 0
  {
    DivMono(0, SquareSum(x), |x|);
  }

  /** One turned pair of the split-half rotation. */
  predicate IsTurned(u: Vec, cos: Vec, sin: Vec, y: Vec, i: nat)
    requires i < |u| / 2 <= |cos| && |u| / 2 <= |sin| && |y| == |u|
  {
    var h := |u| / 2;
    && IsFloor(y[i], u[i] * cos[i] - u[i + h] * sin[i], 16)
    && IsFloor(y[i + h], u[i] * sin[i] + u[i + h] * cos[i], 16)
  }

  predicate AreTurned(u: Vec, cos: Vec, sin: Vec, y: Vec)
    requires |u| / 2 <= |cos| && |u| / 2 <= |sin| && |y| == |u|
  {
    forall i | 0 <= i < |u| / 2 :: IsTurned(u, cos, sin, y, i)
  }

  lemma TurnedIs(u: Vec, cos: Vec, sin: Vec, y: Vec, i: nat)
    requires |u| % 2 == 0 && i < |u| / 2 <= |cos| && |u| / 2 <= |sin| && |y| == |u|
    ensures var h, z := |u| / 2, RopeValues(u, cos, sin);
      IsTurned(u, cos, sin, y, i) <==> z[i] == y[i] && z[i + h] == y[i + h]
  {
    hide Shr;
    hide IsFloor;
    var h := |u| / 2;
    ShrIsFloor(u[i] * cos[i] - u[i + h] * sin[i], 16, y[i]);
    ShrIsFloor(u[i] * sin[i] + u[i + h] * cos[i], 16, y[i + h]);
  }

  /** A rotated head: every pair turned by its own angle. */
  lemma RopeMeaning(u: Vec, cos: Vec, sin: Vec, y: Vec)
    requires |u| % 2 == 0 && |u| / 2 <= |cos| && |u| / 2 <= |sin|
    ensures RopeValues(u, cos, sin) == y <==>
      |y| == |u| && AreTurned(u, cos, sin, y)
  {
    var h, z := |u| / 2, RopeValues(u, cos, sin);
    assert |z| == |u|;
    hide RopeValues;
    hide IsTurned;
    if |y| == |u| {
      if z == y {
        forall i | 0 <= i < h ensures IsTurned(u, cos, sin, y, i) { TurnedIs(u, cos, sin, y, i); }
      }
      if forall i | 0 <= i < h :: IsTurned(u, cos, sin, y, i) {
        forall j | 0 <= j < |u|
          ensures z[j] == y[j]
        {
          TurnedIs(u, cos, sin, y, if j < h then j else j - h);
        }
        assert z == y;
      }
    }
  }

  /** Every head of a row turned. */
  predicate IsRotation(x: Vec, heads: nat, d: nat, cos: Vec, sin: Vec, y: Vec)
  {
    && |x| == |y| == heads * d && d / 2 <= |cos| && d / 2 <= |sin| && Bounded(y, LIM62)
    && forall h: nat | h < heads :: IsHeadTurned(x, h, d, cos, sin, y)
  }

  predicate IsHeadTurned(x: Vec, h: nat, d: nat, cos: Vec, sin: Vec, y: Vec)
    requires d / 2 <= |cos| && d / 2 <= |sin| && |x| == |y|
  {
    h * d + d <= |x| && AreTurned(x[h * d..h * d + d], cos, sin, y[h * d..h * d + d])
  }

  lemma HeadTurnedIs(x: Vec, heads: nat, h: nat, d: nat, cos: Vec, sin: Vec, y: Vec)
    requires d % 2 == 0 && d / 2 <= |cos| && d / 2 <= |sin| && |x| == |y| == heads * d && h < heads
    ensures IsHeadTurned(x, h, d, cos, sin, y) <==> SameHead(y, RopeHeads(x, heads, d, cos, sin), h, d)
  {
    hide RopeHeads;
    hide RopeValues;
    hide IsTurned;
    HeadInRange(h, heads, d);
    RopeHeadAt(x, heads, h, d, cos, sin);
    var u, v := x[h * d..h * d + d], y[h * d..h * d + d];
    RopeMeaning(u, cos, sin, v);
  }

  lemma HeadInRange(h: nat, heads: nat, d: nat)
    requires h < heads
    ensures h * d + d <= heads * d
  {
    MulMono(h + 1, heads, d);
    Distribute(h, 1, d);
  }

  lemma {:induction false} RopeHeadAt(x: Vec, heads: nat, h: nat, d: nat, cos: Vec, sin: Vec)
    requires heads * d <= |x| && d / 2 <= |cos| && d / 2 <= |sin| && h < heads
    ensures h * d + d <= heads * d
    ensures RopeHeads(x, heads, d, cos, sin)[h * d..h * d + d] == RopeValues(x[h * d..h * d + d], cos, sin)
    decreases heads
  {
    hide RopeValues;
    HeadInRange(h, heads, d);
    HeadInRange(heads - 1, heads, d);
    var done := RopeHeads(x, heads - 1, d, cos, sin);
    if h < heads - 1 {
      HeadInRange(h, heads - 1, d);
      RopeHeadAt(x, heads - 1, h, d, cos, sin);
      assert RopeHeads(x, heads, d, cos, sin)[h * d..h * d + d] == done[h * d..h * d + d];
    }
  }

  predicate SameHead(y: Vec, z: Vec, h: nat, d: nat)
  {
    h * d + d <= |y| && h * d + d <= |z| && y[h * d..h * d + d] == z[h * d..h * d + d]
  }

  /** u is head h of y. */
  predicate IsSlice(y: Vec, h: nat, d: nat, u: Vec) { h * d + d <= |y| && y[h * d..h * d + d] == u }

  lemma SameSlice(y: Vec, z: Vec, h: nat, d: nat, u: Vec)
    requires IsSlice(z, h, d, u)
    ensures SameHead(y, z, h, d) <==> IsSlice(y, h, d, u)
  {
  }

  /** Two rows of whole heads are equal when all their heads are. */
  lemma HeadsEqual(y: Vec, z: Vec, heads: nat, d: nat)
    requires d > 0 && |y| == |z| == heads * d
    ensures y == z <==> forall h: nat | h < heads :: SameHead(y, z, h, d)
  {
    if y == z {
      forall h: nat | h < heads ensures SameHead(y, z, h, d) { HeadInRange(h, heads, d); }
    }
    if forall h: nat | h < heads :: SameHead(y, z, h, d) {
      forall n | 0 <= n < |y|
        ensures y[n] == z[n]
      {
        var h, i := n / d, n % d;
        DivRange(n, 0, heads, d);
        DivBounds(n, d);
        assert SameHead(y, z, h, d);
        assert y[h * d..h * d + d][i] == z[h * d..h * d + d][i];
      }
    }
  }

  lemma RotationMeaning(x: Vec, heads: nat, d: nat, cos: Vec, sin: Vec, y: Vec)
    requires d > 0 && d % 2 == 0 && heads * d == |x| && d / 2 <= |cos| && d / 2 <= |sin|
    ensures RopeInt(x, heads, d, cos, sin) == Some(y) <==> IsRotation(x, heads, d, cos, sin, y)
  {
    hide RopeHeads;
    hide IsHeadTurned;
    hide SameHead;
    var z := RopeHeads(x, heads, d, cos, sin);
    if |y| == |x| {
      HeadsEqual(y, z, heads, d);
      forall h: nat | h < heads
        ensures IsHeadTurned(x, h, d, cos, sin, y) <==> SameHead(y, z, h, d)
      {
        HeadTurnedIs(x, heads, h, d, cos, sin, y);
      }
    }
  }

  // ---- exponential and sigmoid -------------------------------------------------------

  /** e is exp(x): 1 at 0, 0 from -16 on, and otherwise the table value below
      plus the floored share of the way to the next. */
  predicate IsExp(t: Vec, x: int, e: int)
    requires |t| == 4097
  {
    if x == 0 then e == 0x1_0000
    else if x <= -0x10_0000 then e == 0
    else
      x < 0 && var i, f := (x + 0x10_0000) / 256, (x + 0x10_0000) % 256;
      256 * (e - t[i]) <= (t[i + 1] - t[i]) * f < 256 * (e - t[i]) + 256
  }

  lemma ExpMeaning(t: Vec, x: int, e: int)
    requires |t| == 4097 && x <= 0
    ensures ExpQ16(t, x) == e <==> IsExp(t, x, e)
  {
    if -0x10_0000 < x < 0 {
      var i, f := (x + 0x10_0000) / 256, (x + 0x10_0000) % 256;
      var d := (t[i + 1] - t[i]) * f;
      DivBounds(d, 256);
      if IsExp(t, x, e) { DivUnique(d, 256, e - t[i]); }
    }
  }

  /** s is the sigmoid of g: 1 / (1 + e) or e / (1 + e), rounded down, with e the
      exponential of the negative magnitude. */
  ghost predicate IsSigmoid(t: Vec, g: int, s: int)
    requires |t| == 4097
  {
    var x := if g >= 0 then -g else g;
    exists e :: IsExp(t, x, e) && IsShare(g >= 0, e, s)
  }

  /** The larger or the smaller share of 2^16 : e, rounded down. */
  predicate IsShare(larger: bool, e: int, s: int)
  {
    var n := if larger then 0x1_0000_0000 else e * 0x1_0000;
    s * (0x1_0000 + e) <= n < s * (0x1_0000 + e) + 0x1_0000 + e
  }

  lemma SigmoidMeaning(t: Vec, g: int, s: int)
    requires ValidTable(t)
    ensures Sigma(t, g) == s <==> IsSigmoid(t, g, s)
  {
    var x := if g >= 0 then -g else g;
    var e := ExpQ16(t, x);
    ExpRange(t, x);
    ExpMeaning(t, x, e);
    forall d | IsExp(t, x, d) ensures d == e { ExpMeaning(t, x, d); }
    hide ExpQ16;
    hide IsExp;
    ShareIs(g >= 0, e, s);
    hide IsShare;
  }

  lemma ShareIs(larger: bool, e: int, s: int)
    requires 0 <= e
    ensures IsShare(larger, e, s) <==> s == (if larger then TWO32 else e * ONE) / (ONE + e)
  {
    var n := if larger then TWO32 else e * ONE;
    DivBounds(n, ONE + e);
    if IsShare(larger, e, s) { DivUnique(n, ONE + e, s); }
  }

  // ---- attention ---------------------------------------------------------------------

  /** Weights are exponentials of the distance to the largest score. */
  predicate AreWeights(t: Vec, s: Vec, k: nat, w: Vec)
    requires |t| == 4097
  {
    && k < |s| == |w| && (forall j | 0 <= j < |s| :: s[j] <= s[k])
    && forall j | 0 <= j < |s| :: IsExp(t, s[j] - s[k], w[j])
  }

  predicate AreScores(q: Vec, keys: Mat, lam: int, s: Vec)
  {
    |s| == |keys| && forall j | 0 <= j < |s| :: IsFloor(s[j], Dot(q, keys[j]) * lam, 46)
  }

  /** Coordinate i is the truncated mean of the values under the weights. */
  predicate IsMean(w: Vec, values: Mat, i: nat, y: int)
    requires forall j | 0 <= j < |values| :: i < |values[j]|
  {
    IsTruncation(y, Dot(w, seq(|values|, j requires 0 <= j < |values| => values[j][i])), Sum(w))
  }

  /** One query head over the cached positions: floored scores, weights
      relative to a largest score, and the truncated weighted mean. */
  ghost predicate IsAttention(t: Vec, q: Vec, keys: Mat, values: Mat, lam: int, y: Vec)
  {
    && |t| == 4097 && |keys| == |values| > 0 && |y| == |q| && (forall j | 0 <= j < |values| :: |values[j]| == |q|)
    && exists s: Vec, k: nat, w: Vec :: AreScores(q, keys, lam, s) && AreWeights(t, s, k, w) && AreMeans(w, values, y)
  }

  predicate AreMeans(w: Vec, values: Mat, y: Vec)
  {
    && (forall j | 0 <= j < |values| :: |values[j]| == |y|)
    && forall i | 0 <= i < |y| :: IsMean(w, values, i, y[i])
  }

  lemma ScoresAre(q: Vec, keys: Mat, lam: int, s: Vec)
    ensures AreScores(q, keys, lam, s) <==> s == Scores(q, keys, lam)
  {
    hide Shr;
    hide IsFloor;
    hide Dot;
    if |s| == |keys| {
      forall j | 0 <= j < |s|
        ensures IsFloor(s[j], Dot(q, keys[j]) * lam, 46) <==> s[j] == Scores(q, keys, lam)[j]
      {
        ShrIsFloor(Dot(q, keys[j]) * lam, 46, s[j]);
      }
    }
  }

  lemma WeightsAre(t: Vec, s: Vec, w: Vec)
    requires |t| == 4097 && s != []
    ensures (exists k: nat :: AreWeights(t, s, k, w)) <==> w == Weights(t, s, MaxOf(s))
  {
    hide IsExp;
    hide ExpQ16;
    var top, z := MaxOf(s), Weights(t, s, MaxOf(s));
    if |w| == |s| {
      forall j | 0 <= j < |s|
        ensures z[j] == w[j] <==> IsExp(t, s[j] - top, w[j])
      {
        ExpMeaning(t, s[j] - top, w[j]);
      }
    }
    var at :| 0 <= at < |s| && s[at] == top;
    if w == z { assert AreWeights(t, s, at, w); }
    if k: nat :| AreWeights(t, s, k, w) {
      assert s[k] == top;
      assert w == z;
    }
  }

  lemma MeansAre(w: Vec, values: Mat, y: Vec, z: Vec)
    requires |y| == |z| && Sum(w) > 0 && forall j | 0 <= j < |values| :: |values[j]| == |y|
    requires forall i | 0 <= i < |z| :: z[i] == TDiv(Dot(w, Column(values, i)), Sum(w))
    ensures AreMeans(w, values, y) <==> y == z
  {
    hide IsTruncation;
    hide TDiv;
    hide Dot;
    forall i | 0 <= i < |y|
      ensures IsMean(w, values, i, y[i]) <==> y[i] == z[i]
    {
      assert Column(values, i) == seq(|values|, j requires 0 <= j < |values| => values[j][i]);
      TDivIsTruncation(Dot(w, Column(values, i)), Sum(w), y[i]);
    }
  }

  lemma AttentionMeaning(t: Vec, q: Vec, keys: Mat, values: Mat, lam: int, y: Vec)
    requires ValidTable(t) && |keys| == |values| > 0
    requires forall j | 0 <= j < |values| :: |values[j]| == |q|
    ensures AttentionInt(t, q, keys, values, lam) == y <==> IsAttention(t, q, keys, values, lam, y)
  {
    var s := Scores(q, keys, lam);
    var w := Weights(t, s, MaxOf(s));
    WeightSum(t, s);
    ScoresAre(q, keys, lam, s);
    WeightsAre(t, s, w);
    var z := AttentionInt(t, q, keys, values, lam);
    if |y| == |q| { MeansAre(w, values, y, z); }
    hide AttentionInt;
    hide Scores;
    hide Weights;
    hide AreScores;
    hide AreWeights;
    hide AreMeans;
    if z == y {
      var k: nat :| AreWeights(t, s, k, w);
      assert IsAttention(t, q, keys, values, lam, y);
    }
    if IsAttention(t, q, keys, values, lam, y) {
      var s': Vec, k: nat, w': Vec :|
        AreScores(q, keys, lam, s') && AreWeights(t, s', k, w') && AreMeans(w', values, y);
      ScoresAre(q, keys, lam, s');
      WeightsAre(t, s, w');
    }
  }

  // ---- feed-forward and residual ------------------------------------------------------

  ghost predicate IsGate(t: Vec, g: int, u: int, y: int)
    requires |t| == 4097
  {
    exists s :: IsSigmoid(t, g, s) && IsFloor(y, g * s * u, 32)
  }

  /** The gated activation, value by value. */
  ghost predicate IsActivation(t: Vec, g: Vec, u: Vec, y: Vec)
  {
    && |t| == 4097 && |y| == Min(|g|, |u|) && Bounded(y, LIM62)
    && forall i | 0 <= i < |y| && i < |g| && i < |u| :: IsGate(t, g[i], u[i], y[i])
  }

  lemma GateIs(t: Vec, g: int, u: int, y: int)
    requires ValidTable(t)
    ensures SiluValue(t, g, u) == y <==> IsGate(t, g, u, y)
  {
    hide Shr;
    hide IsFloor;
    hide IsSigmoid;
    var s := Sigma(t, g);
    SigmoidMeaning(t, g, s);
    forall r | IsSigmoid(t, g, r) ensures r == s { SigmoidMeaning(t, g, r); }
    hide Sigma;
    ShrIsFloor(g * s * u, 32, y);
  }

  lemma SiluMeaning(t: Vec, g: Vec, u: Vec, y: Vec)
    requires ValidTable(t)
    ensures SiluInt(t, g, u) == Some(y) <==> IsActivation(t, g, u, y)
  {
    hide SiluValue;
    hide IsGate;
    var n := Min(|g|, |u|);
    if |y| == n {
      var z := seq(n, i requires 0 <= i < |g| && i < |u| => SiluValue(t, g[i], u[i]));
      forall i | 0 <= i < n
        ensures z[i] == y[i] <==> IsGate(t, g[i], u[i], y[i])
      {
        GateIs(t, g[i], u[i], y[i]);
      }
      assert y == z <==> forall i | 0 <= i < n :: z[i] == y[i];
    }
  }

  /** A residual addition. */
  predicate IsAddition(h: Vec, o: Vec, y: Vec)
  {
    |y| == Min(|h|, |o|) && Bounded(y, LIM62) && forall i | 0 <= i < |y| && i < |h| && i < |o| :: y[i] - h[i] == o[i]
  }

  lemma ResidualMeaning(h: Vec, o: Vec, y: Vec)
    ensures ResidualInt(h, o) == Some(y) <==> IsAddition(h, o, y)
  {
    var n := Min(|h|, |o|);
    var z := seq(n, i requires 0 <= i < |h| && i < |o| => h[i] + o[i]);
    if |y| == n && IsAddition(h, o, y) { assert y == z; }
  }
}
