/** What the operators and layers of the legacy profile compute, said without
    their formulas: floors, truncations and sums as relations between rows, and
    when they refuse. */
module LegacyMeaning {
  import opened Arithmetic
  import opened Rounding
  import opened OperatorMeaning
  import ModernOps
  import opened LegacyExp
  import LegacyIsqrt
  import opened LegacyOps
  import opened LegacyAttention

  // ---- projection, normalisation, feed-forward ------------------------------------

  /** y = floor(n / 2^16) of a product that fits int64. */
  predicate IsScaledDown(y: int, n: int) { InI64(n) && IsFloor(y, n, 16) }

  /** A projection: the magnitude sum of a row fits, its sum is scaled and
      floored. */
  predicate IsMatmul(w: Matrix, x: Vec, y: Vec)
  {
    && |y| == Min(|w.rows|, |w.scales|)
    && forall i | 0 <= i < |y| && i < |w.rows| && i < |w.scales| ::
         AbsDot(w.rows[i], x) < TWO63 && IsScaledDown(y[i], Dot(w.rows[i], x) * w.scales[i])
  }

  lemma ScaledDownIs(y: int, n: int)
    ensures IsScaledDown(y, n) <==> InI64(n) && y == Shr(n, 16)
  {
    ShrIsFloor(n, 16, y);
  }

  lemma MatmulMeaning(w: Matrix, x: Vec, y: Vec)
    ensures MatmulRows(w, x) == Some(y) <==> IsMatmul(w, x, y)
  {
    hide Shr;
    hide IsScaledDown;
    hide Dot;
    hide AbsDot;
    var n := Min(|w.rows|, |w.scales|);
    forall i | 0 <= i < n && i < |y|
      ensures IsScaledDown(y[i], Dot(w.rows[i], x) * w.scales[i])
        <==> InI64(Dot(w.rows[i], x) * w.scales[i]) && y[i] == RowValue(w.rows[i], w.scales[i], x)
    {
      ScaledDownIs(y[i], Dot(w.rows[i], x) * w.scales[i]);
    }
    if IsMatmul(w, x, y) {
      forall i | 0 <= i < n ensures RowOk(w.rows[i], w.scales[i], x) { assert i < |y|; }
      assert y == MatmulRows(w, x).value;
    }
    if MatmulRows(w, x) == Some(y) {
      forall i | 0 <= i < |y|
        ensures AbsDot(w.rows[i], x) < TWO63 && IsScaledDown(y[i], Dot(w.rows[i], x) * w.scales[i])
      {
        assert RowOk(w.rows[i], w.scales[i], x);
      }
    }
  }

  /** One normalised coordinate: scaled by the inverse root, then by its gain. */
  ghost predicate IsNormedValue(x: int, inv: int, g: int, y: int)
  {
    exists t :: IsScaledDown(t, x * inv) && IsScaledDown(y, t * g)
  }

  /** m = floor(sum of squares / (n * 2^16)). */
  predicate IsMean(x: Vec, m: int)
  {
    var s, n := ModernOps.SquareSum(x), |x| * 0x1_0000;
    s < 0x8000_0000_0000_0000_0000_0000_0000_0000 && m * n <= s < m * n + n
  }

  /** A normalisation by the inverse root of the mean square plus one. */
  ghost predicate IsNorm(x: Vec, gamma: Vec, y: Vec)
  {
    && |y| == |x|
    && (x != [] ==>
        exists m: int, inv: int ::
          && IsMean(x, m) && m < TWO63 - 1 && InverseSqrt(m + 1) == Some(inv)
          && AreNormed(x, inv, gamma, y))
  }

  ghost predicate AreNormed(x: Vec, inv: int, gamma: Vec, y: Vec)
  {
    |y| == |x| && forall i | 0 <= i < |x| :: IsNormedAt(x, inv, gamma, i, y[i])
  }

  /** Coordinate i with its own gain; missing gains are one. */
  ghost predicate IsNormedAt(x: Vec, inv: int, gamma: Vec, i: nat, y: int)
    requires i < |x|
  {
    if i < |gamma| then IsNormedValue(x[i], inv, gamma[i], y) else IsNormedValue(x[i], inv, 0x1_0000, y)
  }

  lemma MeanIs(x: Vec, m: int)
    requires x != []
    ensures var s := ModernOps.SquareSum(x); IsMean(x, m) <==> s < ModernOps.TWO127 && m == Shr(s / |x|, 16)
    ensures Shr(ModernOps.SquareSum(x) / |x|, 16) >= 0
  {
    Pow2Small();
    var s, n := ModernOps.SquareSum(x), |x|;
    DivDiv(s, n, ONE);
    DivBounds(s, n * ONE);
    DivMono(0, s, n * ONE);
    if IsMean(x, m) { DivUnique(s, n * ONE, m); }
  }

  lemma NormedValueIs(x: int, inv: int, g: int, y: int)
    ensures IsNormedValue(x, inv, g, y) <==>
      InI64(x * inv) && InI64(Shr(x * inv, 16) * g) && y == Shr(Shr(x * inv, 16) * g, 16)
  {
    var t := Shr(x * inv, 16);
    ScaledDownIs(t, x * inv);
    ScaledDownIs(y, t * g);
    forall u | IsScaledDown(u, x * inv) ensures u == t { ScaledDownIs(u, x * inv); }
    hide Shr;
    hide IsScaledDown;
    if InI64(x * inv) && InI64(t * g) && y == Shr(t * g, 16) {
      assert IsScaledDown(t, x * inv) && IsScaledDown(y, t * g);
    }
  }

  lemma AreNormedIs(x: Vec, inv: int, gamma: Vec, y: Vec)
    ensures AreNormed(x, inv, gamma, y) <==> NormOk(x, inv, gamma) && y == NormedRow(x, inv, gamma)
  {
    hide Shr;
    hide IsNormedValue;
    if |y| == |x| {
      forall i | 0 <= i < |x|
        ensures IsNormedAt(x, inv, gamma, i, y[i]) <==>
          InI64(x[i] * inv) && InI64(Shr(x[i] * inv, 16) * Gain(gamma, i)) && y[i] == NormedRow(x, inv, gamma)[i]
      {
        NormedValueIs(x[i], inv, Gain(gamma, i), y[i]);
      }
    }
  }

  lemma NormMeaning(x: Vec, gamma: Vec, y: Vec)
    ensures RmsNorm(x, gamma) == Some(y) <==> IsNorm(x, gamma, y)
  {
    hide InverseSqrt;
    hide AreNormed;
    hide NormOk;
    hide NormedRow;
    hide IsMean;
    hide ModernOps.SquareSum;
    if x != [] {
      var m := Shr(ModernOps.SquareSum(x) / |x|, 16);
      MeanIs(x, m);
      forall k | IsMean(x, k) ensures k == m { MeanIs(x, k); }
      hide Shr;
      forall inv: int
        ensures AreNormed(x, inv, gamma, y) <==> NormOk(x, inv, gamma) && y == NormedRow(x, inv, gamma)
      {
        AreNormedIs(x, inv, gamma, y);
      }
      if RmsNorm(x, gamma) == Some(y) {
        assert AreNormed(x, InverseSqrt(m + 1).value, gamma, y);
      }
    }
  }

  /** A legacy normalisation is refused exactly when the square sum reaches
      2^127, the mean does not fit, or a product leaves int64: the inverse root
      itself never refuses. */
  lemma NormRefusal(x: Vec, gamma: Vec)
    requires x != []
    ensures var sum := ModernOps.SquareSum(x);
      var mean := Shr(sum / |x|, 16);
      && (sum < ModernOps.TWO127 && mean < TWO63 - 1 ==> InverseSqrt(mean + 1).Some?)
      && (RmsNorm(x, gamma).Some? <==>
          sum < ModernOps.TWO127 && mean < TWO63 - 1 && NormOk(x, InverseSqrt(mean + 1).value, gamma))
  {
    hide InverseSqrt;
    hide NormOk;
    hide ModernOps.SquareSum;
    var sum := ModernOps.SquareSum(x);
    MeanIs(x, Shr(sum / |x|, 16));
    var mean := Shr(sum / |x|, 16);
    hide Shr;
    if mean < TWO63 - 1 { LegacyIsqrt.InverseSqrtTotal(mean + 1); }
  }

  /** One gated value: g times its sigmoid, then times u. */
  ghost predicate IsGateValue(g: int, u: int, y: int)
  {
    exists s, t :: IsSigmoid(Lut(), g, s) && IsScaledDown(t, g * s) && IsScaledDown(y, t * u)
  }

  ghost predicate IsSilu(g: Vec, u: Vec, y: Vec)
  {
    |y| == Min(|g|, |u|) && forall i | 0 <= i < |y| && i < |g| && i < |u| :: IsGateValue(g[i], u[i], y[i])
  }

  lemma GateValueIs(g: int, u: int, y: int)
    ensures IsGateValue(g, u, y) <==> GateOk(g, u) && y == Shr(Shr(g * Sigmoid(g), 16) * u, 16)
  {
    hide Lut;
    var s := Sigmoid(g);
    SigmoidIs(g);
    SigmoidMeaning(Lut(), g, s);
    forall r | IsSigmoid(Lut(), g, r) ensures r == s { SigmoidMeaning(Lut(), g, r); }
    hide Sigmoid;
    hide IsSigmoid;
    var t := Shr(g * s, 16);
    ScaledDownIs(t, g * s);
    ScaledDownIs(y, t * u);
    forall r | IsScaledDown(r, g * s) ensures r == t { ScaledDownIs(r, g * s); }
    hide Shr;
    hide IsScaledDown;
    if GateOk(g, u) && y == Shr(t * u, 16) { assert IsScaledDown(t, g * s) && IsScaledDown(y, t * u); }
  }

  lemma SiluMeaning(g: Vec, u: Vec, y: Vec)
    ensures SiluGate(g, u) == Some(y) <==> IsSilu(g, u, y)
  {
    hide IsGateValue;
    hide GateOk;
    hide Sigmoid;
    hide Shr;
    var n := Min(|g|, |u|);
    forall i | 0 <= i < n && i < |y|
      ensures IsGateValue(g[i], u[i], y[i])
        <==> GateOk(g[i], u[i]) && y[i] == Shr(Shr(g[i] * Sigmoid(g[i]), 16) * u[i], 16)
    {
      GateValueIs(g[i], u[i], y[i]);
    }
    if IsSilu(g, u, y) {
      forall i | 0 <= i < n ensures GateOk(g[i], u[i]) { assert i < |y|; }
      assert y == SiluGate(g, u).value;
    }
  }

  /** A residual addition inside int64. */
  predicate IsSum(a: Vec, b: Vec, y: Vec)
  {
    |y| == Min(|a|, |b|) && forall i | 0 <= i < |y| && i < |a| && i < |b| :: InI64(y[i]) && y[i] - a[i] == b[i]
  }

  lemma ResidualMeaning(a: Vec, b: Vec, y: Vec)
    ensures Residual(a, b) == Some(y) <==> IsSum(a, b, y)
  {
    var n := Min(|a|, |b|);
    if IsSum(a, b, y) {
      forall i | 0 <= i < n ensures InI64(a[i] + b[i]) { assert y[i] == a[i] + b[i]; }
      assert y == Residual(a, b).value;
    }
  }

  // ---- rotation --------------------------------------------------------------------

  /** A pair turned by an angle: four floored products inside int64. */
  ghost predicate IsTurn(x0: int, x1: int, c: int, s: int, y0: int, y1: int)
  {
    exists a, b, d, e ::
      && IsScaledDown(a, x0 * c) && IsScaledDown(b, x1 * s) && IsScaledDown(d, x0 * s) && IsScaledDown(e, x1 * c)
      && y0 == a - b && y1 == d + e
  }

  lemma TurnIs(x0: int, x1: int, c: int, s: int, y0: int, y1: int)
    ensures IsTurn(x0, x1, c, s, y0, y1) <==>
      TurnOk(x0, x1, c, s) && y0 == TurnFirst(x0, x1, c, s) && y1 == TurnSecond(x0, x1, c, s)
  {
    hide IsScaledDown;
    forall n, y ensures IsScaledDown(y, n) <==> InI64(n) && y == Shr(n, 16) { ScaledDownIs(y, n); }
    hide Shr;
    if TurnOk(x0, x1, c, s) && y0 == TurnFirst(x0, x1, c, s) && y1 == TurnSecond(x0, x1, c, s) {
      assert IsScaledDown(Shr(x0 * c, 16), x0 * c) && IsScaledDown(Shr(x1 * s, 16), x1 * s);
      assert IsScaledDown(Shr(x0 * s, 16), x0 * s) && IsScaledDown(Shr(x1 * c, 16), x1 * c);
    }
  }

  /** Pair i of a vector: neighbours in the interleaved layout, half a vector
      apart in the other, turned by entry i of the position's angles. */
  ghost predicate IsPairTurned(interleaved: bool, v: Vec, pos: nat, t: Angles, y: Vec, i: nat)
    requires |y| == |v| && i < |v| / 2
  {
    var h := |v| / 2;
    var f, s := if interleaved then 2 * i else i, if interleaved then 2 * i + 1 else h + i;
    && pos * h + h <= |t.cos| && pos * h + h <= |t.sin|
    && IsTurn(v[f], v[s], t.cos[pos * h + i], t.sin[pos * h + i], y[f], y[s])
  }

  /** A rotated vector; an odd last coordinate stays as it is. */
  ghost predicate IsRope(interleaved: bool, v: Vec, pos: nat, t: Angles, y: Vec)
  {
    && |y| == |v| && (|v| % 2 == 1 ==> y[|v| - 1] == v[|v| - 1])
    && forall i | 0 <= i < |v| / 2 :: IsPairTurned(interleaved, v, pos, t, y, i)
  }

  lemma PairTurnedIs(interleaved: bool, v: Vec, pos: nat, t: Angles, y: Vec, i: nat)
    requires |y| == |v| && i < |v| / 2
    ensures IsPairTurned(interleaved, v, pos, t, y, i) <==>
      AnglesAt(t, pos, |v| / 2).Some? && PairOk(interleaved, v, AnglesAt(t, pos, |v| / 2).value, y, i)
  {
    hide IsTurn;
    hide TurnOk;
    hide TurnFirst;
    hide TurnSecond;
    var f, s, h := First(interleaved, |v|, i), Second(interleaved, |v|, i), |v| / 2;
    var at := AnglesAt(t, pos, h);
    if at.Some? {
      var a := at.value;
      assert a.cos[i] == t.cos[pos * h + i] && a.sin[i] == t.sin[pos * h + i];
      hide AnglesAt;
      TurnIs(v[f], v[s], a.cos[i], a.sin[i], y[f], y[s]);
      PairAt(interleaved, v, a, i);
      hide RopeAt;
    }
  }

  lemma PairAt(interleaved: bool, v: Vec, a: Angles, i: nat)
    requires |a.cos| == |a.sin| == |v| / 2 && i < |v| / 2
    ensures var f, s := First(interleaved, |v|, i), Second(interleaved, |v|, i);
      && RopeAt(interleaved, v, a, f) == TurnFirst(v[f], v[s], a.cos[i], a.sin[i])
      && RopeAt(interleaved, v, a, s) == TurnSecond(v[f], v[s], a.cos[i], a.sin[i])
  {
    hide TurnFirst;
    hide TurnSecond;
  }

  lemma RopeMeaning(interleaved: bool, v: Vec, pos: nat, t: Angles, y: Vec)
    ensures Rope(interleaved, v, pos, t) == Some(y) <==> IsRope(interleaved, v, pos, t, y)
  {
    hide TurnOk;
    hide TurnFirst;
    hide TurnSecond;
    hide IsPairTurned;
    var h := |v| / 2;
    if |y| == |v| {
      forall i | 0 <= i < h
        ensures IsPairTurned(interleaved, v, pos, t, y, i) <==>
          AnglesAt(t, pos, h).Some? && PairOk(interleaved, v, AnglesAt(t, pos, h).value, y, i)
      {
        PairTurnedIs(interleaved, v, pos, t, y, i);
      }
      var at := AnglesAt(t, pos, h);
      if h > 0 && IsRope(interleaved, v, pos, t, y) { assert IsPairTurned(interleaved, v, pos, t, y, 0); }
      if at.Some? { RotatedIs(interleaved, v, at.value, y); }
      hide AnglesAt;
      hide RopeAt;
      hide PairOk;
    }
  }

  predicate PairOk(interleaved: bool, v: Vec, a: Angles, y: Vec, i: nat)
    requires |a.cos| == |a.sin| == |v| / 2 && |y| == |v| && i < |v| / 2
  {
    var f, s := First(interleaved, |v|, i), Second(interleaved, |v|, i);
    && TurnOk(v[f], v[s], a.cos[i], a.sin[i])
    && y[f] == RopeAt(interleaved, v, a, f) && y[s] == RopeAt(interleaved, v, a, s)
  }

  lemma RotatedIs(interleaved: bool, v: Vec, a: Angles, y: Vec)
    requires |a.cos| == |a.sin| == |v| / 2 && |y| == |v|
    ensures (RopeOk(interleaved, v, a) && Rotated(interleaved, v, a) == y) <==>
      (|v| % 2 == 1 ==> y[|v| - 1] == v[|v| - 1]) && PairsOk(interleaved, v, a, y)
  {
    RotatedFound(interleaved, v, a, y);
    RotatedGiven(interleaved, v, a, y);
    hide RopeOk;
    hide Rotated;
    hide PairsOk;
  }

  predicate PairsOk(interleaved: bool, v: Vec, a: Angles, y: Vec)
    requires |a.cos| == |a.sin| == |v| / 2 && |y| == |v|
  {
    forall i | 0 <= i < |v| / 2 :: PairOk(interleaved, v, a, y, i)
  }

  lemma RotatedFound(interleaved: bool, v: Vec, a: Angles, y: Vec)
    requires |a.cos| == |a.sin| == |v| / 2 && |y| == |v|
    ensures RopeOk(interleaved, v, a) && Rotated(interleaved, v, a) == y ==>
      (|v| % 2 == 1 ==> y[|v| - 1] == v[|v| - 1]) && PairsOk(interleaved, v, a, y)
  {
    hide TurnOk;
    LastStays(interleaved, v, a);
    hide RopeAt;
  }

  lemma LastStays(interleaved: bool, v: Vec, a: Angles)
    requires |a.cos| == |a.sin| == |v| / 2
    ensures |v| % 2 == 1 ==> RopeAt(interleaved, v, a, |v| - 1) == v[|v| - 1]
  {
  }

  lemma RotatedGiven(interleaved: bool, v: Vec, a: Angles, y: Vec)
    requires |a.cos| == |a.sin| == |v| / 2 && |y| == |v|
    ensures (|v| % 2 == 1 ==> y[|v| - 1] == v[|v| - 1]) && PairsOk(interleaved, v, a, y) ==>
      RopeOk(interleaved, v, a) && Rotated(interleaved, v, a) == y
  {
    hide TurnOk;
    LastStays(interleaved, v, a);
    hide RopeAt;
    hide First;
    hide Second;
    var h := |v| / 2;
    if (|v| % 2 == 1 ==> y[|v| - 1] == v[|v| - 1]) && PairsOk(interleaved, v, a, y) {
      forall i | 0 <= i < h
        ensures TurnOk(v[First(interleaved, |v|, i)], v[Second(interleaved, |v|, i)], a.cos[i], a.sin[i])
      {
        assert PairOk(interleaved, v, a, y, i);
      }
      forall j | 0 <= j < |v|
        ensures y[j] == RopeAt(interleaved, v, a, j)
      {
        if j < 2 * h {
          var i := if interleaved then j / 2 else if j < h then j else j - h;
          OneOfPair(interleaved, |v|, j, i);
          assert PairOk(interleaved, v, a, y, i);
        }
      }
      assert Rotated(interleaved, v, a) == y;
    }
  }

  lemma OneOfPair(interleaved: bool, n: nat, j: nat, i: nat)
    requires j < 2 * (n / 2) && i == if interleaved then j / 2 else if j < n / 2 then j else j - n / 2
    ensures i < n / 2 && (j == First(interleaved, n, i) || j == Second(interleaved, n, i))
  {
  }

  // ---- attention -------------------------------------------------------------------

  /** A score: the dot product floored, scaled and floored again. */
  ghost predicate IsScore(q: Vec, key: Vec, scale: int, s: int)
  {
    AbsDot(q, key) < TWO63 && exists d :: IsFloor(d, Dot(q, key), 16) && IsScaledDown(s, d * scale)
  }

  lemma ScoreIs(q: Vec, key: Vec, scale: int, s: int)
    ensures IsScore(q, key, scale, s) <==> ScoreOk(q, key, scale) && s == HeadScore(q, key, scale)
  {
    hide Dot;
    hide AbsDot;
    var d := Shr(Dot(q, key), 16);
    ShrIsFloor(Dot(q, key), 16, d);
    forall e | IsFloor(e, Dot(q, key), 16) ensures e == d { ShrIsFloor(Dot(q, key), 16, e); }
    ScaledDownIs(s, d * scale);
    hide IsFloor;
    hide IsScaledDown;
    hide Shr;
  }

  /** The exponential of the recurrence table. */
  predicate IsLutExp(x: int, e: int) { x <= 0 && IsExp(Lut(), x, e) }

  lemma LutExpIs(x: int, e: int)
    requires x <= 0
    ensures IsLutExp(x, e) <==> e == IntegerExp(x)
  {
    hide Lut;
    IntegerExpIs(x);
    ExpMeaning(Lut(), x, e);
  }

  /** Entry i of the table is 65281 / 65536 of the next, rounded down; the last
      is one. */
  lemma LutMeaning(i: nat, e: int)
    requires i <= 4096
    ensures Lut()[i] == e <==> if i == 4096 then e == 0x1_0000 else IsFloor(e, Lut()[i + 1] * 65281, 16)
  {
    Pow2Small();
    if i < 4096 {
      LutNext(i);
      hide LutAt;
      DivBounds(LutAt(i + 1) * DECAY, ONE);
      if IsFloor(e, Lut()[i + 1] * 65281, 16) { DivUnique(LutAt(i + 1) * DECAY, ONE, e); }
    } else {
      LutTop();
    }
  }

  predicate AreScaledDown(v: Vec, c: int, y: Vec)
  {
    |y| == |v| && forall i | 0 <= i < |v| :: IsScaledDown(y[i], v[i] * c)
  }

  /** A larger score becomes the maximum and shrinks sum and accumulator by the
      exponential of the old maximum minus the new. */
  ghost predicate IsRescaled(o: Online, score: int, p: Online)
  {
    if score <= o.top then p == o
    else
      var x := o.top - score;
      p.top == score && InI64(x) && exists c :: IsLutExp(x, c) && IsShrunk(o, c, p)
  }

  predicate IsShrunk(o: Online, c: int, p: Online)
  {
    IsScaledDown(p.total, o.total * c) && AreScaledDown(o.acc, c, p.acc)
  }

  lemma AreScaledDownIs(v: Vec, c: int, y: Vec)
    ensures AreScaledDown(v, c, y) <==> ProductsOk(v, c) && y == ScaledDown(v, c)
  {
    hide IsScaledDown;
    hide Shr;
    forall i | 0 <= i < |v| && i < |y|
      ensures IsScaledDown(y[i], v[i] * c) <==> InI64(v[i] * c) && y[i] == Shr(v[i] * c, 16)
    {
      ScaledDownIs(y[i], v[i] * c);
    }
    if AreScaledDown(v, c, y) {
      forall i | 0 <= i < |v| ensures InI64(v[i] * c) { assert i < |y|; }
      assert y == ScaledDown(v, c);
    }
  }

  lemma RescaledIs(o: Online, score: int, p: Online)
    ensures IsRescaled(o, score, p) <==> Rescaled(o, score) == Some(p)
  {
    if score > o.top {
      var x := o.top - score;
      var c := IntegerExp(x);
      LutExpIs(x, c);
      forall e | IsLutExp(x, e) ensures e == c { LutExpIs(x, e); }
      hide IntegerExp;
      hide IsLutExp;
      ScaledDownIs(p.total, o.total * c);
      AreScaledDownIs(o.acc, c, p.acc);
      hide AreScaledDown;
      hide IsScaledDown;
      hide ProductsOk;
      hide Shr;
    }
  }

  /** A value joins the sum with its weight. */
  ghost predicate IsJoined(a: int, w: int, v: int, b: int)
  {
    IsScaledDown(b - a, w * v) && InI64(b)
  }

  ghost predicate IsAdded(p: Online, w: int, v: Vec, r: Online)
  {
    && r.top == p.top && r.total - p.total == w && InI64(r.total)
    && |r.acc| == Min(|p.acc|, |v|)
    && forall i | 0 <= i < |r.acc| && i < |p.acc| && i < |v| :: IsJoined(p.acc[i], w, v[i], r.acc[i])
  }

  lemma AddedIs(p: Online, w: int, v: Vec, r: Online)
    ensures IsAdded(p, w, v, r) <==> Added(p, w, v) == Some(r)
  {
    hide Shr;
    hide IsScaledDown;
    var n := Min(|p.acc|, |v|);
    forall i | 0 <= i < n && i < |r.acc|
      ensures IsJoined(p.acc[i], w, v[i], r.acc[i]) <==>
        InI64(w * v[i]) && InI64(r.acc[i]) && r.acc[i] == p.acc[i] + Shr(w * v[i], 16)
    {
      ScaledDownIs(r.acc[i] - p.acc[i], w * v[i]);
    }
    hide IsJoined;
    if IsAdded(p, w, v, r) {
      forall i | 0 <= i < n
        ensures InI64(w * v[i]) && InI64(p.acc[i] + Shr(w * v[i], 16))
      {
        assert i < |r.acc|;
      }
      assert r.acc == WeightedAdd(p.acc, w, v);
    }
  }

  /** One position of the online softmax. */
  ghost predicate IsAbsorbed(o: Online, q: Vec, key: Vec, value: Vec, scale: int, r: Online)
  {
    exists s: int, p: Online, w: int ::
      IsScore(q, key, scale, s) && IsRescaled(o, s, p) && IsWeight(s, p, w) && IsAdded(p, w, value, r)
  }

  /** The weight of a score under the current maximum. */
  predicate IsWeight(s: int, p: Online, w: int) { IsLutExp(s - p.top, w) }

  lemma AbsorbIs(o: Online, q: Vec, key: Vec, value: Vec, scale: int, r: Online)
    ensures IsAbsorbed(o, q, key, value, scale, r) <==> Absorb(o, q, key, value, scale) == Some(r)
  {
    hide IntegerExp;
    hide IsWeight;
    hide IsScore;
    hide IsAdded;
    hide Added;
    hide ScoreOk;
    hide HeadScore;
    hide IsRescaled;
    hide Rescaled;
    if Absorb(o, q, key, value, scale) == Some(r) {
      var s := HeadScore(q, key, scale);
      var p := Rescaled(o, s).value;
      ScoreIs(q, key, scale, s);
      RescaledIs(o, s, p);
      BelowTop(o, s, p);
      WeightIs(s, p, IntegerExp(s - p.top));
      AddedIs(p, IntegerExp(s - p.top), value, r);
    }
    if IsAbsorbed(o, q, key, value, scale, r) {
      var s: int, p: Online, w: int :|
        IsScore(q, key, scale, s) && IsRescaled(o, s, p) && IsWeight(s, p, w) && IsAdded(p, w, value, r);
      ScoreIs(q, key, scale, s);
      RescaledIs(o, s, p);
      BelowTop(o, s, p);
      WeightIs(s, p, w);
      AddedIs(p, w, value, r);
    }
  }

  lemma WeightIs(s: int, p: Online, w: int)
    requires s <= p.top
    ensures IsWeight(s, p, w) <==> w == IntegerExp(s - p.top)
  {
    LutExpIs(s - p.top, w);
  }

  lemma BelowTop(o: Online, s: int, p: Online)
    requires Rescaled(o, s) == Some(p)
    ensures s <= p.top
  {
  }
}
