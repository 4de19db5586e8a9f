/** The batched rotation, gated activation and residual sum: int64 lanes when
    a bound on the operands allows it, the plain operators otherwise. */
module FastPointwise {
  import opened Arithmetic
  import opened Exponential
  import opened Int64Lanes
  import opened ExactMatmul
  import opened ModernOps
  import opened FastOps

  // ---- rotation ------------------------------------------------------------

  function RopeAll(xs: Mat, heads: nat, d: nat, cos: Mat, sin: Mat): seq<Option<Vec>>
    requires |cos| == |sin| == |xs|
    requires forall i | 0 <= i < |xs| :: heads * d <= |xs[i]| && d / 2 <= |cos[i]| && d / 2 <= |sin[i]|
  {
    seq(|xs|, i requires 0 <= i < |xs| => RopeInt(xs[i], heads, d, cos[i], sin[i]))
  }

  lemma LaneSmall(a: int, b: int, x: int, y: int)
    requires 0 <= a && 0 <= b && a * b < LIM62 && -a <= x <= a && -b <= y <= b
    ensures -LIM62 < x * y < LIM62
  {
    MulBound(x, y, a, b);
  }

  function LaneDiff(x: int, c: int, y: int, s: int, ghost a: nat, ghost b: nat): (r: int)
    requires a * b < LIM62 && Abs(x) <= a && Abs(y) <= a && Abs(c) <= b && Abs(s) <= b
    ensures r == Shr(x * c - y * s, 16)
  {
    LaneSmall(a, b, x, c);
    LaneSmall(a, b, y, s);
    Shr(Fit(Fit(x * c) - Fit(y * s)), 16)
  }

  function LanePlus(x: int, s: int, y: int, c: int, ghost a: nat, ghost b: nat): (r: int)
    requires a * b < LIM62 && Abs(x) <= a && Abs(y) <= a && Abs(c) <= b && Abs(s) <= b
    ensures r == Shr(x * s + y * c, 16)
  {
    LaneSmall(a, b, x, s);
    LaneSmall(a, b, y, c);
    Shr(Fit(Fit(x * s) + Fit(y * c)), 16)
  }

  function LaneRopeAt(u: Vec, cos: Vec, sin: Vec, i: nat, ghost a: nat, ghost b: nat): (r: int)
    requires |u| / 2 <= |cos| && |u| / 2 <= |sin| && i < |u|
    requires a * b < LIM62 && Bounded(u, a) && Bounded(cos, b) && Bounded(sin, b)
    ensures r == RopeAt(u, cos, sin, i)
  {
    hide Shr;
    var h := |u| / 2;
    if i < h then LaneDiff(u[i], cos[i], u[i + h], sin[i], a, b)
    else if i < 2 * h then LanePlus(u[i - h], sin[i - h], u[i], cos[i - h], a, b)
    else u[i]
  }

  /** The rotation of one head with every product and sum in an int64 lane. */
  function LaneRope(u: Vec, cos: Vec, sin: Vec, ghost a: nat, ghost b: nat): (r: Vec)
    requires |u| / 2 <= |cos| && |u| / 2 <= |sin|
    requires a * b < LIM62 && Bounded(u, a) && Bounded(cos, b) && Bounded(sin, b)
    ensures r == RopeValues(u, cos, sin)
  {
    hide RopeAt;
    seq(|u|, i requires 0 <= i < |u| => LaneRopeAt(u, cos, sin, i, a, b))
  }

  function LaneRopeHeads(x: Vec, heads: nat, d: nat, cos: Vec, sin: Vec, ghost a: nat, ghost b: nat): (r: Vec)
    requires heads * d <= |x| && d / 2 <= |cos| && d / 2 <= |sin|
    requires a * b < LIM62 && Bounded(x, a) && Bounded(cos, b) && Bounded(sin, b)
    ensures r == RopeHeads(x, heads, d, cos, sin)
  {
    if heads == 0 then []
    else LaneRopeHeads(x, heads - 1, d, cos, sin, a, b) + LaneRope(HeadSlice(x, heads - 1, d), cos, sin, a, b)
  }

  /** Rotates every head of every row; row i uses the table rows of its own
      position. */
  method Rope(xs: Mat, heads: nat, d: nat, cos: Mat, sin: Mat) returns (r: Option<Mat>, slow: bool)
    requires |cos| == |sin| == |xs|
    requires forall i | 0 <= i < |xs| :: heads * d <= |xs[i]| && d / 2 <= |cos[i]| && d / 2 <= |sin[i]|
    ensures r == Collect(RopeAll(xs, heads, d, cos, sin))
  {
    hide LaneRopeHeads;
    hide RopeHeads;
    var tMax := Max(MaxAbsMat(cos), MaxAbsMat(sin));
    slow := !(MaxAbsMat(xs) * tMax < LIM62);
    if slow {
      r := Collect(RopeAll(xs, heads, d, cos, sin));
    } else {
      var xMax := MaxAbsMat(xs);
      var ys := seq(|xs|, i requires 0 <= i < |xs| =>
        LaneRopeHeads(xs[i], heads, d, cos[i], sin[i], xMax, tMax));
      r := Check62All(ys);
      assert forall i | 0 <= i < |xs| :: RopeAll(xs, heads, d, cos, sin)[i] == Check62(ys[i]);
      if r.None? {
        ghost var i :| 0 <= i < |ys| && !Bounded(ys[i], LIM62);
        assert RopeAll(xs, heads, d, cos, sin)[i].None?;
      }
      CollectIs(RopeAll(xs, heads, d, cos, sin), r);
    }
  }

  // ---- gated activation ----------------------------------------------------

  function SiluAll(t: Vec, gs: Mat, us: Mat): seq<Option<Vec>>
    requires ValidTable(t) && |gs| == |us|
  {
    seq(|gs|, i requires 0 <= i < |gs| => SiluInt(t, gs[i], us[i]))
  }

  const TWO46: int := 0x4000_0000_0000

  lemma GateFits(t: Vec, g: int)
    requires ValidTable(t) && -TWO46 < g < TWO46
    ensures -LIM62 <= g * Sigma(t, g) <= LIM62
  {
    SigmaRange(t, g);
    MulBound(g, Sigma(t, g), TWO46, ONE);
  }

  function LaneSiluRow(t: Vec, g: Vec, u: Vec): seq<Option<int>>
    requires ValidTable(t) && |g| == |u| && Bounded(u, LIM62)
    requires forall i | 0 <= i < |g| :: -TWO46 < g[i] < TWO46
  {
    seq(|g|, i requires 0 <= i < |g| =>
      GateFits(t, g[i]);
      MulShr(Fit(g[i] * Sigma(t, g[i])), u[i], 32))
  }

  function SiluRow(t: Vec, g: Vec, u: Vec): Vec
    requires ValidTable(t) && |g| == |u|
  {
    seq(|g|, i requires 0 <= i < |g| => SiluValue(t, g[i], u[i]))
  }

  lemma SiluIsRow(t: Vec, g: Vec, u: Vec)
    requires ValidTable(t) && |g| == |u|
    ensures SiluInt(t, g, u) == Check62(SiluRow(t, g, u))
  {
    hide SiluValue;
    assert SiluRow(t, g, u)
        == seq(Min(|g|, |u|), i requires 0 <= i < |g| && i < |u| => SiluValue(t, g[i], u[i]));
  }

  lemma LaneSiluRowExact(t: Vec, g: Vec, u: Vec)
    requires ValidTable(t) && |g| == |u| && Bounded(u, LIM62)
    requires forall i | 0 <= i < |g| :: -TWO46 < g[i] < TWO46
    ensures AllSome(LaneSiluRow(t, g, u)) ==> Values(LaneSiluRow(t, g, u)) == SiluRow(t, g, u)
  {
    hide MulShr;
    hide Shr;
    hide Sigma;
    forall i | 0 <= i < |g|
      ensures LaneSiluRow(t, g, u)[i].Some? ==> LaneSiluRow(t, g, u)[i].value == SiluValue(t, g[i], u[i])
    {
      GateFits(t, g[i]);
      MulShrExact(g[i] * Sigma(t, g[i]), u[i], 32);
    }
  }

  method Silu(t: Vec, gs: Mat, us: Mat) returns (r: Option<Mat>, slow: bool)
    requires ValidTable(t) && |gs| == |us| && MatBounded(us, LIM62)
    requires forall i | 0 <= i < |gs| :: |gs[i]| == |us[i]|
    ensures r == Collect(SiluAll(t, gs, us))
  {
    hide LaneSiluRow;
    hide SiluValue;
    hide ValidTable;
    var ys: Mat := seq(|gs|, i requires 0 <= i < |gs| => SiluRow(t, gs[i], us[i]));
    slow := MaxAbsMat(gs) >= TWO46;
    if !slow {
      var fast := seq(|gs|, i requires 0 <= i < |gs| => LaneSiluRow(t, gs[i], us[i]));
      slow := exists i | 0 <= i < |fast| :: !AllSome(fast[i]);
      if !slow {
        forall i | 0 <= i < |gs|
          ensures Values(fast[i]) == ys[i]
        {
          LaneSiluRowExact(t, gs[i], us[i]);
        }
        ys := seq(|fast|, i requires 0 <= i < |fast| => Values(fast[i]));
      }
    }
    r := Check62All(ys);
    forall i | 0 <= i < |gs|
      ensures SiluAll(t, gs, us)[i] == Check62(ys[i])
    {
      assert ys[i] == SiluRow(t, gs[i], us[i]);
      SiluIsRow(t, gs[i], us[i]);
    }
    if r.None? {
      ghost var i :| 0 <= i < |ys| && !Bounded(ys[i], LIM62);
      assert SiluAll(t, gs, us)[i].None?;
    }
    CollectIs(SiluAll(t, gs, us), r);
  }

  // ---- residual ------------------------------------------------------------

  function ResidualAll(hs: Mat, ys: Mat): seq<Option<Vec>>
    requires |hs| == |ys|
  {
    seq(|hs|, i requires 0 <= i < |hs| => ResidualInt(hs[i], ys[i]))
  }

  function LaneAdd(h: Vec, y: Vec, ghost a: nat, ghost b: nat): Vec
    requires |h| == |y| && a + b < TWO63 && Bounded(h, a) && Bounded(y, b)
  {
    seq(|h|, i requires 0 <= i < |h| => Fit(h[i] + y[i]))
  }

  method Residual(hs: Mat, ys: Mat) returns (r: Option<Mat>, slow: bool)
    requires |hs| == |ys| && forall i | 0 <= i < |hs| :: |hs[i]| == |ys[i]|
    ensures r == Collect(ResidualAll(hs, ys))
  {
    var hMax, yMax := MaxAbsMat(hs), MaxAbsMat(ys);
    slow := hMax + yMax >= TWO63;
    if slow {
      r := Collect(ResidualAll(hs, ys));
    } else {
      var sums := seq(|hs|, i requires 0 <= i < |hs| => LaneAdd(hs[i], ys[i], hMax, yMax));
      r := Check62All(sums);
      forall i | 0 <= i < |hs|
        ensures ResidualAll(hs, ys)[i] == Check62(sums[i])
      {
        assert sums[i] == seq(Min(|hs[i]|, |ys[i]|), t requires 0 <= t < |hs[i]| && t < |ys[i]| => hs[i][t] + ys[i][t]);
      }
      if r.None? {
        ghost var i :| 0 <= i < |sums| && !Bounded(sums[i], LIM62);
        assert ResidualAll(hs, ys)[i].None?;
      }
      CollectIs(ResidualAll(hs, ys), r);
    }
  }
}
