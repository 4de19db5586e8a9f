/** The operators of the plain executor as the loops the source writes. */
module SlowOps {
  import opened Arithmetic
  import opened ModernOps

  /** One projection, row by row. */
  method Project(x: Vec, w: Scaled) returns (r: Option<Vec>)
    requires |w.q| == |w.mu| == |w.k|
    ensures r == ProjectInt(x, w)
  {
    if 127 * AbsSum(x) >= TWO63 {
      return None;
    }
    ghost var all := ProjectValues(x, w);
    var out: Vec := [];
    for i := 0 to |w.q|
      invariant out == all[..i] && Bounded(out, LIM62)
    {
      var acc := Dot(w.q[i], x);
      var y := Shr(acc * w.mu[i], w.k[i]);
      assert all[i] == y;
      if !(-LIM62 <= y <= LIM62) {
        return None;
      }
      out := out + [y];
    }
    assert all[..|all|] == all;
    r := Some(out);
  }

  /** The sum of squares. */
  method SumOfSquares(x: Vec) returns (sum: int)
    ensures sum == SquareSum(x)
  {
    sum := 0;
    for i := 0 to |x|
      invariant sum == SquareSum(x[..i])
    {
      SquareSumNext(x, i);
      sum := sum + x[i] * x[i];
    }
    assert x[..|x|] == x;
  }

  /** Coordinate by coordinate with the inverse root. */
  method ScaleRow(x: Vec, root: int, gains: Vec) returns (r: Option<Vec>)
    ensures r == if NormProductsOk(x, root, gains) then Check62(NormValues(x, root, gains)) else None
  {
    hide Shr;
    ghost var all := NormValues(x, root, gains);
    var out: Vec := [];
    for i := 0 to Min(|x|, |gains|)
      invariant out == all[..i] && Bounded(out, LIM62)
      invariant forall j | 0 <= j < i :: Abs(x[j] * root * gains[j]) < TWO127
    {
      var p := x[i] * root * gains[i];
      if Abs(p) >= TWO127 {
        return None;
      }
      var y := Shr(p, 46);
      assert all[i] == y;
      if !(-LIM62 <= y <= LIM62) {
        return None;
      }
      out := out + [y];
    }
    assert all[..|all|] == all;
    r := Some(out);
  }

  /** One normalisation: mean square, inverse root, then the coordinates. */
  method RmsNorm(x: Vec, gains: Vec, eps: int) returns (r: Option<Vec>)
    requires x != [] && eps >= 1
    ensures r == RmsNormInt(x, gains, eps)
  {
    hide Isqrt;
    hide NormValues;
    hide NormProductsOk;
    var sum := SumOfSquares(x);
    var v := sum / |x| + eps;
    if v > TWO92 {
      return None;
    }
    r := ScaleRow(x, Isqrt(TWO92 / v), gains);
  }

  lemma {:induction false} SquareSumAppend(a: Vec, b: Vec)
    ensures SquareSum(a + b) == SquareSum(a) + SquareSum(b)
  {
    if a == [] {
      assert a + b == b;
    } else {
      assert (a + b)[1..] == a[1..] + b;
      SquareSumAppend(a[1..], b);
    }
  }

  lemma SquareSumNext(x: Vec, i: nat)
    requires i < |x|
    ensures SquareSum(x[..i + 1]) == SquareSum(x[..i]) + x[i] * x[i]
  {
    assert x[..i + 1] == x[..i] + [x[i]];
    SquareSumAppend(x[..i], [x[i]]);
  }

  /** The rotation of one head: a copy whose pairs are replaced one by one. */
  method RopeHead(u: Vec, cos: Vec, sin: Vec) returns (r: Option<Vec>)
    requires |u| % 2 == 0 && |u| / 2 <= |cos| && |u| / 2 <= |sin|
    ensures r == Check62(RopeValues(u, cos, sin))
  {
    hide Shr;
    var h := |u| / 2;
    ghost var all := RopeValues(u, cos, sin);
    var out := u;
    for i := 0 to h
      invariant |out| == |u|
      invariant forall j | 0 <= j < |u| :: out[j] == if j < i || h <= j < h + i then all[j] else u[j]
      invariant forall j | 0 <= j < |u| && (j < i || h <= j < h + i) :: -LIM62 <= all[j] <= LIM62
    {
      var a, b, c, s := u[i], u[i + h], cos[i], sin[i];
      var y0, y1 := Shr(a * c - b * s, 16), Shr(a * s + b * c, 16);
      assert all[i] == y0 && all[i + h] == y1;
      if !(-LIM62 <= y0 <= LIM62) || !(-LIM62 <= y1 <= LIM62) {
        return None;
      }
      out := out[i := y0][i + h := y1];
    }
    assert out == all;
    r := Some(out);
  }

  /** Head after head of a row. */
  method RopeRow(x: Vec, heads: nat, d: nat, cos: Vec, sin: Vec) returns (r: Option<Vec>)
    requires |x| == heads * d && d % 2 == 0 && d / 2 <= |cos| && d / 2 <= |sin|
    ensures r == RopeInt(x, heads, d, cos, sin)
  {
    hide RopeValues;
    var out: Vec := [];
    for h := 0 to heads
      invariant h * d <= |x|
      invariant out == RopeHeads(x, h, d, cos, sin) && Bounded(out, LIM62)
    {
      MulMono(h + 1, heads, d);
      Distribute(h, 1, d);
      var head := RopeHead(HeadSlice(x, h, d), cos, sin);
      if head.None? {
        RopeRefused(x, h, heads, d, cos, sin);
        return None;
      }
      out := out + head.value;
    }
    r := Some(out);
  }

  /** A head out of range puts the whole row out of range. */
  lemma {:induction false} RopeRefused(x: Vec, h: nat, heads: nat, d: nat, cos: Vec, sin: Vec)
    requires h < heads && |x| == heads * d && d / 2 <= |cos| && d / 2 <= |sin| && h * d + d <= |x|
    requires !Bounded(RopeValues(HeadSlice(x, h, d), cos, sin), LIM62)
    ensures !Bounded(RopeHeads(x, heads, d, cos, sin), LIM62)
  {
    RopeRefusedUpTo(x, h, heads, d, cos, sin);
  }

  lemma {:induction false} RopeRefusedUpTo(x: Vec, h: nat, n: nat, d: nat, cos: Vec, sin: Vec)
    requires h < n && n * d <= |x| && d / 2 <= |cos| && d / 2 <= |sin| && h * d + d <= |x|
    requires !Bounded(RopeValues(HeadSlice(x, h, d), cos, sin), LIM62)
    ensures !Bounded(RopeHeads(x, n, d, cos, sin), LIM62)
    decreases n
  {
    hide RopeValues;
    hide HeadSlice;
    Distribute(n - 1, 1, d);
    MulMono(0, n - 1, d);
    var done, last := RopeHeads(x, n - 1, d, cos, sin), RopeValues(HeadSlice(x, n - 1, d), cos, sin);
    assert RopeHeads(x, n, d, cos, sin) == done + last;
    if h < n - 1 {
      RopeRefusedUpTo(x, h, n - 1, d, cos, sin);
      UnboundedPart(done, last, true);
    } else {
      UnboundedPart(done, last, false);
    }
  }

  lemma UnboundedPart(a: Vec, b: Vec, first: bool)
    requires if first then !Bounded(a, LIM62) else !Bounded(b, LIM62)
    ensures !Bounded(a + b, LIM62)
  {
    if first {
      var i :| 0 <= i < |a| && !(-LIM62 <= a[i] <= LIM62);
      assert (a + b)[i] == a[i];
    } else {
      var i :| 0 <= i < |b| && !(-LIM62 <= b[i] <= LIM62);
      assert (a + b)[|a| + i] == b[i];
    }
  }

  method CheckI32(values: Vec) returns (ok: bool)
    ensures ok <==> FitsCache(values)
  {
    for i := 0 to |values|
      invariant forall j | 0 <= j < i :: InI32(values[j])
    {
      if !InI32(values[i]) {
        return false;
      }
    }
    ok := true;
  }
}
