/** The remaining operators of the legacy profile. None is a refusal. */
module LegacyOps {
  import opened Arithmetic
  import Exponential
  import opened LegacyExp
  import ModernOps
  import SlowOps

  /** INT8 rows with one Q16 scale each. */
  datatype Matrix = Matrix(rows: Mat, scales: Vec)

  /** The list slice x[a:b], which stops at the end of the list. */
  function Slice<T>(x: seq<T>, a: nat, b: nat): (r: seq<T>)
    ensures a <= b <= |x| ==> r == x[a..b]
    ensures |r| <= |x|
  {
    if a >= |x| || b <= a then [] else if b <= |x| then x[a..b] else x[a..]
  }

  // ---- normalisation and projection ------------------------------------------

  function Gain(gamma: Vec, i: nat): int { if i < |gamma| then gamma[i] else ONE }

  predicate NormOk(x: Vec, r: int, gamma: Vec)
  {
    forall i | 0 <= i < |x| :: InI64(x[i] * r) && InI64(Shr(x[i] * r, 16) * Gain(gamma, i))
  }

  function RmsNorm(x: Vec, gamma: Vec): (r: Option<Vec>)
    ensures r.Some? ==> |r.value| == |x|
  {
    if x == [] then Some([])
    else
      var sum := ModernOps.SquareSum(x);
      var mean := Shr(sum / |x|, 16);
      if sum >= ModernOps.TWO127 || !InI64(mean) || !InI64(mean + 1) then None
      else
        var inv :- InverseSqrt(mean + 1);
        if !NormOk(x, inv, gamma) then None else Some(NormedRow(x, inv, gamma))
  }

  function NormedRow(x: Vec, inv: int, gamma: Vec): (r: Vec)
    ensures |r| == |x|
  {
    seq(|x|, i requires 0 <= i < |x| => Shr(Shr(x[i] * inv, 16) * Gain(gamma, i), 16))
  }

  predicate RowOk(row: Vec, scale: int, x: Vec) { AbsDot(row, x) < TWO63 && InI64(Dot(row, x) * scale) }

  function RowValue(row: Vec, scale: int, x: Vec): int { Shr(Dot(row, x) * scale, 16) }

  predicate RowsOk(w: Matrix, x: Vec)
  {
    forall i | 0 <= i < |w.rows| && i < |w.scales| :: RowOk(w.rows[i], w.scales[i], x)
  }

  function MatmulRows(w: Matrix, x: Vec): (r: Option<Vec>)
    ensures r.Some? <==> RowsOk(w, x)
    ensures r.Some? ==> |r.value| == Min(|w.rows|, |w.scales|)
  {
    if !RowsOk(w, x) then None
    else
      Some(seq(Min(|w.rows|, |w.scales|),
               i requires 0 <= i < |w.rows| && i < |w.scales| => RowValue(w.rows[i], w.scales[i], x)))
  }

  /** The loop over rows. */
  method Apply(w: Matrix, x: Vec) returns (r: Option<Vec>)
    ensures r == MatmulRows(w, x)
  {
    hide Dot;
    hide AbsDot;
    hide Shr;
    var out: Vec := [];
    for i := 0 to Min(|w.rows|, |w.scales|)
      invariant |out| == i
      invariant forall j | 0 <= j < i ::
        RowOk(w.rows[j], w.scales[j], x) && out[j] == RowValue(w.rows[j], w.scales[j], x)
    {
      var acc := Dot(w.rows[i], x);
      if AbsDot(w.rows[i], x) > TWO63 - 1 || !InI64(acc * w.scales[i]) {
        assert !RowOk(w.rows[i], w.scales[i], x);
        return None;
      }
      out := out + [Shr(acc * w.scales[i], 16)];
    }
    assert RowsOk(w, x) && out == MatmulRows(w, x).value;
    r := Some(out);
  }

  /** Square sum, mean, inverse root by Newton, then coordinate by coordinate. */
  method NormRow(x: Vec, gamma: Vec) returns (r: Option<Vec>)
    ensures r == RmsNorm(x, gamma)
  {
    hide InverseSqrt;
    hide Shr;
    hide ModernOps.SquareSum;
    var n := |x|;
    if n == 0 {
      return Some([]);
    }
    var sum := SlowOps.SumOfSquares(x);
    if sum >= ModernOps.TWO127 {
      return None;
    }
    var mean := Shr(sum / n, 16);
    if !InI64(mean) || !InI64(mean + 1) {
      return None;
    }
    var inv := IntegerIsqrt(mean + 1);
    if inv.None? {
      return None;
    }
    r := ScaleRow(x, inv.value, gamma);
  }

  method ScaleRow(x: Vec, inv: int, gamma: Vec) returns (r: Option<Vec>)
    ensures r == if NormOk(x, inv, gamma) then Some(NormedRow(x, inv, gamma)) else None
  {
    hide Shr;
    hide Gain;
    var out: Vec := [];
    for i := 0 to |x|
      invariant |out| == i && forall j | 0 <= j < i :: out[j] == NormedRow(x, inv, gamma)[j]
      invariant forall j | 0 <= j < i :: InI64(x[j] * inv) && InI64(Shr(x[j] * inv, 16) * Gain(gamma, j))
    {
      if !InI64(x[i] * inv) {
        return None;
      }
      var norm := Shr(x[i] * inv, 16);
      var g := Gain(gamma, i);
      if !InI64(norm * g) {
        return None;
      }
      out := out + [Shr(norm * g, 16)];
    }
    assert out == NormedRow(x, inv, gamma);
    r := Some(out);
  }

  // ---- feed-forward --------------------------------------------------------

  function Sigmoid(x: int): int
  {
    var e := IntegerExp(if x >= 0 then -x else x);
    if x >= 0 then TDiv(ONE * ONE, Max(ONE + e, 1)) else TDiv(e * ONE, Max(ONE + e, 1))
  }

  /** It is the sigmoid of the recurrence table, so it is non-decreasing, lies in
      [0, 2^16] and pairs up with its mirror image. */
  lemma SigmoidIs(x: int)
    ensures Exponential.ValidTable(Lut()) && Sigmoid(x) == Exponential.Sigma(Lut(), x)
  {
    hide Lut;
    LutValid();
    IntegerExpIs(if x >= 0 then -x else x);
    IntegerExpRange(if x >= 0 then -x else x);
    hide IntegerExp;
    hide Exponential.ExpQ16;
    hide Exponential.ValidTable;
    MulMono(0, IntegerExp(if x >= 0 then -x else x), ONE);
  }

  predicate GateOk(g: int, u: int)
  {
    InI64(g * Sigmoid(g)) && InI64(Shr(g * Sigmoid(g), 16) * u)
  }

  function SiluGate(g: Vec, u: Vec): (r: Option<Vec>)
    ensures r.Some? ==> |r.value| == Min(|g|, |u|)
  {
    if forall i | 0 <= i < |g| && i < |u| :: GateOk(g[i], u[i]) then
      Some(seq(Min(|g|, |u|), i requires 0 <= i < |g| && i < |u| => Shr(Shr(g[i] * Sigmoid(g[i]), 16) * u[i], 16)))
    else None
  }

  function Residual(a: Vec, b: Vec): (r: Option<Vec>)
    ensures r.Some? ==> |r.value| == Min(|a|, |b|)
  {
    if forall i | 0 <= i < |a| && i < |b| :: InI64(a[i] + b[i]) then
      Some(seq(Min(|a|, |b|), i requires 0 <= i < |a| && i < |b| => a[i] + b[i]))
    else None
  }

  // ---- rotary embedding in two layouts ------------------------------------------

  predicate TurnOk(x0: int, x1: int, c: int, s: int)
  {
    InI64(x0 * c) && InI64(x1 * s) && InI64(x0 * s) && InI64(x1 * c)
  }

  function TurnFirst(x0: int, x1: int, c: int, s: int): int { Shr(x0 * c, 16) - Shr(x1 * s, 16) }

  function TurnSecond(x0: int, x1: int, c: int, s: int): int { Shr(x0 * s, 16) + Shr(x1 * c, 16) }

  datatype Angles = Angles(cos: Vec, sin: Vec)

  /** The angles of one position, None when the tables end before it. */
  function AnglesAt(t: Angles, pos: nat, half: nat): (r: Option<Angles>)
    ensures r.Some? ==> |r.value.cos| == |r.value.sin| == half
  {
    if half == 0 then Some(Angles([], []))
    else if pos * half + half > |t.cos| || pos * half + half > |t.sin| then None
    else Some(Angles(t.cos[pos * half..pos * half + half], t.sin[pos * half..pos * half + half]))
  }

  /** The two coordinates pair `i` of a vector of length `n` turns together. */
  function First(interleaved: bool, n: nat, i: nat): (j: nat)
    requires i < n / 2
    ensures j < n
  {
    if interleaved then 2 * i else i
  }

  function Second(interleaved: bool, n: nat, i: nat): (j: nat)
    requires i < n / 2
    ensures j < n
  {
    if interleaved then 2 * i + 1 else i + n / 2
  }

  predicate RopeOk(interleaved: bool, v: Vec, a: Angles)
    requires |a.cos| == |a.sin| == |v| / 2
  {
    forall i | 0 <= i < |v| / 2 ::
      TurnOk(v[First(interleaved, |v|, i)], v[Second(interleaved, |v|, i)], a.cos[i], a.sin[i])
  }

  /** Coordinate `j` after the rotation: the source's two layouts side by side. */
  function RopeAt(interleaved: bool, v: Vec, a: Angles, j: nat): int
    requires |a.cos| == |a.sin| == |v| / 2 && j < |v|
  {
    var h := |v| / 2;
    if j >= 2 * h then v[j]
    else if interleaved then
      if j % 2 == 0 then TurnFirst(v[j], v[j + 1], a.cos[j / 2], a.sin[j / 2])
      else TurnSecond(v[j - 1], v[j], a.cos[j / 2], a.sin[j / 2])
    else if j < h then TurnFirst(v[j], v[j + h], a.cos[j], a.sin[j])
    else TurnSecond(v[j - h], v[j], a.cos[j - h], a.sin[j - h])
  }

  function Rotated(interleaved: bool, v: Vec, a: Angles): (r: Vec)
    requires |a.cos| == |a.sin| == |v| / 2
    ensures |r| == |v|
  {
    seq(|v|, j requires 0 <= j < |v| => RopeAt(interleaved, v, a, j))
  }

  function Rope(interleaved: bool, v: Vec, pos: nat, t: Angles): (r: Option<Vec>)
    ensures r.Some? ==> |r.value| == |v|
  {
    var a :- AnglesAt(t, pos, |v| / 2);
    if RopeOk(interleaved, v, a) then Some(Rotated(interleaved, v, a)) else None
  }

  // ---- the loops -------------------------------------------------------------

  /** Whether coordinate `j` belongs to one of the first `i` pairs. */
  predicate Reached(interleaved: bool, n: nat, i: nat, j: nat)
  {
    if interleaved then j < 2 * i else j < i || n / 2 <= j < n / 2 + i
  }

  /** The vector after the first `i` pairs. */
  function Turned(interleaved: bool, v: Vec, a: Angles, i: nat): (r: Vec)
    requires |a.cos| == |a.sin| == |v| / 2
    ensures |r| == |v|
  {
    seq(|v|, j requires 0 <= j < |v| => if Reached(interleaved, |v|, i, j) then RopeAt(interleaved, v, a, j) else v[j])
  }

  predicate RopeOkUpTo(interleaved: bool, v: Vec, a: Angles, n: nat)
    requires |a.cos| == |a.sin| == |v| / 2 && n <= |v| / 2
  {
    forall i | 0 <= i < n ::
      TurnOk(v[First(interleaved, |v|, i)], v[Second(interleaved, |v|, i)], a.cos[i], a.sin[i])
  }

  lemma NothingTurned(interleaved: bool, v: Vec, a: Angles)
    requires |a.cos| == |a.sin| == |v| / 2
    ensures Turned(interleaved, v, a, 0) == v
  {
  }

  lemma NextTurned(interleaved: bool, v: Vec, a: Angles, i: nat)
    requires |a.cos| == |a.sin| == |v| / 2 && i < |v| / 2 && RopeOkUpTo(interleaved, v, a, i)
    ensures var f, s := First(interleaved, |v|, i), Second(interleaved, |v|, i);
      var u := Turned(interleaved, v, a, i);
      && f != s
      && (if TurnOk(u[f], u[s], a.cos[i], a.sin[i]) then RopeOkUpTo(interleaved, v, a, i + 1)
          else !RopeOk(interleaved, v, a))
      && Turned(interleaved, v, a, i + 1)
      == u[f := TurnFirst(u[f], u[s], a.cos[i], a.sin[i])][s := TurnSecond(u[f], u[s], a.cos[i], a.sin[i])]
  {
    hide TurnOk;
    hide TurnFirst;
    hide TurnSecond;
  }

  lemma AllTurned(interleaved: bool, v: Vec, a: Angles)
    requires |a.cos| == |a.sin| == |v| / 2 && RopeOkUpTo(interleaved, v, a, |v| / 2)
    ensures RopeOk(interleaved, v, a)
    ensures Turned(interleaved, v, a, |v| / 2) == Rotated(interleaved, v, a)
  {
    hide TurnOk;
  }

  /** The in-place loop of the split-half layout. */
  method RopeSplitHalf(v: array<int>, pos: nat, t: Angles) returns (ok: bool)
    modifies v
    ensures ok <==> Rope(false, old(v[..]), pos, t).Some?
    ensures ok ==> v[..] == Rope(false, old(v[..]), pos, t).value
  {
    ghost var was := v[..];
    var half := v.Length / 2;
    var angles := AnglesAt(t, pos, half);
    if angles.None? {
      return false;
    }
    var a := angles.value;
    hide AnglesAt;
    NothingTurned(false, was, a);
    hide Turned;
    hide TurnOk;
    hide RopeOk;
    hide Rotated;
    for i := 0 to half
      invariant v[..] == Turned(false, was, a, i)
      invariant RopeOkUpTo(false, was, a, i)
    {
      var c, s := a.cos[i], a.sin[i];
      NextTurned(false, was, a, i);
      hide RopeOkUpTo;
      var x0, x1 := v[i], v[i + half];
      if !TurnOk(x0, x1, c, s) {
        return false;
      }
      v[i] := TurnFirst(x0, x1, c, s);
      v[i + half] := TurnSecond(x0, x1, c, s);
    }
    AllTurned(false, was, a);
    ok := true;
  }

  /** The in-place loop of the interleaved layout. */
  method RopeInterleaved(v: array<int>, pos: nat, t: Angles) returns (ok: bool)
    modifies v
    ensures ok <==> Rope(true, old(v[..]), pos, t).Some?
    ensures ok ==> v[..] == Rope(true, old(v[..]), pos, t).value
  {
    ghost var was := v[..];
    var half := v.Length / 2;
    var angles := AnglesAt(t, pos, half);
    if angles.None? {
      return false;
    }
    var a := angles.value;
    hide AnglesAt;
    NothingTurned(true, was, a);
    hide Turned;
    hide TurnOk;
    hide RopeOk;
    hide Rotated;
    for i := 0 to half
      invariant v[..] == Turned(true, was, a, i)
      invariant RopeOkUpTo(true, was, a, i)
    {
      var c, s := a.cos[i], a.sin[i];
      NextTurned(true, was, a, i);
      hide RopeOkUpTo;
      var x0, x1 := v[2 * i], v[2 * i + 1];
      if !TurnOk(x0, x1, c, s) {
        return false;
      }
      v[2 * i] := TurnFirst(x0, x1, c, s);
      v[2 * i + 1] := TurnSecond(x0, x1, c, s);
    }
    AllTurned(true, was, a);
    ok := true;
  }
}
