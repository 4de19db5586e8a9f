/** BF16 rows to INT8 with a dyadic scale: the literal row algorithm, the
    vectorised one, and how close the result is to the row. */
module Quantizer {
  import opened Arithmetic
  import opened Int64Lanes
  import opened Selection

  const TWO30: int := 0x4000_0000
  const K_MIN: int := 16
  const K_MAX: int := 62

  /** sign, significand and exponent: the value is (-1)^s * m * 2^e. */
  datatype Parts = Parts(s: int, m: nat, e: int)

  predicate IsPattern(b: int) { 0 <= b < 0x1_0000 }

  function ExponentField(b: int): int { (b / 128) % 256 }

  function Magnitude(b: int): int { b % 0x8000 }

  function Bf16Parts(b: int): (r: Option<Parts>)
    ensures r.Some? ==> r.value.m < 256 && -133 <= r.value.e <= 120
  {
    if !IsPattern(b) || ExponentField(b) == 255 then None
    else if ExponentField(b) == 0 then Some(Parts(b / 0x8000, b % 128, -133))
    else Some(Parts(b / 0x8000, 128 + b % 128, ExponentField(b) - 134))
  }

  /** Magnitudes order as the low 15 bits, exponents included; a larger
      exponent only comes with a full significand. */
  lemma MagnitudeOrder(a: int, b: int)
    requires Bf16Parts(a).Some? && Bf16Parts(b).Some? && Magnitude(b) <= Magnitude(a)
    ensures Bf16Parts(b).value.e <= Bf16Parts(a).value.e
    ensures Bf16Parts(b).value.e < Bf16Parts(a).value.e ==> Bf16Parts(a).value.m >= 128
    ensures Bf16Parts(b).value.e == Bf16Parts(a).value.e ==> Bf16Parts(b).value.m <= Bf16Parts(a).value.m
    ensures Magnitude(a) > 0 ==> Bf16Parts(a).value.m > 0
    ensures Magnitude(a) == 0 ==> Bf16Parts(a).value.m == 0 && Bf16Parts(a).value.e == -133
  {
    MagnitudeFields(a);
    MagnitudeFields(b);
    hide Magnitude;
    hide ExponentField;
  }

  lemma MagnitudeFields(b: int)
    requires IsPattern(b)
    ensures 0 <= ExponentField(b) < 256 && Magnitude(b) == ExponentField(b) * 128 + b % 128
  {
  }

  datatype Quantized = Quantized(q: Vec, mu: int, k: int)

  // ---- one element -----------------------------------------------------------

  /** round-half-away(127 |v_j| / A) with the sign of v_j, as the rule writes it. */
  function QuantizeElement(p: Parts, ma: nat, ea: int): int
    requires ma > 0 && p.e <= ea
  {
    if p.m == 0 then 0
    else
      var d := ea - p.e;
      if d > 60 then 0
      else
        var a := ma * Pow2(d);
        var val := (254 * p.m + a) / (2 * a);
        if p.s == 1 then -val else val
  }

  /** The vectorised form: shifts clamped at 20, all lanes below 2^29. */
  function LaneElement(p: Parts, ma: nat, ea: int): int
    requires 0 < ma < 256 && p.m < 256 && p.e <= ea
  {
    var d := ea - p.e;
    var dc := Min(Max(d, 0), 20);
    LaneScale(ma, dc);
    var scaled := Fit(ma * Pow2(dc));
    var q := Fit(254 * p.m + scaled) / Fit(2 * scaled);
    var q' := if p.m == 0 || d > 60 then 0 else q;
    if p.s == 1 then -q' else q'
  }

  lemma LaneScale(ma: nat, dc: nat)
    requires 0 < ma < 256 && dc <= 20
    ensures 0 < ma * Pow2(dc) < 0x1000_0000
  {
    hide Pow2;
    Pow2Mono(dc, 20);
    Pow2Small();
    MulMono(1, ma, Pow2(dc));
    MulMono(ma, 255, Pow2(dc));
    MulMono(Pow2(dc), 0x10_0000, 255);
  }

  lemma SmallQuotient(x: nat, a: int)
    requires x < a
    ensures (x + a) / (2 * a) == 0
  {
    DivUnique(x + a, 2 * a, 0);
  }

  /** Clamping the shift changes nothing: from d = 10 on the quotient is 0. */
  lemma LaneElementExact(p: Parts, ma: nat, ea: int)
    requires 0 < ma < 256 && p.m < 256 && p.e <= ea
    requires p.e < ea ==> ma >= 128
    ensures LaneElement(p, ma, ea) == QuantizeElement(p, ma, ea)
  {
    hide Pow2;
    var d := ea - p.e;
    if 20 < d <= 60 {
      FarElement(p.m, ma, 20);
      FarElement(p.m, ma, d);
    }
  }

  lemma FarElement(m: nat, ma: nat, d: nat)
    requires m < 256 && ma >= 128 && d >= 20
    ensures ma * Pow2(d) > 0 && (254 * m + ma * Pow2(d)) / (2 * (ma * Pow2(d))) == 0
  {
    hide Pow2;
    Pow2Small();
    Pow2Mono(20, d);
    MulMono(128, ma, Pow2(d));
    SmallQuotient(254 * m, ma * Pow2(d));
  }

  // ---- the scale -------------------------------------------------------------

  /** The first t' >= t with ma * 2^t' >= 127 * 2^30. */
  function ScaleShift(ma: nat, t: nat): (r: nat)
    requires ma > 0 && t <= 37
    ensures t <= r <= 37 && ma * Pow2(r) >= 127 * TWO30
    ensures forall u | t <= u < r :: ma * Pow2(u) < 127 * TWO30
    decreases 37 - t
  {
    if ma * Pow2(t) >= 127 * TWO30 then t
    else
      Shift37(ma);
      ScaleShift(ma, t + 1)
  }

  lemma Shift37(ma: nat)
    requires ma > 0
    ensures ma * Pow2(37) >= 127 * TWO30
  {
    hide Pow2;
    Pow2Constants();
    MulMono(1, ma, Pow2(37));
  }

  datatype Scale = Scale(mu: int, t: int)

  /** mu = round(ma * 2^t / 127), renormalised when it reaches 2^31. */
  function ScaleOf(ma: nat): Scale
    requires ma > 0
  {
    var t := ScaleShift(ma, 0);
    var mu := (2 * (ma * Pow2(t)) + 127) / 254;
    if mu == TWO31 then Scale(TWO30, t - 1) else Scale(mu, t)
  }

  lemma LowShift(ma: nat, t: nat)
    requires ma < 256 && t <= 28
    ensures ma * Pow2(t) < 127 * TWO30
  {
    Pow2Mono(t, 28);
    Pow2Small();
    assert Pow2(29) == 2 * Pow2(28);
    MulMono(ma, 255, Pow2(t));
  }

  /** The scaled significand is a multiple of 2^29 below 127 * 2^31. */
  lemma ScaledSignificand(ma: nat, t: nat)
    requires 0 < ma < 256 && t == ScaleShift(ma, 0)
    ensures 29 <= t <= 37 && 127 * TWO30 <= ma * Pow2(t) <= 507 * 0x2000_0000
  {
    hide Pow2;
    if t <= 28 { LowShift(ma, t); }
    Pow2Small();
    Pow2Add(29, t - 29);
    var x := ma * Pow2(t - 29);
    assert ma * Pow2(t) == x * 0x2000_0000 by { Regroup(ma, Pow2(t - 29)); }
    assert ma * Pow2(t) < 254 * TWO30 by { Doubled(ma, t); }
  }

  lemma Regroup(a: int, b: int)
    ensures a * (0x2000_0000 * b) == (a * b) * 0x2000_0000
  {
  }

  lemma Doubled(ma: nat, t: nat)
    requires ma > 0 && t >= 1 && t == ScaleShift(ma, 0)
    ensures ma * Pow2(t) < 254 * TWO30
  {
    hide ScaleShift;
    hide Pow2;
    Pow2Double(t);
    assert ma * Pow2(t - 1) < 127 * TWO30;
    Twice(ma, Pow2(t - 1));
  }

  lemma Twice(a: int, b: int)
    ensures a * (2 * b) == 2 * (a * b)
  {
  }

  /** The scale is normalised, the renormalisation branch is never taken, and
      mu is ma * 2^t / 127 to within half a unit. */
  lemma ScaleNormalised(ma: nat)
    requires 0 < ma < 256
    ensures var s, t := ScaleOf(ma), ScaleShift(ma, 0);
      && s.t == t && 29 <= t <= 37 && TWO30 <= s.mu < TWO31
      && Abs(254 * s.mu - 2 * (ma * Pow2(t))) <= 127
  {
    hide Pow2;
    hide ScaleShift;
    ScaledSignificand(ma, ScaleShift(ma, 0));
  }

  // ---- one row ---------------------------------------------------------------

  predicate FiniteRow(bits: Vec)
  {
    forall j | 0 <= j < |bits| :: Bf16Parts(bits[j]).Some?
  }

  function Magnitudes(bits: Vec): Vec { seq(|bits|, j requires 0 <= j < |bits| => Magnitude(bits[j])) }

  predicate ZeroRow(bits: Vec)
  {
    forall j | 0 <= j < |bits| :: Magnitude(bits[j]) == 0
  }

  /** The parts of the first element of largest magnitude. */
  function Largest(bits: Vec): (a: Parts)
    requires FiniteRow(bits) && !ZeroRow(bits)
    ensures 0 < a.m < 256
    ensures forall j | 0 <= j < |bits| :: Bf16Parts(bits[j]).value.e <= a.e
    ensures forall j | 0 <= j < |bits| :: Bf16Parts(bits[j]).value.e < a.e ==> a.m >= 128
    ensures forall j | 0 <= j < |bits| :: Bf16Parts(bits[j]).value.e == a.e ==> Bf16Parts(bits[j]).value.m <= a.m
  {
    var i := Argmax(Magnitudes(bits));
    LargestDominates(bits, i);
    Bf16Parts(bits[i]).value
  }

  lemma LargestDominates(bits: Vec, i: nat)
    requires FiniteRow(bits) && !ZeroRow(bits) && IsArgmax(Magnitudes(bits), i)
    ensures 0 < Bf16Parts(bits[i]).value.m
    ensures forall j | 0 <= j < |bits| ::
      var a, b := Bf16Parts(bits[i]).value, Bf16Parts(bits[j]).value;
      b.e <= a.e && (b.e < a.e ==> a.m >= 128) && (b.e == a.e ==> b.m <= a.m)
  {
    hide Bf16Parts;
    var z :| 0 <= z < |bits| && Magnitude(bits[z]) != 0;
    assert Magnitudes(bits)[z] <= Magnitudes(bits)[i];
    MagnitudeOrder(bits[i], bits[z]);
    forall j | 0 <= j < |bits|
      ensures var a, b := Bf16Parts(bits[i]).value, Bf16Parts(bits[j]).value;
        b.e <= a.e && (b.e < a.e ==> a.m >= 128) && (b.e == a.e ==> b.m <= a.m)
    {
      assert Magnitudes(bits)[j] <= Magnitudes(bits)[i];
      MagnitudeOrder(bits[i], bits[j]);
    }
  }

  function RowElements(bits: Vec): (q: Vec)
    requires FiniteRow(bits) && !ZeroRow(bits)
    ensures |q| == |bits|
  {
    var a := Largest(bits);
    seq(|bits|, j requires 0 <= j < |bits| => QuantizeElement(Bf16Parts(bits[j]).value, a.m, a.e))
  }

  /** The rule for one row; None refuses it. */
  function QuantizeRow(bits: Vec): Option<Quantized>
  {
    if !FiniteRow(bits) then None
    else if ZeroRow(bits) then Some(Quantized(Zeros(|bits|), 0, 16))
    else
      var a := Largest(bits);
      var s := ScaleOf(a.m);
      var k := s.t - a.e;
      if k < K_MIN || k > K_MAX then None else Some(Quantized(RowElements(bits), s.mu, k))
  }

  /** The parts of every element, or a refusal. */
  method ParseRow(bits: Vec) returns (r: Option<seq<Parts>>)
    ensures r.None? <==> !FiniteRow(bits)
    ensures r.Some? ==> |r.value| == |bits| && forall i | 0 <= i < |bits| :: Bf16Parts(bits[i]) == Some(r.value[i])
  {
    hide Bf16Parts;
    var parts: seq<Parts> := [];
    for j := 0 to |bits|
      invariant |parts| == j && forall i | 0 <= i < j :: Bf16Parts(bits[i]) == Some(parts[i])
    {
      var p := Bf16Parts(bits[j]);
      if p.None? {
        return None;
      }
      parts := parts + [p.value];
    }
    r := Some(parts);
  }

  method QuantizeElements(bits: Vec, parts: seq<Parts>, a: Parts) returns (q: Vec)
    requires FiniteRow(bits) && !ZeroRow(bits) && a == Largest(bits) && |parts| == |bits|
    requires forall i | 0 <= i < |bits| :: Bf16Parts(bits[i]) == Some(parts[i])
    ensures q == RowElements(bits)
  {
    hide Bf16Parts;
    hide QuantizeElement;
    hide Largest;
    q := [];
    for j := 0 to |bits|
      invariant |q| == j && forall i | 0 <= i < j :: q[i] == QuantizeElement(parts[i], a.m, a.e)
    {
      q := q + [QuantizeElement(parts[j], a.m, a.e)];
    }
  }

  /** The literal algorithm. */
  method QuantizeRowExact(bits: Vec) returns (r: Option<Quantized>)
    ensures r == QuantizeRow(bits)
  {
    hide Bf16Parts;
    hide RowElements;
    hide ScaleOf;
    var parts := ParseRow(bits);
    if parts.None? {
      return None;
    }
    var mags := Magnitudes(bits);
    if mags == [] {
      return Some(Quantized(Zeros(0), 0, 16));
    }
    var top := ScanArgmax(mags);
    MagnitudesNonNegative(bits);
    if mags[top] == 0 {
      forall j | 0 <= j < |bits| ensures Magnitude(bits[j]) == 0 { assert 0 <= mags[j] <= mags[top]; }
      return Some(Quantized(Zeros(|bits|), 0, 16));
    }
    assert Magnitude(bits[top]) != 0;
    var a := parts.value[top];
    var q := QuantizeElements(bits, parts.value, a);
    var s := FindScale(a.m);
    var k := s.t - a.e;
    if k < K_MIN || k > K_MAX {
      return None;
    }
    r := Some(Quantized(q, s.mu, k));
  }

  lemma MagnitudesNonNegative(bits: Vec)
    ensures forall j | 0 <= j < |bits| :: 0 <= Magnitude(bits[j])
  {
  }

  /** The search for the shift. */
  method FindScale(ma: nat) returns (s: Scale)
    requires 0 < ma < 256
    ensures s == ScaleOf(ma)
  {
    hide Pow2;
    var t := 0;
    while ma * Pow2(t) < 127 * TWO30
      invariant 0 <= t <= 37 && ScaleShift(ma, 0) == ScaleShift(ma, t)
      decreases 37 - t
    {
      Shift37(ma);
      t := t + 1;
    }
    var mu := (2 * (ma * Pow2(t)) + 127) / 254;
    if mu == TWO31 {
      s := Scale(TWO30, t - 1);
    } else {
      s := Scale(mu, t);
    }
  }

  /** The scale of every possible significand, computed once. */
  method ScaleTable() returns (table: seq<Scale>)
    ensures |table| == 256 && forall ma | 1 <= ma < 256 :: table[ma] == ScaleOf(ma)
  {
    hide ScaleOf;
    table := [Scale(0, 0)];
    for ma := 1 to 256
      invariant |table| == ma && forall i | 1 <= i < ma :: table[i] == ScaleOf(i)
    {
      var s := FindScale(ma);
      table := table + [s];
    }
  }

  /** Each row on its own, refused when any row is. */
  predicate RowsQuantized(rows: Mat, r: Option<seq<Quantized>>)
  {
    match r
    case None => exists i | 0 <= i < |rows| :: QuantizeRow(rows[i]).None?
    case Some(out) => |out| == |rows| && forall i | 0 <= i < |rows| :: QuantizeRow(rows[i]) == Some(out[i])
  }

  function LaneRow(bits: Vec, ma: nat, ea: int): Vec
    requires FiniteRow(bits) && 0 < ma < 256 && forall j | 0 <= j < |bits| :: Bf16Parts(bits[j]).value.e <= ea
  {
    seq(|bits|, j requires 0 <= j < |bits| => LaneElement(Bf16Parts(bits[j]).value, ma, ea))
  }

  lemma LaneRowExact(bits: Vec)
    requires FiniteRow(bits) && !ZeroRow(bits)
    ensures var a := Largest(bits); LaneRow(bits, a.m, a.e) == RowElements(bits)
  {
    hide LaneElement;
    hide QuantizeElement;
    hide Largest;
    var a := Largest(bits);
    forall j | 0 <= j < |bits|
      ensures LaneElement(Bf16Parts(bits[j]).value, a.m, a.e) == QuantizeElement(Bf16Parts(bits[j]).value, a.m, a.e)
    {
      LaneElementExact(Bf16Parts(bits[j]).value, a.m, a.e);
    }
  }

  /** The vectorised algorithm on a matrix of patterns: the same q, mu and k as
      the rule, and the same refusals, for every row. */
  method QuantizeRows(rows: Mat) returns (r: Option<seq<Quantized>>)
    requires forall i, j | 0 <= i < |rows| && 0 <= j < |rows[i]| :: IsPattern(rows[i][j])
    ensures RowsQuantized(rows, r)
  {
    hide LaneRow;
    hide RowElements;
    hide ScaleOf;
    hide Bf16Parts;
    var table := ScaleTable();
    if exists i, j | 0 <= i < |rows| && 0 <= j < |rows[i]| :: ExponentField(rows[i][j]) == 255 {
      ghost var i, j :| 0 <= i < |rows| && 0 <= j < |rows[i]| && ExponentField(rows[i][j]) == 255;
      NotFinite(rows[i], j);
      return None;
    }
    forall i | 0 <= i < |rows| ensures FiniteRow(rows[i]) { Finite(rows[i]); }
    var out: seq<Quantized> := [];
    for i := 0 to |rows|
      invariant |out| == i && forall n | 0 <= n < i :: QuantizeRow(rows[n]) == Some(out[n])
    {
      var bits := rows[i];
      if ZeroRow(bits) {
        out := out + [Quantized(Zeros(|bits|), 0, 16)];
      } else {
        var a := Largest(bits);
        LaneRowExact(bits);
        var s := table[a.m];
        var k := s.t - a.e;
        if k < K_MIN || k > K_MAX {
          assert QuantizeRow(rows[i]).None?;
          return None;
        }
        out := out + [Quantized(LaneRow(bits, a.m, a.e), s.mu, k)];
      }
    }
    r := Some(out);
  }

  lemma NotFinite(bits: Vec, j: nat)
    requires j < |bits| && ExponentField(bits[j]) == 255
    ensures QuantizeRow(bits).None?
  {
    assert Bf16Parts(bits[j]).None?;
  }

  lemma Finite(bits: Vec)
    requires forall j | 0 <= j < |bits| :: IsPattern(bits[j]) && ExponentField(bits[j]) != 255
    ensures FiniteRow(bits)
  {
  }
}
