/** How far a quantised row is from the row it came from. */
module QuantizerAccuracy {
  import opened Arithmetic
  import opened Selection
  import opened Quantizer

  /** 2^e for any exponent. */
  function Pow2Real(e: int): (r: real)
    ensures r > 0.0
  {
    if e >= 0 then Pow2(e) as real else 1.0 / (Pow2(-e) as real)
  }

  function AbsReal(x: real): real { if x < 0.0 then -x else x }

  /** The magnitude and the exact value of a BF16 number. */
  function Size(p: Parts): real { p.m as real * Pow2Real(p.e) }

  function Value(p: Parts): real { if p.s == 1 then -Size(p) else Size(p) }

  lemma Pow2RealStep(e: int)
    ensures Pow2Real(e + 1) == 2.0 * Pow2Real(e)
  {
    if e >= 0 {
      Pow2Double(e + 1);
    } else if e < -1 {
      Pow2Double(-e);
    }
  }

  lemma {:induction false} Pow2RealAdd(e: int, n: nat)
    ensures Pow2Real(e + n) == Pow2Real(e) * Pow2(n) as real
    decreases n
  {
    hide Pow2Real;
    if n > 0 {
      Pow2RealAdd(e, n - 1);
      Pow2RealStep(e + n - 1);
      Pow2Double(n);
      RealDouble(Pow2Real(e), Pow2(n - 1));
    }
  }

  lemma RealDouble(x: real, p: nat)
    ensures 2.0 * (x * p as real) == x * (2 * p) as real
  {
  }

  // ---- integers ----------------------------------------------------------------

  lemma RoundedQuotient(x: nat, a: int)
    requires a > 0
    ensures var v := (254 * x + a) / (2 * a); -a <= 254 * x - 2 * (a * v) <= a
  {
    var v := (254 * x + a) / (2 * a);
    DivBounds(254 * x + a, 2 * a);
    assert v * (2 * a) == 2 * (a * v);
  }

  lemma QuotientAtMost127(x: nat, a: int)
    requires a > 0 && x <= a
    ensures 0 <= (254 * x + a) / (2 * a) <= 127
  {
    DivRange(254 * x + a, 0, 128, 2 * a);
  }

  /** An element never exceeds the largest one, exponents compared. */
  lemma ScaledDominates(m: nat, ma: nat, d: nat)
    requires m < 256 && ma > 0 && (d > 0 ==> ma >= 128) && (d == 0 ==> m <= ma)
    ensures m <= ma * Pow2(d)
  {
    if d > 0 {
      Pow2Mono(1, d);
      MulMono(2, Pow2(d), ma);
    }
  }

  lemma FarDominates(m: nat, ma: nat, d: nat)
    requires m < 256 && ma >= 128 && d > 60
    ensures 254 * m < ma * Pow2(d)
  {
    hide Pow2;
    Pow2Mono(20, d);
    Pow2Small();
    MulMono(128, ma, Pow2(d));
  }

  /** v is 127 m / a to within half a unit. */
  ghost predicate ElementOk(m: nat, v: nat, a: int)
  {
    a > 0 && -a <= 254 * m - 2 * (a * v) <= a
  }

  /** mu is scaled / 127 to within half a unit. */
  ghost predicate ScaleOk(mu: int, scaled: int)
  {
    Abs(254 * mu - 2 * scaled) <= 127
  }

  ghost predicate IsProduct(x: int, w: real, top: real)
  {
    x as real * w == top
  }

  /** q is 127 v / A to within half a unit, and at most 127. */
  lemma ElementRounded(p: Parts, ma: nat, ea: int)
    requires p.m < 256 && ma > 0 && p.e <= ea && (p.e < ea ==> ma >= 128) && (p.e == ea ==> p.m <= ma)
    ensures Abs(QuantizeElement(p, ma, ea)) <= 127
    ensures ElementOk(p.m, Abs(QuantizeElement(p, ma, ea)), ma * Pow2(ea - p.e))
    ensures var q := QuantizeElement(p, ma, ea); q == if p.s == 1 then 0 - Abs(q) else Abs(q)
  {
    hide Pow2;
    var d := ea - p.e;
    var a := ma * Pow2(d);
    MulMono(1, ma, Pow2(d));
    ScaledDominates(p.m, ma, d);
    if d > 60 {
      FarDominates(p.m, ma, d);
    }
    RoundedQuotient(p.m, a);
    QuotientAtMost127(p.m, a);
  }

  // ---- reals ---------------------------------------------------------------------

  /** The rounding of the element, in units of the element's exponent. */
  lemma ElementError(m: nat, v: nat, a: int, w: real)
    requires w > 0.0 && a > 0 && -a <= 254 * m - 2 * (a * v) <= a
    ensures var ideal := v as real * ((a as real * w) / 127.0);
      AbsReal(ideal - m as real * w) <= (a as real * w) / 127.0 / 2.0
  {
    var x := (2 * (a * v) - 254 * m) as real;
    var ideal := v as real * ((a as real * w) / 127.0);
    assert ideal == (2 * (a * v)) as real * w / 254.0 by { IdealForm(v, a, w); }
    assert m as real * w == (254 * m) as real * w / 254.0;
    assert ideal - m as real * w == x * w / 254.0;
    RealScale(x, a as real, w);
  }

  lemma IdealForm(v: nat, a: int, w: real)
    ensures v as real * ((a as real * w) / 127.0) == (2 * (a * v)) as real * w / 254.0
  {
    assert (2 * (a * v)) as real == 2.0 * (a as real * v as real);
    assert v as real * (a as real * w) == (a as real * v as real) * w;
  }

  lemma RealScale(x: real, a: real, w: real)
    requires w > 0.0 && -a <= x <= a
    ensures AbsReal(x * w / 254.0) <= a * w / 254.0
  {
    RealMono(x, a, w);
    RealMono(-a, x, w);
  }

  lemma RealMono(x: real, y: real, w: real)
    requires x <= y && w >= 0.0
    ensures x * w <= y * w
  {
  }

  /** The rounding of the scale, in units of 2^-k. */
  lemma ScaleError(v: nat, mu: int, scaled: int, u: real)
    requires u > 0.0 && Abs(254 * mu - 2 * scaled) <= 127
    ensures AbsReal(v as real * mu as real * u - v as real * ((scaled as real * u) / 127.0)) <= v as real * u / 2.0
  {
    var x := (254 * mu - 2 * scaled) as real;
    assert mu as real - scaled as real / 127.0 == x / 254.0;
    var y := v as real * u;
    assert v as real * mu as real * u - v as real * ((scaled as real * u) / 127.0) == (x / 254.0) * y by {
      ScaleForm(v as real, mu as real, scaled as real, u);
    }
    assert y >= 0.0;
    RealMono(x / 254.0, 0.5, y);
    RealMono(-0.5, x / 254.0, y);
  }

  lemma ScaleForm(v: real, mu: real, s: real, u: real)
    ensures v * mu * u - v * ((s * u) / 127.0) == (mu - s / 127.0) * (v * u)
  {
    assert v * mu * u == mu * (v * u);
    assert v * ((s * u) / 127.0) == (s / 127.0) * (v * u);
  }

  lemma TriangleReal(x: real, y: real, z: real, a: real, b: real)
    requires AbsReal(x - y) <= a && AbsReal(y - z) <= b
    ensures AbsReal(x - z) <= a + b
  {
  }

  /** q * mu * u is within half of top/127 of the value, plus half a unit of
      the scale for every unit of q. */
  ghost predicate Close(q: int, mu: int, u: real, value: real, top: real)
  {
    AbsReal(q as real * mu as real * u - value) <= top / 127.0 / 2.0 + Abs(q) as real * u / 2.0
  }

  lemma ElementErrorOf(m: nat, v: nat, a: int, w: real, top: real)
    requires w > 0.0 && ElementOk(m, v, a) && IsProduct(a, w, top)
    ensures AbsReal(v as real * (top / 127.0) - m as real * w) <= top / 127.0 / 2.0
  {
    ElementError(m, v, a, w);
  }

  lemma ScaleErrorOf(v: nat, mu: int, scaled: int, u: real, top: real)
    requires u > 0.0 && ScaleOk(mu, scaled) && IsProduct(scaled, u, top)
    ensures AbsReal(v as real * mu as real * u - v as real * (top / 127.0)) <= v as real * u / 2.0
  {
    ScaleError(v, mu, scaled, u);
  }

  /** The same for a non-negative q and value. */
  ghost predicate Near(v: nat, mu: int, u: real, size: real, top: real)
  {
    AbsReal(v as real * mu as real * u - size) <= top / 127.0 / 2.0 + v as real * u / 2.0
  }

  lemma ErrorsAdd(v: nat, mu: int, u: real, p: Parts, big: int, scaled: int, top: real)
    requires u > 0.0 && ElementOk(p.m, v, big) && ScaleOk(mu, scaled)
    requires IsProduct(big, Pow2Real(p.e), top) && IsProduct(scaled, u, top)
    ensures Near(v, mu, u, Size(p), top)
  {
    hide ElementOk;
    hide ScaleOk;
    hide IsProduct;
    hide Pow2Real;
    ElementErrorOf(p.m, v, big, Pow2Real(p.e), top);
    ScaleErrorOf(v, mu, scaled, u, top);
    hide AbsReal;
    TriangleReal(v as real * mu as real * u, v as real * (top / 127.0), Size(p),
                 v as real * u / 2.0, top / 127.0 / 2.0);
  }

  lemma SignedClose(q: int, v: nat, mu: int, u: real, p: Parts, top: real)
    requires q == (if p.s == 1 then 0 - v else v) && Near(v, mu, u, Size(p), top)
    ensures Close(q, mu, u, Value(p), top)
  {
    hide Size;
    if p.s == 1 {
      assert q as real == -(v as real);
      assert q as real * mu as real * u == -(v as real * mu as real * u);
    }
  }

  /** One element against its row: the error of the element's rounding plus the
      error of the scale's rounding. */
  lemma ElementAccuracy(p: Parts, a: Parts, q: int, s: Scale, k: int)
    requires p.m < 256 && 0 < a.m < 256 && p.e <= a.e && (p.e < a.e ==> a.m >= 128) && (p.e == a.e ==> p.m <= a.m)
    requires q == QuantizeElement(p, a.m, a.e) && s == ScaleOf(a.m) && k == s.t - a.e
    ensures Close(q, s.mu, Pow2Real(-k), Value(p), Size(a))
  {
    hide *;
    ElementRounded(p, a.m, a.e);
    ScaleRounded(a.m, s);
    SizeProduct(a, p.e, a.e - p.e);
    SizeProduct(a, -k, s.t);
    ErrorsAdd(Abs(q), s.mu, Pow2Real(-k), p, a.m * Pow2(a.e - p.e), a.m * Pow2(s.t), Size(a));
    SignedClose(q, Abs(q), s.mu, Pow2Real(-k), p, Size(a));
  }

  lemma ScaleRounded(ma: nat, s: Scale)
    requires 0 < ma < 256 && s == ScaleOf(ma)
    ensures s.t >= 0 && TWO30 <= s.mu < TWO31 && ScaleOk(s.mu, ma * Pow2(s.t))
  {
    hide ScaleOf;
    hide Pow2;
    ScaleNormalised(ma);
  }

  lemma SizeProduct(a: Parts, e: int, n: nat)
    requires a.e == e + n
    ensures IsProduct(a.m * Pow2(n), Pow2Real(e), Size(a))
  {
    hide Pow2;
    hide Pow2Real;
    Pow2RealAdd(e, n);
    RealRegroup(a.m, Pow2(n), Pow2Real(e));
  }

  lemma RealRegroup(m: nat, p: nat, w: real)
    ensures (m * p) as real * w == m as real * (w * p as real)
  {
    assert (m * p) as real == m as real * p as real;
  }

  /** A, the largest magnitude of the row. */
  function LargestValue(bits: Vec): real
    requires FiniteRow(bits) && !ZeroRow(bits)
  {
    Size(Largest(bits))
  }

  /** Every accepted non-zero row: q within 127 and reaching it at every element
      of largest magnitude, a normalised scale, A at least the size of every
      element, and every element reproduced to within half of A/127 plus the
      scale's own half unit. */
  lemma RowAccuracy(bits: Vec, z: Quantized, j: nat)
    requires FiniteRow(bits) && !ZeroRow(bits) && QuantizeRow(bits) == Some(z) && j < |bits|
    ensures |z.q| == |bits| && Abs(z.q[j]) <= 127 && TWO30 <= z.mu < TWO31 && K_MIN <= z.k <= K_MAX
    ensures IsLargest(bits, j) ==> Abs(z.q[j]) == 127
    ensures Size(Bf16Parts(bits[j]).value) <= LargestValue(bits)
    ensures Close(z.q[j], z.mu, Pow2Real(-z.k), Value(Bf16Parts(bits[j]).value), LargestValue(bits))
  {
    RowForm(bits, z, j);
    hide *;
    var a, p := Largest(bits), Bf16Parts(bits[j]).value;
    ScaleRounded(a.m, ScaleOf(a.m));
    ElementRounded(p, a.m, a.e);
    ElementAccuracy(p, a, z.q[j], ScaleOf(a.m), z.k);
    SizeOrder(p, a);
    if IsLargest(bits, j) {
      LargestForm(bits, j);
      LargestIs127(p);
    }
  }

  /** No element of the row has a larger magnitude. */
  predicate IsLargest(bits: Vec, j: nat)
  {
    j < |bits| && forall i | 0 <= i < |bits| :: Magnitude(bits[i]) <= Magnitude(bits[j])
  }

  /** Elements of largest magnitude differ from each other in sign only. */
  lemma LargestForm(bits: Vec, j: nat)
    requires FiniteRow(bits) && !ZeroRow(bits) && IsLargest(bits, j)
    ensures var a, p := Largest(bits), Bf16Parts(bits[j]).value; p.m == a.m && p.e == a.e
  {
    hide Bf16Parts;
    hide Magnitude;
    var k := Argmax(Magnitudes(bits));
    assert Magnitudes(bits)[j] <= Magnitudes(bits)[k];
    MagnitudeOrder(bits[j], bits[k]);
    MagnitudeOrder(bits[k], bits[j]);
  }

  lemma SizeOrder(p: Parts, a: Parts)
    requires p.m < 256 && a.m > 0 && p.e <= a.e && (p.e < a.e ==> a.m >= 128) && (p.e == a.e ==> p.m <= a.m)
    ensures Size(p) <= Size(a)
  {
    hide Pow2;
    hide Pow2Real;
    var d := a.e - p.e;
    ScaledDominates(p.m, a.m, d);
    SizeProduct(a, p.e, d);
    RealMono(p.m as real, (a.m * Pow2(d)) as real, Pow2Real(p.e));
  }

  lemma RowForm(bits: Vec, z: Quantized, j: nat)
    requires FiniteRow(bits) && !ZeroRow(bits) && QuantizeRow(bits) == Some(z) && j < |bits|
    ensures var a, p := Largest(bits), Bf16Parts(bits[j]).value;
      && |z.q| == |bits| && K_MIN <= z.k <= K_MAX
      && p.m < 256 && 0 < a.m < 256 && p.e <= a.e && (p.e < a.e ==> a.m >= 128) && (p.e == a.e ==> p.m <= a.m)
      && z.q[j] == QuantizeElement(p, a.m, a.e)
      && z.mu == ScaleOf(a.m).mu && z.k == ScaleOf(a.m).t - a.e
      && LargestValue(bits) == Size(a)
  {
    hide QuantizeElement;
    hide ScaleOf;
    hide Pow2Real;
    hide Bf16Parts;
    hide Largest;
    hide Size;
  }

  lemma LargestIs127(a: Parts)
    requires 0 < a.m < 256
    ensures Abs(QuantizeElement(a, a.m, a.e)) == 127
  {
    DivUnique(254 * a.m + a.m, 2 * a.m, 127);
  }
}
