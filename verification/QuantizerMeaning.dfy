/** What the quantiser computes, said without its formulas: a BF16 pattern is
    reassembled from its parts, and a quantised row is pinned by inequalities on
    exact integers. */
module QuantizerMeaning {
  import opened Arithmetic
  import opened Quantizer
  import QuantizerAccuracy
  import Selection

  // ---- patterns --------------------------------------------------------------------

  /** Pattern b is sign s, significand m and exponent e put together: a normal
      number hides the leading bit of m, a subnormal one has the least exponent. */
  predicate IsBf16(b: int, p: Parts)
  {
    && 0 <= p.s <= 1
    && if p.m >= 128 then p.m < 256 && -133 <= p.e <= 120 && b == p.s * 0x8000 + (p.e + 134) * 128 + p.m - 128
       else p.e == -133 && b == p.s * 0x8000 + p.m
  }

  lemma PartsMeaning(b: int, p: Parts)
    ensures Bf16Parts(b) == Some(p) <==> IsBf16(b, p)
  {
    if IsBf16(b, p) {
      Fields(p.s, if p.m >= 128 then p.e + 134 else 0, if p.m >= 128 then p.m - 128 else p.m, b);
    }
  }

  lemma Fields(s: int, e: int, m: int, b: int)
    requires 0 <= s <= 1 && 0 <= e < 255 && 0 <= m < 128 && b == s * 0x8000 + e * 128 + m
    ensures b / 0x8000 == s && ExponentField(b) == e && b % 128 == m && IsPattern(b)
  {
    assert b / 128 == s * 256 + e;
  }

  /** Infinities and NaNs are refused, and nothing else among the patterns. */
  lemma PartsRefused(b: int)
    ensures Bf16Parts(b).None? <==> !(0 <= b < 0x1_0000) || 0x7F80 <= b % 0x8000
  {
    if 0 <= b < 0x1_0000 {
      MagnitudeFields(b);
    }
  }

  // ---- magnitudes ------------------------------------------------------------------

  predicate IsCanonical(p: Parts) { p.m < 256 && -133 <= p.e && (p.m < 128 ==> p.e == -133) }

  /** The magnitude in units of the smallest one. */
  function Units(p: Parts): nat
    requires p.e >= -133
  {
    MulMono(0, p.m, Pow2(p.e + 133));
    p.m * Pow2(p.e + 133)
  }

  lemma Smaller(p: Parts, a: Parts)
    requires IsCanonical(p) && IsCanonical(a) && p.e < a.e
    ensures Units(p) < Units(a)
  {
    hide Pow2;
    var d := a.e - p.e;
    Pow2Add(d, p.e + 133);
    Pow2Mono(1, d);
    Pow2One();
    var u := Pow2(p.e + 133);
    MulMono(2, Pow2(d), a.m);
    MulMono(256, a.m * Pow2(d), u);
    MulStrict(p.m, 256, u);
    assert a.m * (Pow2(d) * u) == (a.m * Pow2(d)) * u;
  }

  lemma Pow2One()
    ensures Pow2(1) == 2
  {
  }

  /** Magnitudes compare by exponent first. */
  lemma UnitsOrder(p: Parts, a: Parts)
    requires IsCanonical(p) && IsCanonical(a)
    ensures Units(p) <= Units(a) <==> p.e < a.e || (p.e == a.e && p.m <= a.m)
  {
    if p.e < a.e {
      Smaller(p, a);
    } else if a.e < p.e {
      Smaller(a, p);
    } else {
      var u := Pow2(p.e + 133);
      if p.m <= a.m { MulMono(p.m, a.m, u); } else { MulStrict(a.m, p.m, u); }
    }
  }

  // ---- one row ---------------------------------------------------------------------

  predicate AreParts(bits: Vec, ps: seq<Parts>)
  {
    |ps| == |bits| && forall j | 0 <= j < |bits| :: IsBf16(bits[j], ps[j])
  }

  /** Element i has the largest magnitude of the row. */
  predicate IsTop(ps: seq<Parts>, i: nat)
  {
    && i < |ps| && (forall j | 0 <= j < |ps| :: ps[j].e >= -133)
    && forall j | 0 <= j < |ps| :: Units(ps[j]) <= Units(ps[i])
  }

  /** t is the least shift that lifts m to 127 * 2^30. */
  predicate IsShift(m: nat, t: nat)
  {
    m * Pow2(t) >= 127 * 0x4000_0000 && (t > 0 ==> m * Pow2(t - 1) < 127 * 0x4000_0000)
  }

  /** mu is m * 2^t / 127 to the nearest integer. */
  predicate IsMu(m: nat, t: nat, mu: int) { -127 <= 254 * mu - 2 * (m * Pow2(t)) <= 127 }

  /** q is 127 times the element over the largest magnitude, to the nearest
      integer with halves going away from zero, with the sign of the element. */
  predicate IsElement(p: Parts, a: Parts, q: int)
  {
    && p.e <= a.e
    && var big := a.m * Pow2(a.e - p.e);
       -big <= 254 * p.m - 2 * (big * Abs(q)) < big && if p.s == 1 then q <= 0 else q >= 0
  }

  ghost predicate IsRow(ps: seq<Parts>, z: Quantized, i: nat, t: nat)
  {
    && IsTop(ps, i) && ps[i].m > 0 && IsShift(ps[i].m, t) && IsMu(ps[i].m, t, z.mu)
    && z.k == t - ps[i].e && 16 <= z.k <= 62
    && |z.q| == |ps| && forall j | 0 <= j < |ps| :: IsElement(ps[j], ps[i], z.q[j])
  }

  predicate IsZeroRow(ps: seq<Parts>, z: Quantized)
  {
    && z.mu == 0 && z.k == 16 && |z.q| == |ps|
    && forall j | 0 <= j < |ps| :: ps[j].m == 0 && z.q[j] == 0
  }

  /** A quantised row. */
  ghost predicate IsQuantized(bits: Vec, z: Quantized)
  {
    exists ps: seq<Parts> :: AreParts(bits, ps) && (IsZeroRow(ps, z) || exists i: nat, t: nat :: IsRow(ps, z, i, t))
  }

  // ---- the rule meets it -----------------------------------------------------------

  function PartsOf(bits: Vec): (ps: seq<Parts>)
    requires FiniteRow(bits)
    ensures |ps| == |bits|
  {
    seq(|bits|, j requires 0 <= j < |bits| => Bf16Parts(bits[j]).value)
  }

  lemma PartsAre(bits: Vec, ps: seq<Parts>)
    ensures AreParts(bits, ps) <==> FiniteRow(bits) && ps == PartsOf(bits)
    ensures AreParts(bits, ps) ==> forall j | 0 <= j < |ps| :: IsCanonical(ps[j])
  {
    hide Bf16Parts;
    if |ps| == |bits| {
      forall j | 0 <= j < |bits|
        ensures IsBf16(bits[j], ps[j]) <==> Bf16Parts(bits[j]) == Some(ps[j])
      {
        PartsMeaning(bits[j], ps[j]);
      }
    }
    if AreParts(bits, ps) { assert forall j | 0 <= j < |bits| :: IsBf16(bits[j], ps[j]); }
  }

  lemma ZeroIs(bits: Vec, ps: seq<Parts>)
    requires AreParts(bits, ps)
    ensures ZeroRow(bits) <==> forall j | 0 <= j < |ps| :: ps[j].m == 0
  {
    hide Magnitude;
    forall j | 0 <= j < |ps|
      ensures Magnitude(bits[j]) == 0 <==> ps[j].m == 0
    {
      assert IsBf16(bits[j], ps[j]);
      MagnitudeOf(bits[j], ps[j]);
    }
    hide IsBf16;
  }

  lemma MagnitudeOf(b: int, p: Parts)
    requires IsBf16(b, p)
    ensures Magnitude(b) == 0 <==> p.m == 0
  {
    var rest := if p.m >= 128 then (p.e + 134) * 128 + p.m - 128 else p.m;
    assert 0 <= rest < 0x8000;
    assert b == p.s * 0x8000 + rest;
  }

  lemma ElementIs(p: Parts, a: Parts, q: int)
    requires 0 <= p.s <= 1 && p.m < 256 && a.m > 0 && p.e <= a.e && (p.e < a.e ==> a.m >= 128)
    ensures IsElement(p, a, q) <==> q == QuantizeElement(p, a.m, a.e)
  {
    var big := a.m * Pow2(a.e - p.e);
    MulMono(1, a.m, Pow2(a.e - p.e));
    ElementSize(p, a.m, a.e);
    hide QuantizeElement;
    Rounding(p.m, big, Abs(q));
  }

  lemma ElementSize(p: Parts, ma: nat, ea: int)
    requires p.m < 256 && ma > 0 && p.e <= ea && (p.e < ea ==> ma >= 128)
    ensures var big, q := ma * Pow2(ea - p.e), QuantizeElement(p, ma, ea);
      big > 0 && Abs(q) == (254 * p.m + big) / (2 * big) && if p.s == 1 then q <= 0 else q >= 0
  {
    hide Pow2;
    var big := ma * Pow2(ea - p.e);
    MulMono(1, ma, Pow2(ea - p.e));
    if ea - p.e > 60 { QuantizerAccuracy.FarDominates(p.m, ma, ea - p.e); }
    NonNegative(p.m, big);
  }

  lemma Rounding(m: nat, big: int, v: nat)
    requires big > 0
    ensures -big <= 254 * m - 2 * (big * v) < big <==> v == (254 * m + big) / (2 * big)
  {
    DivBounds(254 * m + big, 2 * big);
    var w := (254 * m + big) / (2 * big);
    assert w * (2 * big) == 2 * (big * w) && v * (2 * big) == 2 * (big * v);
    if -big <= 254 * m - 2 * (big * v) < big { DivUnique(254 * m + big, 2 * big, v); }
  }

  lemma NonNegative(m: nat, big: int)
    requires big > 0
    ensures (254 * m + big) / (2 * big) >= 0
    ensures m == 0 ==> (254 * m + big) / (2 * big) == 0
    ensures 254 * m < big ==> (254 * m + big) / (2 * big) == 0
  {
    DivMono(0, 254 * m + big, 2 * big);
    if 254 * m < big { DivUnique(254 * m + big, 2 * big, 0); }
  }

  lemma ScaleIs(m: nat, t: nat, mu: int)
    requires 0 < m < 256
    ensures IsShift(m, t) && IsMu(m, t, mu) <==> ScaleOf(m) == Scale(mu, t)
  {
    hide Pow2;
    hide ScaleShift;
    hide ScaleOf;
    hide IsShift;
    ScaleNormalised(m);
    ShiftIs(m, t);
    var s := ScaleOf(m);
    assert s == Scale(s.mu, s.t);
    if t == ScaleShift(m, 0) { NearestOnly(m * Pow2(t), s.mu, mu); }
  }

  lemma NearestOnly(x: int, mu: int, nu: int)
    requires Abs(254 * mu - 2 * x) <= 127
    ensures -127 <= 254 * nu - 2 * x <= 127 <==> nu == mu
  {
  }

  lemma ShiftIs(m: nat, t: nat)
    requires m > 0
    ensures IsShift(m, t) <==> t == ScaleShift(m, 0)
  {
    hide Pow2;
    var s := ScaleShift(m, 0);
    hide ScaleShift;
    if IsShift(m, t) {
      if t > s {
        Pow2Mono(s, t - 1);
        MulMono(Pow2(s), Pow2(t - 1), m);
      }
    }
  }

  /** The element the rule takes as largest, in terms of parts. */
  lemma TopIs(bits: Vec, ps: seq<Parts>, i: nat)
    requires FiniteRow(bits) && !ZeroRow(bits) && AreParts(bits, ps) && i < |ps|
    ensures IsTop(ps, i) <==> ps[i].m == Largest(bits).m && ps[i].e == Largest(bits).e
  {
    PartsAre(bits, ps);
    LargestIn(bits, ps);
    var a := Largest(bits);
    var l :| 0 <= l < |ps| && ps[l] == a;
    forall j | 0 <= j < |ps| ensures Units(ps[j]) <= Units(a) { UnitsOrder(ps[j], a); }
    UnitsOrder(ps[i], a);
    UnitsOrder(a, ps[i]);
    hide Units;
    hide Largest;
    hide IsCanonical;
    if IsTop(ps, i) { assert Units(ps[l]) <= Units(ps[i]); }
    if ps[i].m == a.m && ps[i].e == a.e { SameUnits(ps[i], a); }
  }

  lemma SameUnits(p: Parts, a: Parts)
    requires p.e == a.e >= -133 && p.m == a.m
    ensures Units(p) == Units(a)
  {
  }

  lemma LargestIn(bits: Vec, ps: seq<Parts>)
    requires FiniteRow(bits) && !ZeroRow(bits) && AreParts(bits, ps)
    ensures var a := Largest(bits);
      && (exists l :: 0 <= l < |ps| && ps[l] == a) && IsCanonical(a) && a.m > 0
      && forall j | 0 <= j < |ps| :: ps[j].e < a.e || (ps[j].e == a.e && ps[j].m <= a.m)
  {
    PartsAre(bits, ps);
    var l := Selection.Argmax(Magnitudes(bits));
    assert ps[l] == Largest(bits);
    hide Bf16Parts;
    hide IsBf16;
  }

  lemma ElementsAre(bits: Vec, ps: seq<Parts>, i: nat, q: Vec)
    requires FiniteRow(bits) && !ZeroRow(bits) && AreParts(bits, ps) && |q| == |ps| && i < |ps| && IsTop(ps, i)
    ensures (forall j | 0 <= j < |ps| :: IsElement(ps[j], ps[i], q[j])) <==> q == RowElements(bits)
  {
    PartsAre(bits, ps);
    LargestIn(bits, ps);
    TopIs(bits, ps, i);
    var a, e := Largest(bits), RowElements(bits);
    forall j | 0 <= j < |ps|
      ensures IsElement(ps[j], ps[i], q[j]) <==> q[j] == e[j]
    {
      assert IsBf16(bits[j], ps[j]);
      ElementIs(ps[j], ps[i], q[j]);
    }
    hide IsElement;
    hide RowElements;
  }

  /** For a row that is not all zero. */
  lemma RowIs(bits: Vec, ps: seq<Parts>, z: Quantized, i: nat, t: nat)
    requires FiniteRow(bits) && !ZeroRow(bits) && AreParts(bits, ps) && i < |ps| && IsTop(ps, i) && ps[i].m > 0
    ensures IsRow(ps, z, i, t) <==> QuantizeRow(bits) == Some(z) && ScaleOf(ps[i].m).t == t
  {
    hide IsElement;
    hide RowElements;
    hide IsShift;
    hide IsMu;
    hide ScaleOf;
    hide Largest;
    hide FiniteRow;
    hide ZeroRow;
    hide AreParts;
    hide IsTop;
    LengthOf(bits, ps);
    TopIs(bits, ps, i);
    var a := Largest(bits);
    if |z.q| == |ps| { ElementsAre(bits, ps, i, z.q); }
    ScaleIs(a.m, t, z.mu);
    var s := ScaleOf(a.m);
    assert s == Scale(s.mu, s.t) && z == Quantized(z.q, z.mu, z.k);
  }

  lemma LengthOf(bits: Vec, ps: seq<Parts>)
    requires AreParts(bits, ps)
    ensures |ps| == |bits|
  {
  }

  /** The rule returns z exactly when z is a quantised row of the patterns: all
      finite, and either all zero or scaled by the largest magnitude with a
      shift between 16 and 62. */
  lemma RowMeaning(bits: Vec, z: Quantized)
    ensures QuantizeRow(bits) == Some(z) <==> IsQuantized(bits, z)
  {
    forall ps: seq<Parts> | AreParts(bits, ps)
      ensures FiniteRow(bits) && ps == PartsOf(bits)
    {
      PartsAre(bits, ps);
    }
    if FiniteRow(bits) {
      var ps := PartsOf(bits);
      PartsAre(bits, ps);
      ZeroIs(bits, ps);
      if ZeroRow(bits) {
        ZeroRowIs(bits, ps, z);
      } else {
        TopRow(bits, ps, z);
      }
    }
    hide AreParts;
    hide IsZeroRow;
    hide IsRow;
    hide PartsOf;
    hide FiniteRow;
  }

  lemma ZeroRowIs(bits: Vec, ps: seq<Parts>, z: Quantized)
    requires AreParts(bits, ps) && FiniteRow(bits) && ZeroRow(bits)
    ensures QuantizeRow(bits) == Some(z) <==> IsZeroRow(ps, z)
    ensures forall i: nat, t: nat :: !IsRow(ps, z, i, t)
  {
    ZeroIs(bits, ps);
    hide Bf16Parts;
    hide IsBf16;
    assert z == Quantized(z.q, z.mu, z.k);
    if IsZeroRow(ps, z) { assert z.q == Zeros(|bits|); }
  }

  lemma TopRow(bits: Vec, ps: seq<Parts>, z: Quantized)
    requires AreParts(bits, ps) && FiniteRow(bits) && !ZeroRow(bits)
    ensures QuantizeRow(bits) == Some(z) <==> exists i: nat, t: nat :: IsRow(ps, z, i, t)
    ensures !IsZeroRow(ps, z)
  {
    ZeroIs(bits, ps);
    LargestIn(bits, ps);
    var l: nat :| l < |ps| && ps[l] == Largest(bits);
    TopIs(bits, ps, l);
    var s := ScaleOf(ps[l].m);
    ScaleNormalised(ps[l].m);
    RowIs(bits, ps, z, l, s.t);
    forall i: nat, t: nat | IsRow(ps, z, i, t)
      ensures QuantizeRow(bits) == Some(z)
    {
      RowIs(bits, ps, z, i, t);
    }
    hide QuantizeRow;
    hide ScaleOf;
    hide AreParts;
  }
}
