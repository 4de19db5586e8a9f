/** Exact 64-bit lane arithmetic of the fast path. `Fit` marks every value that
    the array code stores in an int64 lane: its precondition is the proof that
    the lane does not wrap. */
module Int64Lanes {
  import opened Arithmetic

  const M31: int := TWO31
  const M32: int := TWO32

  function Fit(x: int): (r: int)
    requires InI64(x)
  {
    x
  }

  /** floor(a * m / 2^s) through 32-bit halves; None asks for the slow path. */
  function MulU31Shr(a: int, m: int, s: nat): (r: Option<int>)
    requires InI64(a) && 0 <= m < TWO31 && 16 <= s <= 62
  {
    HalvesFit(a, m);
    var p := Fit((a / M32) * m);
    var q := Fit((a % M32) * m);
    if s >= 32 then
      QuotientFits(p + q / M32, Pow2(s - 32));
      Some(Fit(Fit(p + q / M32) / Pow2(s - 32)))
    else if Abs(p) >= Pow2(29 + s) then
      None
    else
      EpilogueFit(p, q, s);
      Some(Fit(Fit(p * Pow2(32 - s)) + q / Pow2(s)))
  }

  lemma HalvesFit(a: int, m: int)
    requires InI64(a) && 0 <= m < TWO31
    ensures -LIM62 <= (a / M32) * m <= LIM62
    ensures 0 <= (a % M32) * m < TWO63
  {
    MulBound(a / M32, m, TWO31, TWO31);
    MulMono(0, m, a % M32);
    MulBound(a % M32, m, M32 - 1, TWO31 - 1);
  }

  lemma QuotientShrinks(x: nat, d: int)
    requires d > 0
    ensures 0 <= x / d <= x
  {
    MulMono(1, d, x + 1);
    DivRange(x, 0, x + 1, d);
  }

  lemma QuotientFits(x: int, d: int)
    requires InI64(x) && d > 0
    ensures InI64(x / d)
  {
    MulMono(1, d, TWO63);
    DivRange(x, -TWO63, TWO63, d);
  }

  lemma EpilogueFit(p: int, q: int, s: nat)
    requires 16 <= s < 32 && Abs(p) < Pow2(29 + s) && 0 <= q < TWO63
    ensures Abs(p * Pow2(32 - s)) < 0x2000_0000_0000_0000
    ensures 0 <= q / Pow2(s) < 0x8000_0000_0000
  {
    var w := Pow2(32 - s);
    assert Pow2(29 + s) * w == 0x2000_0000_0000_0000 by {
      Pow2Add(29 + s, 32 - s);
      Pow2Constants();
    }
    AbsMulLt(p, Pow2(29 + s), w);
    Pow2Mono(16, s);
    Pow2Constants();
    MulMono(ONE, Pow2(s), 0x8000_0000_0000);
    DivRange(q, 0, 0x8000_0000_0000, Pow2(s));
  }

  /** The split form is the floor of the exact product over its whole domain,
      and the slow path is requested exactly when the high half is too large
      to be shifted left. */
  lemma MulU31ShrExact(a: int, m: int, s: nat)
    requires InI64(a) && 0 <= m < TWO31 && 16 <= s <= 62
    ensures MulU31Shr(a, m, s).None? <==> s < 32 && Abs((a / M32) * m) >= Pow2(29 + s)
    ensures MulU31Shr(a, m, s).Some? ==> MulU31Shr(a, m, s).value == Shr(a * m, s)
  {
    hide Pow2;
    HalvesFit(a, m);
    var p, q := (a / M32) * m, (a % M32) * m;
    SplitProduct(a, m);
    if s >= 32 {
      Pow2Constants();
      Pow2Add(32, s - 32);
      DivOfMultiple(p, q, M32);
      DivDiv(a * m, M32, Pow2(s - 32));
    } else {
      Pow2Constants();
      Pow2Add(32 - s, s);
      Associate(p, Pow2(32 - s), Pow2(s));
      DivOfMultiple(p * Pow2(32 - s), q, Pow2(s));
    }
  }

  lemma Associate(a: int, b: int, c: int)
    ensures a * (b * c) == (a * b) * c
  {
  }

  lemma SplitProduct(a: int, m: int)
    ensures a * m == ((a / M32) * m) * M32 + (a % M32) * m
  {
    assert a == (a / M32) * M32 + a % M32;
    Distribute((a / M32) * M32, a % M32, m);
  }

  /** The operands the 31-bit limb product is used on: both within 2^62, or the
      one gain np.abs cannot make positive against a left operand within 2^61. */
  predicate MulShrDomain(a: int, b: int)
  {
    || (Abs(a) <= LIM62 && Abs(b) <= LIM62)
    || (Abs(a) <= LIM62 / 2 && b == -TWO63)
  }

  /** floor(a * b / 2^s) through 31-bit limbs; None asks for the slow path. */
  function MulShr(a: int, b: int, s: nat): (r: Option<int>)
    requires MulShrDomain(a, b) && 31 <= s <= 62
  {
    LimbProductsFit(a, b);
    var a1, a0 := a / M31, a % M31;
    var b1, b0 := b / M31, b % M31;
    var p0 := Fit(a0 * b0);
    var t1 := Fit(Fit(Fit(a1 * b0) + Fit(a0 * b1)) + p0 / M31);
    var t2 := Fit(Fit(a1 * b1) + t1 / M31);
    if Abs(t2) >= Pow2(s - 1) then
      None
    else
      MulShrResultFit(t1, t2, s);
      Some(Fit(Fit(t2 * Pow2(62 - s)) + (t1 % M31) / Pow2(s - 31)))
  }

  lemma LimbProductsFit(a: int, b: int)
    requires MulShrDomain(a, b)
    ensures 0 <= (a % M31) * (b % M31) < LIM62
    ensures InI64((a / M31) * (b % M31)) && InI64((a % M31) * (b / M31))
    ensures InI64((a / M31) * (b % M31) + (a % M31) * (b / M31))
    ensures InI64((a / M31) * (b % M31) + (a % M31) * (b / M31) + ((a % M31) * (b % M31)) / M31)
    ensures Abs((a / M31) * (b / M31)) <= LIM62
  {
    var a1, a0, b1, b0 := a / M31, a % M31, b / M31, b % M31;
    MulMono(0, a0, b0);
    MulBound(a0, b0, M31 - 1, M31 - 1);
    if Abs(b) <= LIM62 {
      MulBound(a1, b0, M31, M31 - 1);
      MulBound(a0, b1, M31 - 1, M31);
      MulBound(a1, b1, M31, M31);
    } else {
      assert b1 == -M32 && b0 == 0;
      MulBound(a1, b1, M31 / 2, M32);
    }
  }

  lemma MulShrResultFit(t1: int, t2: int, s: nat)
    requires 31 <= s <= 62 && Abs(t2) < Pow2(s - 1)
    ensures Abs(t2 * Pow2(62 - s)) < 0x2000_0000_0000_0000
    ensures 0 <= (t1 % M31) / Pow2(s - 31) < TWO31
  {
    var w := Pow2(62 - s);
    assert Pow2(s - 1) * w == 0x2000_0000_0000_0000 by {
      Pow2Add(s - 1, 62 - s);
      Pow2Constants();
    }
    AbsMulLt(t2, Pow2(s - 1), w);
    QuotientShrinks(t1 % M31, Pow2(s - 31));
  }

  /** The limb form is the floor of the exact product, and it asks for the slow
      path exactly when the product over 2^62 reaches 2^(s-1), so only for
      results of magnitude about 2^61 and above. */
  lemma MulShrExact(a: int, b: int, s: nat)
    requires MulShrDomain(a, b) && 31 <= s <= 62
    ensures MulShr(a, b, s).None? <==> Abs(Shr(a * b, 62)) >= Pow2(s - 1)
    ensures MulShr(a, b, s).Some? ==> MulShr(a, b, s).value == Shr(a * b, s)
  {
    hide Pow2;
    hide Shr;
    LimbProductsFit(a, b);
    var a1, a0, b1, b0 := a / M31, a % M31, b / M31, b % M31;
    var p0 := a0 * b0;
    var t1 := a1 * b0 + a0 * b1 + p0 / M31;
    var t2 := a1 * b1 + t1 / M31;
    LimbRebuild(a1, a0, b1, b0, p0, t1, t2);
    assert a == a1 * M31 + a0 && b == b1 * M31 + b0;
    ShrOfLimbs(t2, t1 % M31, p0 % M31, s);
    HighPart(t2, t1 % M31, p0 % M31);
  }

  lemma HighPart(t2: int, c1: int, c0: int)
    requires 0 <= c1 < M31 && 0 <= c0 < M31
    ensures Shr(t2 * LIM62 + (c1 * M31 + c0), 62) == t2
  {
    hide Pow2;
    Pow2Constants();
    DivUnique(t2 * LIM62 + (c1 * M31 + c0), LIM62, t2);
  }

  lemma LimbRebuild(a1: int, a0: int, b1: int, b0: int, p0: int, t1: int, t2: int)
    requires p0 == a0 * b0 && t1 == a1 * b0 + a0 * b1 + p0 / M31 && t2 == a1 * b1 + t1 / M31
    ensures (a1 * M31 + a0) * (b1 * M31 + b0) == t2 * LIM62 + ((t1 % M31) * M31 + p0 % M31)
  {
    LimbExpansion(a1, a0, b1, b0);
  }

  lemma ShrOfLimbs(t2: int, c1: int, c0: int, s: nat)
    requires 0 <= c0 < M31 && 31 <= s <= 62
    ensures Shr(t2 * LIM62 + (c1 * M31 + c0), s) == t2 * Pow2(62 - s) + c1 / Pow2(s - 31)
  {
    hide Pow2;
    Pow2Constants();
    Pow2Add(62 - s, s);
    Pow2Add(31, s - 31);
    DivOfLimbs(t2, c1, c0, Pow2(62 - s), M31, Pow2(s - 31));
  }

  lemma DivOfLimbs(t2: int, c1: int, c0: int, w: int, m: int, e: int)
    requires 0 <= c0 < m && e > 0
    ensures m * e > 0
    ensures (t2 * (w * (m * e)) + (c1 * m + c0)) / (m * e) == t2 * w + c1 / e
  {
    MulMono(1, m, e);
    var x := c1 * m + c0;
    assert x / m == c1 by { DivUnique(x, m, c1); }
    assert x / (m * e) == c1 / e by { DivDiv(x, m, e); }
    DivOfShifted(t2, w, x, m * e);
  }

  lemma DivOfShifted(t: int, w: int, x: int, d: int)
    requires d > 0
    ensures (t * (w * d) + x) / d == t * w + x / d
  {
    Associate(t, w, d);
    DivOfMultiple(t * w, x, d);
  }

  lemma LimbExpansion(a1: int, a0: int, b1: int, b0: int)
    ensures (a1 * M31 + a0) * (b1 * M31 + b0)
         == (a1 * b1) * LIM62 + (a1 * b0 + a0 * b1) * M31 + a0 * b0
  {
    Distribute(a1 * M31, a0, b1 * M31 + b0);
    assert (a1 * M31) * (b1 * M31 + b0) == (a1 * b1) * LIM62 + (a1 * b0) * M31 by {
      Distribute(b1 * M31, b0, a1 * M31);
    }
    Distribute(b1 * M31, b0, a0);
  }
}
