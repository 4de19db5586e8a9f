/** The Newton inverse square root never leaves int64 and never returns less
    than one, for every 64-bit argument. */
module LegacyIsqrt {
  import opened Arithmetic
  import opened Int64Lanes
  import opened LegacyExp

  /** A value the iteration can hold: one, or small against 1/sqrt(x). */
  ghost predicate Tame(x: int, y: int, bound: int)
  {
    y >= 1 && (y == 1 || x * (y * y) < bound)
  }

  const TWO55: int := 0x80_0000_0000_0000

  lemma OneIsFixed(x: int)
    requires InI64(x)
    ensures NewtonStep(x, 1) == Some(1)
  {
    Pow2Small();
  }

  lemma SmallProducts(x: int, y: int)
    requires x >= 1 && y >= 1 && x * (y * y) < TWO55
    ensures y < 0x1000_0000 && 0 < y * y < TWO55 && 0 <= x * ((y * y) / ONE) < 0x80_0000_0000
  {
    MulMono(1, y, y);
    MulMono(1, x, y * y);
    if y >= 0x1000_0000 { MulMono(0x1000_0000, y, y); }
    var y2 := (y * y) / ONE;
    MulMono(0, y2, x);
    ScaledLe(x, y * y, y2);
  }

  lemma ScaledLe(x: int, s: int, s2: int)
    requires x >= 0 && s2 * ONE <= s && x * s < TWO55
    ensures x * s2 < 0x80_0000_0000
  {
    MulMono(s2 * ONE, s, x);
    assert x * (s2 * ONE) == (x * s2) * ONE by { Associate(x, s2, ONE); }
  }

  lemma RawStepBound(y: int, three: int)
    requires 1 <= y < 0x1000_0000 && -0x100_0000 <= three <= 3 * ONE
    ensures InI64(y * three)
    ensures 2 * TDiv(y * three, 2 * ONE) <= 3 * y
  {
    MulBound(y, three, 0x1000_0000, 0x100_0000);
    MulMono(three, 3 * ONE, y);
    if three >= 0 {
      MulMono(0, three, y);
      DivMono(y * three, y * (3 * ONE), 2 * ONE);
      assert y * (3 * ONE) == (3 * y) * ONE;
    } else {
      MulMono(three, 0, y);
    }
  }

  lemma SquareMono(a: int, b: int)
    requires 0 <= a <= b
    ensures a * a <= b * b
  {
    MulMono(a, b, a);
    MulMono(a, b, b);
  }

  lemma SquareGrowth(x: int, y: int, z: int)
    requires x >= 1 && y >= 1 && z >= 1 && 2 * z <= 3 * y
    ensures 4 * (x * (z * z)) <= 9 * (x * (y * y))
  {
    assert 4 * (z * z) <= 9 * (y * y) by { SquareMono(2 * z, 3 * y); }
    Scaled(x, z * z, y * y);
  }

  lemma Scaled(x: int, s: int, t: int)
    requires x >= 0 && 4 * s <= 9 * t
    ensures 4 * (x * s) <= 9 * (x * t)
  {
    MulMono(0, 9 * t - 4 * s, x);
    assert x * (9 * t - 4 * s) == 9 * (x * t) - 4 * (x * s);
  }

  /** x * y^2 grows by at most 9/4 per step, and no product leaves int64. */
  lemma StepStaysTame(x: int, y: int, bound: int, bound': int)
    requires 1 <= x && InI64(x) && Tame(x, y, bound) && bound <= TWO55 && 9 * bound <= 4 * bound'
    ensures NewtonStep(x, y).Some? && Tame(x, NewtonStep(x, y).value, bound')
  {
    if y == 1 {
      OneIsFixed(x);
    } else {
      SmallProducts(x, y);
      Pow2Small();
      var y2 := Shr(y * y, 16);
      var three := 3 * ONE - Shr(x * y2, 16);
      RawStepBound(y, three);
      var z := AtLeastOne(TDiv(y * three, 2 * ONE));
      if z > 1 { SquareGrowth(x, y, z); }
    }
  }

  lemma FirstGuessTame(x: int)
    requires 1 <= x && InI64(x)
    ensures Tame(x, FirstGuess(x), 0x2_0000_0000_0000)
  {
    hide Pow2;
    var b := Floor2(x);
    var c := (b + 1) / 2;
    Pow24();
    if c <= 24 {
      Pow2Add(24 - c, c);
      DivOfMultiple(Pow2(24 - c), 0, Pow2(c));
      var y := Pow2(24 - c);
      Pow2Add(24 - c, 24 - c);
      Pow2Add(b + 1, 48 - 2 * c);
      MulStrict(x, Pow2(b + 1), y * y);
      Pow2Mono(b + 49 - 2 * c, 49);
    } else {
      Pow2Mono(25, c);
      DivUnique(0x100_0000, Pow2(c), 0);
    }
  }

  lemma Pow24()
    ensures Pow2(24) == 0x100_0000 && Pow2(25) == 0x200_0000 && Pow2(49) == 0x2_0000_0000_0000
  {
    Pow2Small();
    Pow2Add(16, 8);
    Pow2Add(16, 9);
    Pow2Add(32, 17);
  }

  /** The inverse square root is total on int64 and at least one. */
  lemma InverseSqrtTotal(x: int)
    requires InI64(x)
    ensures InverseSqrt(x).Some? && InverseSqrt(x).value >= 1
  {
    hide NewtonStep;
    hide Tame;
    if x > 0 {
      FirstGuessTame(x);
      var y0 := FirstGuess(x);
      StepStaysTame(x, y0, 0x2_0000_0000_0000, 0x4_8000_0000_0000);
      var y1 := NewtonStep(x, y0).value;
      StepStaysTame(x, y1, 0x4_8000_0000_0000, 0xA_2000_0000_0000);
      var y2 := NewtonStep(x, y1).value;
      StepStaysTame(x, y2, 0xA_2000_0000_0000, 0x16_C800_0000_0000);
      var y3 := NewtonStep(x, y2).value;
      StepStaysTame(x, y3, 0x16_C800_0000_0000, 0x33_4200_0000_0000);
      var y4 := NewtonStep(x, y3).value;
      StepStaysTame(x, y4, 0x33_4200_0000_0000, 0x73_5480_0000_0000);
      FiveSteps(x, y0, y1, y2, y3, y4, NewtonStep(x, y4).value);
      TameIsPositive(x, NewtonStep(x, y4).value, 0x73_5480_0000_0000);
    }
  }

  lemma TameIsPositive(x: int, y: int, bound: int)
    requires Tame(x, y, bound)
    ensures y >= 1
  {
  }

  lemma FiveSteps(x: int, y0: int, y1: int, y2: int, y3: int, y4: int, y5: int)
    requires NewtonStep(x, y0) == Some(y1) && NewtonStep(x, y1) == Some(y2) && NewtonStep(x, y2) == Some(y3)
    requires NewtonStep(x, y3) == Some(y4) && NewtonStep(x, y4) == Some(y5)
    ensures Newton(x, y0, 5) == Some(y5)
  {
    hide NewtonStep;
    assert Newton(x, y3, 2) == Some(y5);
    assert Newton(x, y2, 3) == Some(y5);
    assert Newton(x, y1, 4) == Some(y5);
  }
}
