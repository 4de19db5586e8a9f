/** The interpolated exponential on non-positive Q16 arguments and the sigmoid
    built from it. The table itself is a parameter: only the shape every
    correctly rounded table has is used. */
module Exponential {
  import opened Arithmetic

  const EXP_RANGE: int := 16 * ONE

  ghost predicate ValidTable(t: Vec)
  {
    && |t| == 4097
    && t[0] >= 0
    && t[4096] == ONE
    && forall i, j | 0 <= i <= j < |t| :: t[i] <= t[j]
  }

  /** exp(x) for x <= 0; the source refuses positive arguments, and every
      caller below proves that it never passes one. */
  function ExpQ16(t: Vec, x: int): int
    requires |t| == 4097 && x <= 0
  {
    if x == 0 then ONE
    else if x <= -EXP_RANGE then 0
    else Interpolate(t, x + EXP_RANGE)
  }

  function Interpolate(t: Vec, o: int): int
    requires |t| == 4097 && 0 <= o < EXP_RANGE
  {
    var i, f := o / 256, o % 256;
    t[i] + ((t[i + 1] - t[i]) * f) / 256
  }

  lemma InterpolationWithin(d: int, f: int)
    requires 0 <= d && 0 <= f < 256
    ensures 0 <= (d * f) / 256 <= d
  {
    MulMono(0, d, f);
    MulMono(f, 255, d);
  }

  lemma InterpolateWithin(t: Vec, o: int)
    requires ValidTable(t) && 0 <= o < EXP_RANGE
    ensures t[o / 256] <= Interpolate(t, o) <= t[o / 256 + 1]
  {
    InterpolationWithin(t[o / 256 + 1] - t[o / 256], o % 256);
  }

  lemma InterpolateMono(t: Vec, o: int, p: int)
    requires ValidTable(t) && 0 <= o <= p < EXP_RANGE
    ensures Interpolate(t, o) <= Interpolate(t, p)
  {
    var i, j := o / 256, p / 256;
    if i == j {
      var d := t[i + 1] - t[i];
      assert d * (o % 256) <= d * (p % 256) by { MulMono(o % 256, p % 256, d); }
      DivMono(d * (o % 256), d * (p % 256), 256);
    } else {
      hide Interpolate;
      InterpolateWithin(t, o);
      InterpolateWithin(t, p);
      assert t[i + 1] <= t[j];
    }
  }

  lemma ExpRange(t: Vec, x: int)
    requires ValidTable(t) && x <= 0
    ensures 0 <= ExpQ16(t, x) <= ONE
  {
    hide Interpolate;
    if -EXP_RANGE < x < 0 { InterpolateWithin(t, x + EXP_RANGE); }
  }

  /** The interpolated exponential never decreases. */
  lemma ExpMono(t: Vec, x: int, y: int)
    requires ValidTable(t) && x <= y <= 0
    ensures ExpQ16(t, x) <= ExpQ16(t, y)
  {
    hide Interpolate;
    ExpRange(t, x);
    ExpRange(t, y);
    if -EXP_RANGE < x && y < 0 { InterpolateMono(t, x + EXP_RANGE, y + EXP_RANGE); }
  }

  /** The sigmoid inlined in the gated activation. */
  function Sigma(t: Vec, g: int): int
    requires ValidTable(t)
  {
    if g >= 0 then
      ExpRange(t, -g);
      TWO32 / (ONE + ExpQ16(t, -g))
    else
      ExpRange(t, g);
      (ExpQ16(t, g) * ONE) / (ONE + ExpQ16(t, g))
  }

  lemma UpperHalf(e: int)
    requires 0 <= e <= ONE
    ensures ONE / 2 <= TWO32 / (ONE + e) <= ONE
  {
    DivRange(TWO32, ONE / 2, ONE + 1, ONE + e);
  }

  lemma LowerHalf(e: int)
    requires 0 <= e <= ONE
    ensures 0 <= (e * ONE) / (ONE + e) <= ONE / 2
  {
    DivRange(e * ONE, 0, ONE / 2 + 1, ONE + e);
  }

  lemma SigmaRange(t: Vec, g: int)
    requires ValidTable(t)
    ensures 0 <= Sigma(t, g) <= ONE
    ensures g >= 0 ==> ONE / 2 <= Sigma(t, g)
    ensures g < 0 ==> Sigma(t, g) <= ONE / 2
  {
    if g >= 0 {
      ExpRange(t, -g);
      UpperHalf(ExpQ16(t, -g));
    } else {
      ExpRange(t, g);
      LowerHalf(ExpQ16(t, g));
    }
  }

  lemma UpperMono(d: int, e: int)
    requires 0 < d <= e
    ensures TWO32 / e <= TWO32 / d
  {
    var q := TWO32 / e;
    DivBounds(TWO32, e);
    if q >= 0 {
      MulMono(d, e, q);
      DivMono(q * d, TWO32, d);
      DivOfMultiple(q, 0, d);
    } else {
      MulMono(q + 1, 0, e);
    }
  }

  lemma LowerMono(d: int, e: int)
    requires 0 <= d <= e <= ONE
    ensures (d * ONE) / (ONE + d) <= (e * ONE) / (ONE + e)
  {
    LowerHalf(d);
    var q := (d * ONE) / (ONE + d);
    DivBounds(d * ONE, ONE + d);
    assert q * (ONE + e) <= e * ONE by {
      Distribute(ONE + d, e - d, q);
      MulMono(q, ONE, e - d);
    }
    DivMono(q * (ONE + e), e * ONE, ONE + e);
    DivOfMultiple(q, 0, ONE + e);
  }

  lemma SigmaMono(t: Vec, g: int, h: int)
    requires ValidTable(t) && g <= h
    ensures Sigma(t, g) <= Sigma(t, h)
  {
    SigmaRange(t, g);
    SigmaRange(t, h);
    if g >= 0 {
      ExpMono(t, -h, -g);
      ExpRange(t, -h);
      UpperMono(ONE + ExpQ16(t, -h), ONE + ExpQ16(t, -g));
    } else if h < 0 {
      ExpMono(t, g, h);
      ExpRange(t, g);
      ExpRange(t, h);
      LowerMono(ExpQ16(t, g), ExpQ16(t, h));
    }
  }

  lemma HalvesMeet(e: int)
    requires 0 <= e <= ONE
    ensures ONE - 1 <= TWO32 / (ONE + e) + (e * ONE) / (ONE + e) <= ONE
  {
    var d := ONE + e;
    var q, r := TWO32 / d, TWO32 % d;
    assert e * ONE == (ONE - q) * d - r by {
      assert TWO32 == q * d + r;
      Distribute(ONE, -q, d);
    }
    if r == 0 {
      DivOfMultiple(ONE - q, 0, d);
    } else {
      Distribute(ONE - q, -1, d);
      DivUnique(e * ONE, d, ONE - q - 1);
    }
  }

  /** sigma(g) and sigma(-g) add up to one, or to one unit less. */
  lemma SigmaSymmetry(t: Vec, g: int)
    requires ValidTable(t)
    ensures ONE - 1 <= Sigma(t, g) + Sigma(t, -g) <= ONE
    ensures g == 0 ==> Sigma(t, g) == ONE / 2
  {
    if g > 0 {
      ExpRange(t, -g);
      HalvesMeet(ExpQ16(t, -g));
    } else if g < 0 {
      ExpRange(t, g);
      HalvesMeet(ExpQ16(t, g));
    }
  }
}
