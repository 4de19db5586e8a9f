/** The legacy Q16 profile: its exponential table is an integer recurrence, its
    inverse square root five Newton steps. */
module LegacyExp {
  import opened Arithmetic
  import opened Exponential

  const DECAY: int := 65281

  /** Entry `i` of the table, from the top down. */
  function LutAt(i: nat): int
    requires i <= 4096
    decreases 4096 - i
  {
    if i == 4096 then ONE else (LutAt(i + 1) * DECAY) / ONE
  }

  function Lut(): (t: Vec)
    ensures |t| == 4097
  {
    seq(4097, i requires 0 <= i < 4097 => LutAt(i))
  }

  /** The loop that fills the table. */
  method BuildLut() returns (table: array<int>)
    ensures table[..] == Lut()
  {
    hide LutAt;
    table := new int[4097](_ => 0);
    table[4096] := ONE;
    LutTop();
    for i := 4096 downto 0
      invariant forall j | i <= j <= 4096 :: table[j] == LutAt(j)
    {
      table[i] := (table[i + 1] * DECAY) / ONE;
      LutNext(i);
    }
  }

  lemma LutTop()
    ensures LutAt(4096) == ONE
  {
  }

  lemma LutNext(i: nat)
    requires i < 4096
    ensures LutAt(i) == (LutAt(i + 1) * DECAY) / ONE
  {
  }

  lemma {:induction false} LutGrows(i: nat)
    requires i < 4096
    ensures 0 <= LutAt(i) <= LutAt(i + 1) <= ONE
    decreases 4096 - i
  {
    hide LutAt;
    LutNext(i);
    if i == 4095 {
      LutTop();
    } else {
      LutGrows(i + 1);
    }
    Decays(LutAt(i + 1));
  }

  lemma Decays(x: int)
    requires 0 <= x
    ensures 0 <= (x * DECAY) / ONE <= x
  {
  }

  lemma {:induction false} LutMono(i: nat, j: nat)
    requires i <= j <= 4096
    ensures LutAt(i) <= LutAt(j)
    decreases j - i
  {
    hide LutAt;
    if i < j {
      LutGrows(i);
      LutMono(i + 1, j);
    }
  }

  /** The recurrence gives a table of the shape the exponential needs. */
  lemma LutValid()
    ensures ValidTable(Lut())
  {
    hide LutAt;
    var t := Lut();
    LutTop();
    LutGrows(0);
    forall i, j | 0 <= i <= j < |t| ensures t[i] <= t[j] { LutMono(i, j); }
  }

  /** exp on any argument, saturating at one. */
  function IntegerExp(x: int): int
  {
    if x >= 0 then ONE
    else if x <= -EXP_RANGE then 0
    else
      var o := x + EXP_RANGE;
      var lo, hi := Lut()[o / 256], Lut()[o / 256 + 1];
      lo + TDiv((hi - lo) * (o % 256), 256)
  }

  /** On non-positive arguments it is the interpolated exponential of the table. */
  lemma IntegerExpIs(x: int)
    requires x <= 0
    ensures IntegerExp(x) == ExpQ16(Lut(), x)
  {
    hide Lut;
    LutValid();
    if -EXP_RANGE < x < 0 {
      var t, o := Lut(), x + EXP_RANGE;
      MulMono(0, t[o / 256 + 1] - t[o / 256], o % 256);
    }
  }

  lemma IntegerExpRange(x: int)
    ensures 0 <= IntegerExp(x) <= ONE
    ensures x >= 0 ==> IntegerExp(x) == ONE
    ensures x <= -EXP_RANGE ==> IntegerExp(x) == 0
  {
    hide Lut;
    if x <= 0 {
      IntegerExpIs(x);
      LutValid();
      ExpRange(Lut(), x);
    }
  }

  lemma IntegerExpMono(x: int, y: int)
    requires x <= y
    ensures IntegerExp(x) <= IntegerExp(y)
  {
    IntegerExpRange(x);
    IntegerExpRange(y);
    hide IntegerExp;
    if y <= 0 {
      IntegerExpIs(x);
      IntegerExpIs(y);
      LutValid();
      ExpMono(Lut(), x, y);
    }
  }

  // ---- inverse square root -----------------------------------------------------

  function Floor2(x: int): (b: nat)
    requires x > 0
    ensures Pow2(b) <= x < Pow2(b + 1)
  {
    if x == 1 then 0 else 1 + Floor2(x / 2)
  }

  function AtLeastOne(y: int): int { if y <= 0 then 1 else y }

  /** The starting value: 2^24 over the nearest power of two of the root. */
  function FirstGuess(x: int): int
    requires x > 0
  {
    AtLeastOne(0x100_0000 / Pow2((Floor2(x) + 1) / 2))
  }

  /** One Newton step; None when a product leaves int64. */
  function NewtonStep(x: int, y: int): Option<int>
  {
    if !InI64(y * y) then None
    else
      var y2 := Shr(y * y, 16);
      if !InI64(x * y2) then None
      else
        var three := 3 * ONE - Shr(x * y2, 16);
        if !InI64(y * three) then None else Some(AtLeastOne(TDiv(y * three, 2 * ONE)))
  }

  function Newton(x: int, y: int, n: nat): Option<int>
    decreases n
  {
    if n == 0 then Some(y)
    else
      match NewtonStep(x, y)
      case None => None
      case Some(z) => Newton(x, z, n - 1)
  }

  function InverseSqrt(x: int): Option<int>
  {
    if x <= 0 then Some(100 * ONE) else Newton(x, FirstGuess(x), 5)
  }

  /** The loop of the source. */
  method IntegerIsqrt(x: int) returns (r: Option<int>)
    ensures r == InverseSqrt(x)
  {
    hide NewtonStep;
    if x <= 0 {
      return Some(100 * ONE);
    }
    var y := FirstGuess(x);
    for i := 0 to 5
      invariant InverseSqrt(x) == Newton(x, y, 5 - i)
    {
      var z := NewtonStep(x, y);
      if z.None? {
        return None;
      }
      y := z.value;
    }
    r := Some(y);
  }
}
