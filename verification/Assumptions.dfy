/** The standing assumptions can be met: a floating-point unit and a model that
    satisfy everything the engine theorems ask for. */
module Assumptions {
  import opened Arithmetic
  import Exponential
  import opened Float64
  import opened ModernOps
  import opened ModernModel
  import opened Selection
  import opened Generation
  import opened RunVerification
  import LegacyExp

  function Chain(v: seq<Pair>): SumTree
  {
    if v == [] then Empty else Node(Product(v[0]), Chain(v[1..]))
  }

  lemma {:induction false} ChainKeeps(v: seq<Pair>)
    ensures Leaves(Chain(v)) == v
  {
    if v != [] {
      ChainKeeps(v[1..]);
      assert v == [v[0]] + v[1..];
    }
  }

  function MatSum(a: Mat): nat { if a == [] then 0 else AbsSum(a[0]) + MatSum(a[1..]) }

  function StackSum(a: seq<Mat>): nat { if a == [] then 0 else MatSum(a[0]) + StackSum(a[1..]) }

  lemma {:induction false} MatSumCovers(a: Mat, i: nat)
    requires i < |a|
    ensures AbsSum(a[i]) <= MatSum(a)
  {
    if i > 0 { MatSumCovers(a[1..], i - 1); }
  }

  lemma {:induction false} StackSumCovers(a: seq<Mat>, h: nat, i: nat)
    requires h < |a| && i < |a[h]|
    ensures AbsSum(a[h][i]) <= StackSum(a)
  {
    if h > 0 {
      StackSumCovers(a[1..], h - 1, i);
    } else {
      MatSumCovers(a[0], i);
    }
  }

  /** Exact arithmetic, left to right, with a coarse estimate. */
  function ExactFpu(): Fpu
  {
    Fpu((x: int) => x, (v: seq<Pair>) => Chain(v), (a: seq<Mat>, m: int) => StackSum(a) * m)
  }

  lemma ExactFpuIsValid()
    ensures ValidFpu(ExactFpu())
  {
    var f := ExactFpu();
    forall v: seq<Pair>
      ensures multiset(Leaves(f.order(v))) == multiset(v)
    {
      ChainKeeps(v);
    }
    forall a: seq<Mat>, m: nat, h: int, i: int | 0 <= h < |a| && 0 <= i < |a[h]|
      ensures AbsSum(a[h][i]) * m <= f.estimate(a, m)
    {
      StackSumCovers(a, h, i);
      MulMono(AbsSum(a[h][i]), StackSum(a), m);
    }
  }

  function ZeroRows(rows: nat, cols: nat): Scaled
  {
    Scaled(seq(rows, _ => seq(cols, _ => 0)), seq(rows, _ => 0), seq(rows, _ => 16))
  }

  lemma ZeroRowsAreValid(rows: nat, cols: nat)
    ensures ValidScaled(ZeroRows(rows, cols), rows, cols)
  {
  }

  /** One layer, one head of two coordinates, two positions, all weights zero. */
  function SmallestModel(): Model
  {
    var gains := [ONE, ONE];
    var layer := Layer(true, gains, gains, ZeroRows(2, 2), ZeroRows(2, 2), ZeroRows(2, 2), ZeroRows(2, 2),
                       ZeroRows(1, 2), ZeroRows(1, 2), ZeroRows(2, 1));
    Model(1, 1, 2, 2, 1, 1, 2, 1, LegacyExp.Lut(), ZeroRows(1, 2), gains, [[ONE], [ONE]], [[0], [0]], [layer])
  }

  lemma SmallestModelIsValid()
    ensures ValidModel(SmallestModel())
  {
    hide LegacyExp.Lut;
    hide ValidScaled;
    hide ZeroRows;
    LegacyExp.LutValid();
    hide Exponential.ValidTable;
    ZeroRowsAreValid(1, 2);
    ZeroRowsAreValid(2, 2);
    ZeroRowsAreValid(2, 1);
  }

  /** A prompt of one token and a budget of one. */
  function SmallestCase(): Case { Case([0], 1, [], Greedy) }

  /** Generation and verification have something to work on. */
  lemma SmallestClaimIsValid()
    ensures ValidCase(SmallestModel(), SmallestCase())
    ensures ValidClaim(SmallestModel(), Claim(SmallestCase(), [0], [0], 0, 0))
  {
    hide LegacyExp.Lut;
    hide ZeroRows;
  }
}
