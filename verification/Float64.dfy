/** Integer-valued float64 matrix products. Nothing is assumed about rounding
    or about the order in which a BLAS adds the products, except that integers
    below 2^53 in magnitude are represented exactly (IEEE 754 binary64). */
module Float64 {
  import opened Arithmetic

  type Pair = (int, int)

  /** One way of adding up products: a product rounded on its own, a product
      fused into a running sum and rounded once, or two sums added. */
  datatype SumTree = Empty | Product(p: Pair) | Fused(acc: SumTree, p: Pair) | Node(left: SumTree, right: SumTree)

  function Leaves(t: SumTree): seq<Pair>
  {
    match t
    case Empty => []
    case Product(p) => [p]
    case Fused(acc, p) => Leaves(acc) + [p]
    case Node(l, r) => Leaves(l) + Leaves(r)
  }

  /** A floating-point unit: its rounding of integers, the order and grouping
      it picks for a list of products, and its estimate of the largest row sum of
      magnitudes of a stack of matrices times a bound on the other operand. */
  datatype Fpu = Fpu(rnd: int -> int, order: seq<Pair> -> SumTree, estimate: (seq<Mat>, int) -> int)

  ghost predicate ValidFpu(f: Fpu)
  {
    && (forall x: int :: Abs(x) < TWO53 ==> f.rnd(x) == x)
    && (forall v: seq<Pair> :: multiset(Leaves(f.order(v))) == multiset(v))
    && (forall a: seq<Mat>, m: nat, h: int, i: int ::
          0 <= h < |a| && 0 <= i < |a[h]| ==> AbsSum(a[h][i]) * m <= f.estimate(a, m))
  }

  /** The exact product of two operands that were converted to float64. */
  function Converted(f: Fpu, p: Pair): int { f.rnd(p.0) * f.rnd(p.1) }

  function FloatSum(f: Fpu, t: SumTree): int
  {
    match t
    case Empty => 0
    case Product(p) => f.rnd(Converted(f, p))
    case Fused(acc, p) => f.rnd(FloatSum(f, acc) + Converted(f, p))
    case Node(l, r) => f.rnd(FloatSum(f, l) + FloatSum(f, r))
  }

  function Pairs(a: Vec, b: Vec): seq<Pair>
  {
    if a == [] || b == [] then [] else [(a[0], b[0])] + Pairs(a[1..], b[1..])
  }

  function Products(v: seq<Pair>): (r: Vec)
    ensures |r| == |v|
  {
    seq(|v|, i requires 0 <= i < |v| => v[i].0 * v[i].1)
  }

  function BlasDot(f: Fpu, a: Vec, b: Vec): int
  {
    FloatSum(f, f.order(Pairs(a, b)))
  }

  lemma {:induction false} AbsSumAppend(u: Vec, v: Vec)
    ensures AbsSum(u + v) == AbsSum(u) + AbsSum(v)
  {
    if u == [] {
      assert u + v == v;
    } else {
      assert (u + v)[1..] == u[1..] + v;
      AbsSumAppend(u[1..], v);
    }
  }

  lemma {:induction false} SumWithin(v: Vec)
    ensures Abs(Sum(v)) <= AbsSum(v)
  {
    if v != [] { SumWithin(v[1..]); }
  }

  lemma FactorWithin(a: int, b: int)
    ensures b == 0 || Abs(a) <= Abs(a * b)
  {
    AbsMul(a, b);
    if b != 0 { MulMono(1, Abs(b), Abs(a)); }
  }

  lemma ConvertedExact(f: Fpu, p: Pair)
    requires ValidFpu(f) && Abs(p.0 * p.1) < TWO53
    ensures Converted(f, p) == p.0 * p.1
  {
    FactorWithin(p.0, p.1);
    FactorWithin(p.1, p.0);
  }

  lemma ProductsAppend(u: seq<Pair>, v: seq<Pair>)
    ensures Sum(Products(u + v)) == Sum(Products(u)) + Sum(Products(v))
    ensures AbsSum(Products(u + v)) == AbsSum(Products(u)) + AbsSum(Products(v))
  {
    assert Products(u + v) == Products(u) + Products(v);
    SumAppend(Products(u), Products(v));
    AbsSumAppend(Products(u), Products(v));
  }

  lemma OneProduct(p: Pair)
    ensures Sum(Products([p])) == p.0 * p.1 && AbsSum(Products([p])) == Abs(p.0 * p.1)
  {
    assert Products([p]) == [p.0 * p.1];
    assert [p.0 * p.1][1..] == [];
  }

  /** Every partial sum of every association is exact, plain or fused. */
  lemma {:induction false} FloatSumExact(f: Fpu, t: SumTree)
    requires ValidFpu(f) && AbsSum(Products(Leaves(t))) < TWO53
    ensures FloatSum(f, t) == Sum(Products(Leaves(t)))
  {
    hide Products;
    hide Converted;
    match t
    case Empty =>
      assert Sum(Products([])) == 0 by { assert Products([]) == []; }
    case Product(p) =>
      OneProduct(p);
      ConvertedExact(f, p);
    case Fused(acc, p) =>
      ProductsAppend(Leaves(acc), [p]);
      OneProduct(p);
      FloatSumExact(f, acc);
      ConvertedExact(f, p);
      SumWithin(Products(Leaves(t)));
    case Node(l, r) =>
      ProductsAppend(Leaves(l), Leaves(r));
      FloatSumExact(f, l);
      FloatSumExact(f, r);
      SumWithin(Products(Leaves(t)));
  }

  lemma RemoveProduct(v: seq<Pair>, k: nat)
    requires k < |v|
    ensures var w := v[..k] + v[k + 1..];
      && multiset(v) == multiset{v[k]} + multiset(w)
      && Sum(Products(v)) == v[k].0 * v[k].1 + Sum(Products(w))
      && AbsSum(Products(v)) == Abs(v[k].0 * v[k].1) + AbsSum(Products(w))
  {
    hide Products;
    assert v == (v[..k] + [v[k]]) + v[k + 1..];
    ProductsAppend(v[..k] + [v[k]], v[k + 1..]);
    ProductsAppend(v[..k], [v[k]]);
    ProductsAppend(v[..k], v[k + 1..]);
    OneProduct(v[k]);
  }

  lemma MultisetCancel(x: Pair, a: multiset<Pair>, b: multiset<Pair>)
    requires multiset{x} + a == multiset{x} + b
    ensures a == b
  {
    assert a == (multiset{x} + a) - multiset{x};
    assert b == (multiset{x} + b) - multiset{x};
  }

  /** The order of the products changes neither sum. */
  lemma {:induction false} ProductsPermutation(u: seq<Pair>, v: seq<Pair>)
    requires multiset(u) == multiset(v)
    ensures Sum(Products(u)) == Sum(Products(v)) && AbsSum(Products(u)) == AbsSum(Products(v))
    decreases |u|
  {
    hide Products;
    if u == [] {
      assert |multiset(v)| == 0;
    } else {
      assert u[0] in multiset(v);
      var k :| 0 <= k < |v| && v[k] == u[0];
      RemoveProduct(u, 0);
      RemoveProduct(v, k);
      var u', v' := u[..0] + u[1..], v[..k] + v[k + 1..];
      MultisetCancel(u[0], multiset(u'), multiset(v'));
      ProductsPermutation(u', v');
    }
  }

  lemma {:induction false} PairsAreDot(a: Vec, b: Vec)
    ensures Sum(Products(Pairs(a, b))) == Dot(a, b) && AbsSum(Products(Pairs(a, b))) == AbsDot(a, b)
  {
    hide Products;
    if a == [] || b == [] {
      assert Products([]) == [];
    } else {
      PairsAreDot(a[1..], b[1..]);
      ProductsAppend([(a[0], b[0])], Pairs(a[1..], b[1..]));
      OneProduct((a[0], b[0]));
    }
  }

  /** A float64 dot product is exact whenever the magnitudes of its products
      sum below 2^53, whatever the rounding, the order of summation and the use
      of fused multiply-add. */
  lemma BlasDotExact(f: Fpu, a: Vec, b: Vec)
    requires ValidFpu(f) && AbsDot(a, b) < TWO53
    ensures BlasDot(f, a, b) == Dot(a, b)
  {
    hide Products;
    hide FloatSum;
    var v := Pairs(a, b);
    PairsAreDot(a, b);
    assert multiset(Leaves(f.order(v))) == multiset(v);
    ProductsPermutation(Leaves(f.order(v)), v);
    FloatSumExact(f, f.order(v));
  }
}
