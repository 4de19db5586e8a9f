/** Integer primitives shared by both reference executors: refusal, floor
    shifts, truncating division, exact sums and dot products, and the handful
    of division laws the proofs rest on. */
module Arithmetic {

  datatype Option<+T> = None | Some(value: T) {
    predicate IsFailure() { None? }

    function PropagateFailure<U>(): Option<U>
      requires None?
    {
      None
    }

    function Extract(): T
      requires Some?
    {
      value
    }
  }

  type Vec = seq<int>
  type Mat = seq<Vec>

  const ONE: int := 0x1_0000
  const TWO31: int := 0x8000_0000
  const TWO32: int := 0x1_0000_0000
  const TWO53: int := 0x20_0000_0000_0000
  const LIM62: int := 0x4000_0000_0000_0000
  const TWO63: int := 0x8000_0000_0000_0000

  predicate InI64(x: int) { -TWO63 <= x < TWO63 }

  predicate InI32(x: int) { -TWO31 <= x < TWO31 }

  function Abs(x: int): nat { if x < 0 then -x else x }

  function Min(a: int, b: int): int { if a <= b then a else b }

  function Max(a: int, b: int): int { if a <= b then b else a }

  function Pow2(n: nat): (r: nat)
    ensures r > 0
  {
    if n == 0 then 1 else 2 * Pow2(n - 1)
  }

  /** Arithmetic right shift: floor division by a power of two. */
  function Shr(a: int, s: nat): int { a / Pow2(s) }

  /** Division truncating toward zero, for a positive divisor. */
  function TDiv(a: int, b: int): int
    requires b > 0
  {
    if a >= 0 then a / b else -((-a) / b)
  }

  /** Exact integer square root. */
  function Isqrt(n: nat): (r: nat)
    ensures r * r <= n < (r + 1) * (r + 1)
  {
    if n == 0 then 0
    else
      var m := Isqrt(n / 4);
      IsqrtStep(n, m);
      if (2 * m + 1) * (2 * m + 1) <= n then 2 * m + 1 else 2 * m
  }

  lemma IsqrtStep(n: nat, m: nat)
    requires m * m <= n / 4 < (m + 1) * (m + 1)
    ensures (2 * m) * (2 * m) <= n < (2 * m + 2) * (2 * m + 2)
  {
    assert (2 * m) * (2 * m) == 4 * (m * m);
    assert (2 * m + 2) * (2 * m + 2) == 4 * ((m + 1) * (m + 1));
  }

  function Sum(v: Vec): int
  {
    if v == [] then 0 else v[0] + Sum(v[1..])
  }

  function AbsSum(v: Vec): nat
  {
    if v == [] then 0 else Abs(v[0]) + AbsSum(v[1..])
  }

  /** The sum of products of two vectors, stopping at the shorter one. */
  function Dot(a: Vec, b: Vec): int
  {
    if a == [] || b == [] then 0 else a[0] * b[0] + Dot(a[1..], b[1..])
  }

  /** The sum of the magnitudes of the same products. */
  function AbsDot(a: Vec, b: Vec): nat
  {
    if a == [] || b == [] then 0 else Abs(a[0] * b[0]) + AbsDot(a[1..], b[1..])
  }

  function Zeros(n: nat): (z: Vec)
    ensures |z| == n && forall i | 0 <= i < n :: z[i] == 0
  {
    seq(n, _ => 0)
  }

  predicate Bounded(v: Vec, lim: int)
  {
    forall i | 0 <= i < |v| :: -lim <= v[i] <= lim
  }

  // ---- powers of two ---------------------------------------------------

  lemma {:induction false} Pow2Add(a: nat, b: nat)
    ensures Pow2(a + b) == Pow2(a) * Pow2(b)
  {
    if a > 0 {
      Pow2Add(a - 1, b);
      assert Pow2(a + b) == 2 * Pow2(a - 1 + b);
    }
  }

  lemma Pow2Double(n: nat)
    requires n >= 1
    ensures Pow2(n) == 2 * Pow2(n - 1)
  {
  }

  lemma Pow2Mono(a: nat, b: nat)
    requires a <= b
    ensures Pow2(a) <= Pow2(b)
  {
    Pow2Add(a, b - a);
    MulMono(1, Pow2(b - a), Pow2(a));
  }

  lemma Pow2Small()
    ensures Pow2(8) == 0x100
    ensures Pow2(16) == ONE
    ensures Pow2(20) == 0x10_0000
    ensures Pow2(21) == 0x20_0000
    ensures Pow2(29) == 0x2000_0000
    ensures Pow2(30) == 0x4000_0000
    ensures Pow2(31) == TWO31
    ensures Pow2(32) == TWO32
  {
    var p8 := Pow2(8);
    Pow2Add(8, 8);
    Pow2Add(16, 4);
    Pow2Add(16, 5);
    Pow2Add(16, 13);
  }

  lemma Pow2Constants()
    ensures Pow2(8) == 0x100
    ensures Pow2(16) == ONE
    ensures Pow2(20) == 0x10_0000
    ensures Pow2(21) == 0x20_0000
    ensures Pow2(29) == 0x2000_0000
    ensures Pow2(30) == 0x4000_0000
    ensures Pow2(31) == TWO31
    ensures Pow2(32) == TWO32
    ensures Pow2(37) == 0x20_0000_0000
    ensures Pow2(44) == 0x1000_0000_0000
    ensures Pow2(46) == 0x4000_0000_0000
    ensures Pow2(52) == 0x10_0000_0000_0000
    ensures Pow2(53) == TWO53
    ensures Pow2(61) == 0x2000_0000_0000_0000
    ensures Pow2(62) == LIM62
    ensures Pow2(63) == TWO63
  {
    Pow2Small();
    hide Pow2;
    Pow2Add(16, 21);
    Pow2Add(32, 21);
    Pow2Add(31, 21);
    Pow2Add(31, 30);
    Pow2Add(31, 31);
    Pow2Add(31, 32);
    Pow2Add(30, 16);
    Pow2Add(8, 8);
    Pow2Add(8, 29);
    Pow44();
  }

  lemma Pow44()
    ensures Pow2(44) == 0x1000_0000_0000
  {
    Pow2Small();
    Pow2Add(32, 12);
  }

  // ---- multiplication and division ---------------------------------------

  lemma MulMono(a: int, b: int, c: int)
    requires a <= b && 0 <= c
    ensures a * c <= b * c
  {
  }

  lemma MulStrict(a: int, b: int, c: int)
    requires a < b && c > 0
    ensures a * c < b * c
  {
  }

  lemma MulBound(a: int, b: int, x: int, y: int)
    requires -x <= a <= x && -y <= b <= y
    ensures -(x * y) <= a * b <= x * y
  {
    assert x >= 0 && y >= 0;
    if a >= 0 {
      MulMono(a, x, y);
      MulMono(-y, b, a);
      MulMono(b, y, a);
    } else {
      MulMono(-a, x, y);
      MulMono(-y, b, -a);
      MulMono(b, y, -a);
    }
  }

  lemma AbsMul(a: int, b: int)
    ensures Abs(a * b) == Abs(a) * Abs(b)
  {
  }

  lemma AbsMulLe(a: int, b: int, bmax: int)
    requires Abs(b) <= bmax
    ensures Abs(a * b) <= Abs(a) * bmax
  {
    AbsMul(a, b);
    MulMono(Abs(b), bmax, Abs(a));
  }

  lemma AbsMulLt(x: int, p: int, w: int)
    requires Abs(x) < p && w > 0
    ensures Abs(x * w) < p * w
  {
    AbsMul(x, w);
    MulMono(Abs(x) + 1, p, w);
    Distribute(Abs(x), 1, w);
  }

  lemma Distribute(a: int, b: int, c: int)
    ensures (a + b) * c == a * c + b * c
  {
  }

  /** Uniqueness of the floor quotient. */
  lemma DivUnique(x: int, d: int, q: int)
    requires d > 0 && q * d <= x < q * d + d
    ensures x / d == q
  {
    var r := x - q * d;
    assert x == q * d + r;
    DivOfMultiple(q, r, d);
  }

  lemma DivOfMultiple(q: int, r: int, d: int)
    requires d > 0
    ensures (q * d + r) / d == q + r / d
  {
    var x := q * d + r;
    assert x == (x / d) * d + x % d;
    assert r == (r / d) * d + r % d;
    var e := x / d - q - r / d;
    assert e * d == r % d - x % d by {
      assert e * d == (x / d) * d - q * d - (r / d) * d;
    }
    assert -d < e * d < d;
    if e >= 1 { MulMono(1, e, d); }
    if e <= -1 { MulMono(e, -1, d); }
  }

  lemma DivBounds(x: int, d: int)
    requires d > 0
    ensures (x / d) * d <= x < (x / d) * d + d
  {
  }

  lemma DivMono(x: int, y: int, d: int)
    requires d > 0 && x <= y
    ensures x / d <= y / d
  {
    DivBounds(x, d);
    DivBounds(y, d);
    if x / d >= y / d + 1 { MulMono(y / d + 1, x / d, d); }
  }

  /** A lower and an upper bound survive floor division. */
  lemma DivRange(x: int, lo: int, hi: int, d: int)
    requires d > 0 && lo * d <= x < hi * d
    ensures lo <= x / d < hi
  {
    DivBounds(x, d);
    if x / d < lo { MulMono(x / d + 1, lo, d); }
    if x / d >= hi { MulMono(hi, x / d, d); }
  }

  lemma DivDiv(x: int, c: int, d: int)
    requires c > 0 && d > 0
    ensures c * d > 0
    ensures (x / c) / d == x / (c * d)
  {
    MulMono(1, c, d);
    var y := x / c;
    var z := y / d;
    DivBounds(x, c);
    DivBounds(y, d);
    MulMono(z * d, y, c);
    MulMono(y + 1, z * d + d, c);
    assert (z * d) * c == z * (c * d);
    assert (z * d + d) * c == z * (c * d) + c * d;
    DivUnique(x, c * d, z);
  }

  /** Thing h is in group q when things are dealt in groups of g. */
  predicate InGroup(h: nat, q: nat, g: nat) { q * g <= h < q * g + g }

  /** h * k / n is the group of h when n things are dealt to k groups. */
  lemma GroupOf(h: nat, k: nat, n: nat, q: nat)
    requires k > 0 && n > 0 && n % k == 0
    ensures (h * k) / n == q <==> InGroup(h, q, n / k)
  {
    var g := n / k;
    assert n == g * k;
    GroupBounds(h, k, g);
    if InGroup(h, q, g) { OneGroup(h, q, (h * k) / n, g); }
  }

  lemma OneGroup(h: nat, q: nat, r: nat, g: nat)
    requires InGroup(h, q, g) && InGroup(h, r, g)
    ensures q == r
  {
    if q < r { MulMono(q + 1, r, g); }
    if r < q { MulMono(r + 1, q, g); }
  }

  lemma GroupBounds(h: nat, k: nat, g: nat)
    requires k > 0 && g * k > 0
    ensures var r := (h * k) / (g * k); 0 <= r && InGroup(h, r, g)
  {
    var r := (h * k) / (g * k);
    DivMono(0, h * k, g * k);
    DivBounds(h * k, g * k);
    assert r * (g * k) == (r * g) * k;
    if h < r * g { MulMono(h + 1, r * g, k); }
    if h >= r * g + g {
      MulMono(r * g + g, h, k);
      Distribute(r * g, g, k);
    }
  }

  /** Truncating division keeps a number between bounds scaled by the divisor. */
  lemma TDivRange(x: int, lo: int, hi: int, d: int)
    requires d > 0 && lo * d <= x <= hi * d
    ensures lo <= TDiv(x, d) <= hi
  {
    if x >= 0 {
      assert x < (hi + 1) * d;
      DivRange(x, lo, hi + 1, d);
    } else {
      assert (-hi) * d <= -x < (-lo + 1) * d;
      DivRange(-x, -hi, -lo + 1, d);
    }
  }

  // ---- sums and dot products --------------------------------------------

  lemma {:induction false} SumAppend(u: Vec, v: Vec)
    ensures Sum(u + v) == Sum(u) + Sum(v)
  {
    if u == [] {
      assert u + v == v;
    } else {
      assert (u + v)[1..] == u[1..] + v;
      SumAppend(u[1..], v);
    }
  }

  lemma {:induction false} DotAppend(a: Vec, b: Vec, c: Vec, d: Vec)
    requires |a| == |b|
    ensures Dot(a + c, b + d) == Dot(a, b) + Dot(c, d)
  {
    if a == [] {
      assert a + c == c && b + d == d;
    } else {
      assert (a + c)[1..] == a[1..] + c && (b + d)[1..] == b[1..] + d;
      DotAppend(a[1..], b[1..], c, d);
    }
  }

  lemma {:induction false} DotBound(a: Vec, b: Vec)
    ensures Abs(Dot(a, b)) <= AbsDot(a, b)
  {
    if a != [] && b != [] { DotBound(a[1..], b[1..]); }
  }

  /** sum |a_i b_i| <= (sum |a_i|) * max |b|. */
  lemma {:induction false} AbsDotBound(a: Vec, b: Vec, bmax: nat)
    requires Bounded(b, bmax)
    ensures AbsDot(a, b) <= AbsSum(a) * bmax
  {
    if a == [] {
    } else if b == [] {
      MulMono(0, AbsSum(a), bmax);
    } else {
      AbsDotBound(a[1..], b[1..], bmax);
      AbsMulLe(a[0], b[0], bmax);
      Distribute(Abs(a[0]), AbsSum(a[1..]), bmax);
    }
  }

  lemma {:induction false} AbsSumMember(v: Vec, i: nat)
    requires i < |v|
    ensures Abs(v[i]) <= AbsSum(v)
  {
    if i > 0 { AbsSumMember(v[1..], i - 1); }
  }

  lemma {:induction false} DotZeros(a: Vec, b: Vec)
    requires forall i | 0 <= i < |a| :: a[i] == 0
    ensures Dot(a, b) == 0
  {
    if a != [] && b != [] { DotZeros(a[1..], b[1..]); }
  }

  lemma {:induction false} SumZeros(a: Vec)
    requires forall i | 0 <= i < |a| :: a[i] == 0
    ensures Sum(a) == 0
  {
    if a != [] { SumZeros(a[1..]); }
  }
}
