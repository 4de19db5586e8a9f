/** The head permutation that turns adjacent RoPE pairs into split halves, and
    what each operator makes of it. */
module RopeLayouts {
  import opened Arithmetic
  import opened LegacyAttention
  import opened LegacyOps
  import opened LegacyModel

  function Evens<T>(v: seq<T>): (r: seq<T>)
    ensures |r| == |v| / 2
  {
    seq(|v| / 2, i requires 0 <= i < |v| / 2 => v[2 * i])
  }

  function Odds<T>(v: seq<T>): (r: seq<T>)
    ensures |r| == |v| / 2
  {
    seq(|v| / 2, i requires 0 <= i < |v| / 2 => v[2 * i + 1])
  }

  /** One head: the first of every pair, then the second of every pair. */
  function PermHead<T>(v: seq<T>): (r: seq<T>)
    ensures |r| == 2 * (|v| / 2)
    ensures forall j | 0 <= j < |r| :: r[j] == v[Src(|v| / 2, j)]
  {
    Evens(v) + Odds(v)
  }

  /** Where coordinate `j` of a permuted head of `2 * h` comes from. */
  function Src(h: nat, j: nat): (i: nat)
    requires j < 2 * h
    ensures i < 2 * h
  {
    if j < h then 2 * j else 2 * (j - h) + 1
  }

  /** Every whole head of a row. */
  function PermHeads<T>(x: seq<T>, d: nat): (r: seq<T>)
    requires d > 0
  {
    if |x| < d then [] else PermHead(x[..d]) + PermHeads(x[d..], d)
  }

  /** The loop that rewrites a row of K. */
  method PermutedSplitHalf(row: Vec, d: nat) returns (out: Vec)
    requires d > 0
    ensures out == PermHeads(row, d)
  {
    hide PermHead;
    out := [];
    var rest := row;
    ghost var all := PermHeads(row, d);
    for h := 0 to |row| / d
      invariant h * d + |rest| == |row|
      invariant all == out + PermHeads(rest, d)
    {
      HeadRemains(|row|, h, d);
      var head := rest[..d];
      NextHead(out, rest, d);
      out := out + Evens(head);
      out := out + Odds(head);
      rest := rest[d..];
    }
    NothingLeft(|row|, |rest|, d);
  }

  lemma HeadRemains(n: nat, h: nat, d: nat)
    requires d > 0 && h < n / d
    ensures h * d + d <= n && (h + 1) * d == h * d + d
  {
    DivBounds(n, d);
    MulMono(h + 1, n / d, d);
    Distribute(h, 1, d);
  }

  lemma NothingLeft(n: nat, rest: nat, d: nat)
    requires d > 0 && n / d * d + rest == n
    ensures rest < d
  {
    DivBounds(n, d);
  }

  lemma NextHead(out: Vec, rest: Vec, d: nat)
    requires 0 < d <= |rest|
    ensures out + PermHeads(rest, d) == out + Evens(rest[..d]) + Odds(rest[..d]) + PermHeads(rest[d..], d)
  {
    var e, o, r := Evens(rest[..d]), Odds(rest[..d]), PermHeads(rest[d..], d);
    assert PermHeads(rest, d) == (e + o) + r;
    hide PermHeads;
    hide Evens;
    hide Odds;
    assert out + ((e + o) + r) == out + e + o + r;
  }

  function MapPerm(r: Option<Vec>, d: nat): Option<Vec>
    requires d > 0
  {
    if r.None? then None else Some(PermHeads(r.value, d))
  }

  lemma PermHeadsCons<T>(head: seq<T>, rest: seq<T>, d: nat)
    requires d > 0 && |head| == d
    ensures PermHeads(head + rest, d) == PermHead(head) + PermHeads(rest, d)
  {
    assert (head + rest)[..d] == head && (head + rest)[d..] == rest;
  }

  /** Permuting keeps the length of whole heads. */
  lemma {:induction false} PermHeadsLength<T>(x: seq<T>, n: nat, d: nat)
    requires d > 0 && d % 2 == 0 && |x| == n * d
    ensures |PermHeads(x, d)| == |x|
    decreases n
  {
    if n > 0 {
      Distribute(n - 1, 1, d);
      MulMono(0, n - 1, d);
      PermHeadsLength(x[d..], n - 1, d);
    }
  }

  // ---- rotation --------------------------------------------------------------

  lemma RopeAtPerm(v: Vec, p: Vec, a: Angles, j: nat)
    requires |v| % 2 == 0 && |a.cos| == |a.sin| == |v| / 2 && |p| == |v| && j < |v|
    requires forall k | 0 <= k < |p| :: p[k] == v[Src(|v| / 2, k)]
    ensures RopeAt(false, p, a, j) == RopeAt(true, v, a, Src(|v| / 2, j))
  {
    hide TurnFirst;
    hide TurnSecond;
    var h := |v| / 2;
    if j < h {
      assert p[j] == v[2 * j] && p[j + h] == v[2 * j + 1];
    } else {
      assert p[j - h] == v[2 * (j - h)] && p[j] == v[2 * (j - h) + 1];
    }
  }

  lemma RotatedPerm(v: Vec, a: Angles)
    requires |v| % 2 == 0 && |a.cos| == |a.sin| == |v| / 2
    ensures Rotated(false, PermHead(v), a) == PermHead(Rotated(true, v, a))
  {
    hide PermHead;
    hide RopeAt;
    var p := PermHead(v);
    var s, t := Rotated(false, p, a), PermHead(Rotated(true, v, a));
    forall j | 0 <= j < |s|
      ensures s[j] == t[j]
    {
      RopeAtPerm(v, p, a, j);
    }
  }

  lemma PairsPerm(v: Vec, a: Angles)
    requires |v| % 2 == 0 && |a.cos| == |a.sin| == |v| / 2
    ensures RopeOk(false, PermHead(v), a) <==> RopeOk(true, v, a)
  {
    hide PermHead;
    hide TurnOk;
    var p, h := PermHead(v), |v| / 2;
    forall i | 0 <= i < h
      ensures p[First(false, |p|, i)] == v[First(true, |v|, i)] && p[Second(false, |p|, i)] == v[Second(true, |v|, i)]
    {
      assert p[i] == v[Src(h, i)] && p[i + h] == v[Src(h, i + h)];
    }
  }

  /** Permuting after the interleaved rotation is the split-half rotation after
      permuting, and one refuses when the other does. */
  lemma RopePerm(v: Vec, pos: nat, t: Angles)
    requires |v| % 2 == 0
    ensures var r := Rope(true, v, pos, t);
      Rope(false, PermHead(v), pos, t) == if r.None? then None else Some(PermHead(r.value))
  {
    hide AnglesAt;
    hide Rotated;
    hide RopeOk;
    hide PermHead;
    var a := AnglesAt(t, pos, |v| / 2);
    if a.Some? {
      RotatedPerm(v, a.value);
      PairsPerm(v, a.value);
    }
  }

  /** The same for every head of a row. */
  lemma {:induction false} RopeHeadsPerm(x: Vec, n: nat, heads: nat, d: nat, pos: nat, t: Angles)
    requires d > 0 && d % 2 == 0 && |x| == n * d
    ensures RopeHeads(false, PermHeads(x, d), heads, d, pos, t) == MapPerm(RopeHeads(true, x, heads, d, pos, t), d)
    decreases heads
  {
    hide Rope;
    hide PermHead;
    if n == 0 {
      assert x == [];
      RopeNothing(false, heads, d, pos, t);
      RopeNothing(true, heads, d, pos, t);
    } else if heads > 0 {
      Distribute(n - 1, 1, d);
      MulMono(0, n - 1, d);
      var head, rest := x[..d], x[d..];
      var p := PermHeads(x, d);
      assert p == PermHead(head) + PermHeads(rest, d);
      assert p[..d] == PermHead(head) && p[d..] == PermHeads(rest, d);
      RopePerm(head, pos, t);
      RopeHeadsPerm(rest, n - 1, heads - 1, d, pos, t);
      var a, b := Rope(true, head, pos, t), RopeHeads(true, rest, heads - 1, d, pos, t);
      if a.Some? && b.Some? { PermHeadsCons(a.value, b.value, d); }
    }
  }

  /** Heads past the end of a row are empty and stay so. */
  lemma {:induction false} RopeNothing(interleaved: bool, heads: nat, d: nat, pos: nat, t: Angles)
    ensures RopeHeads(interleaved, [], heads, d, pos, t) == Some([])
  {
    if heads > 0 {
      var none: Vec := [];
      assert none[..0] == [] && none[0..] == [];
      assert Rope(interleaved, [], pos, t) == Some([]);
      RopeNothing(interleaved, heads - 1, d, pos, t);
    }
  }

  // ---- projection ------------------------------------------------------------

  function PermMatrix(w: Matrix, d: nat): Matrix
    requires d > 0
  {
    Matrix(PermHeads(w.rows, d), PermHeads(w.scales, d))
  }

  lemma MatmulConcat(r1: Mat, s1: Vec, r2: Mat, s2: Vec, x: Vec)
    requires |r1| == |s1| && |r2| == |s2|
    ensures var a, b := MatmulRows(Matrix(r1, s1), x), MatmulRows(Matrix(r2, s2), x);
      MatmulRows(Matrix(r1 + r2, s1 + s2), x) == if a.None? || b.None? then None else Some(a.value + b.value)
  {
    hide RowOk;
    hide RowValue;
    var u, t, w := Matrix(r1, s1), Matrix(r2, s2), Matrix(r1 + r2, s1 + s2);
    var n := |r1|;
    if RowsOk(w, x) {
      forall i | 0 <= i < |r1|
        ensures RowOk(r1[i], s1[i], x)
      {
        assert RowOk(w.rows[i], w.scales[i], x);
      }
      forall i | 0 <= i < |r2|
        ensures RowOk(r2[i], s2[i], x)
      {
        assert RowOk(w.rows[n + i], w.scales[n + i], x);
      }
      assert MatmulRows(w, x).value == MatmulRows(u, x).value + MatmulRows(t, x).value;
    } else {
      var i :| 0 <= i < |w.rows| && !RowOk(w.rows[i], w.scales[i], x);
      assert !RowOk(if i < n then r1[i] else r2[i - n], if i < n then s1[i] else s2[i - n], x);
    }
  }

  lemma MatmulHead(rows: Mat, scales: Vec, x: Vec)
    requires |rows| == |scales| && |rows| % 2 == 0
    ensures var a := MatmulRows(Matrix(rows, scales), x);
      MatmulRows(Matrix(PermHead(rows), PermHead(scales)), x) == if a.None? then None else Some(PermHead(a.value))
  {
    hide RowOk;
    hide RowValue;
    hide PermHead;
    var h := |rows| / 2;
    var w, p := Matrix(rows, scales), Matrix(PermHead(rows), PermHead(scales));
    RowsOkPerm(w, p, h, x);
    if RowsOk(w, x) {
      var a, b := MatmulRows(w, x).value, MatmulRows(p, x).value;
      var t := PermHead(a);
      forall j | 0 <= j < |b|
        ensures b[j] == t[j]
      {
        assert p.rows[j] == rows[Src(h, j)] && p.scales[j] == scales[Src(h, j)];
      }
      assert b == t;
    }
  }

  lemma RowsOkPerm(w: Matrix, p: Matrix, h: nat, x: Vec)
    requires |w.rows| == |w.scales| == |p.rows| == |p.scales| == 2 * h
    requires forall j | 0 <= j < 2 * h :: p.rows[j] == w.rows[Src(h, j)] && p.scales[j] == w.scales[Src(h, j)]
    ensures RowsOk(p, x) <==> RowsOk(w, x)
  {
    hide RowOk;
    if RowsOk(p, x) {
      forall i | 0 <= i < 2 * h
        ensures RowOk(w.rows[i], w.scales[i], x)
      {
        var j := if i % 2 == 0 then i / 2 else h + i / 2;
        assert Src(h, j) == i;
        assert RowOk(p.rows[j], p.scales[j], x);
      }
    }
  }

  /** Permuting the rows permutes the projection. */
  lemma {:induction false} MatmulPerm(rows: Mat, scales: Vec, heads: nat, d: nat, x: Vec)
    requires d > 0 && d % 2 == 0 && |rows| == |scales| == heads * d
    ensures MatmulRows(PermMatrix(Matrix(rows, scales), d), x) == MapPerm(MatmulRows(Matrix(rows, scales), x), d)
    decreases heads
  {
    hide MatmulRows;
    hide PermHead;
    if heads == 0 {
      MatmulNothing(x);
      assert rows == [] && scales == [];
    } else {
      Distribute(heads - 1, 1, d);
      MulMono(0, heads - 1, d);
      var r1, s1, r2, s2 := rows[..d], scales[..d], rows[d..], scales[d..];
      MatmulHead(r1, s1, x);
      MatmulPerm(r2, s2, heads - 1, d, x);
      assert r1 + r2 == rows && s1 + s2 == scales;
      MatmulConcat(r1, s1, r2, s2, x);
      PermHeadsLength(r2, heads - 1, d);
      PermHeadsLength(s2, heads - 1, d);
      MatmulConcat(PermHead(r1), PermHead(s1), PermHeads(r2, d), PermHeads(s2, d), x);
      var a, b := MatmulRows(Matrix(r1, s1), x), MatmulRows(Matrix(r2, s2), x);
      if a.Some? && b.Some? { PermHeadsCons(a.value, b.value, d); }
    }
  }

  lemma MatmulNothing(x: Vec)
    ensures MatmulRows(Matrix([], []), x) == Some([])
  {
  }

  // ---- attention -------------------------------------------------------------

  lemma {:induction false} DotPairs(a: Vec, b: Vec)
    requires |a| == |b| && |a| % 2 == 0
    ensures Dot(a, b) == Dot(Evens(a), Evens(b)) + Dot(Odds(a), Odds(b))
    ensures AbsDot(a, b) == AbsDot(Evens(a), Evens(b)) + AbsDot(Odds(a), Odds(b))
  {
    if a != [] {
      DotPairs(a[2..], b[2..]);
      PairHead(a);
      PairHead(b);
      hide Evens;
      hide Odds;
      assert a[1..][1..] == a[2..] && b[1..][1..] == b[2..];
      DotCons(a[0], Evens(a[2..]), b[0], Evens(b[2..]));
      DotCons(a[1], Odds(a[2..]), b[1], Odds(b[2..]));
    }
  }

  lemma PairHead(v: Vec)
    requires |v| >= 2
    ensures Evens(v) == [v[0]] + Evens(v[2..])
    ensures Odds(v) == [v[1]] + Odds(v[2..])
  {
  }

  lemma DotCons(x: int, a: Vec, y: int, b: Vec)
    ensures Dot([x] + a, [y] + b) == x * y + Dot(a, b)
    ensures AbsDot([x] + a, [y] + b) == Abs(x * y) + AbsDot(a, b)
  {
    assert ([x] + a)[1..] == a && ([y] + b)[1..] == b;
  }

  lemma {:induction false} AbsDotAppend(a: Vec, b: Vec, c: Vec, d: Vec)
    requires |a| == |b|
    ensures AbsDot(a + c, b + d) == AbsDot(a, b) + AbsDot(c, d)
  {
    if a == [] {
      assert a + c == c && b + d == d;
    } else {
      assert (a + c)[1..] == a[1..] + c && (b + d)[1..] == b[1..] + d;
      AbsDotAppend(a[1..], b[1..], c, d);
    }
  }

  /** A dot product does not see a permutation of both sides. */
  lemma DotPerm(a: Vec, b: Vec)
    requires |a| == |b| && |a| % 2 == 0
    ensures Dot(PermHead(a), PermHead(b)) == Dot(a, b)
    ensures AbsDot(PermHead(a), PermHead(b)) == AbsDot(a, b)
  {
    hide Dot;
    hide AbsDot;
    DotPairs(a, b);
    DotAppend(Evens(a), Evens(b), Odds(a), Odds(b));
    AbsDotAppend(Evens(a), Evens(b), Odds(a), Odds(b));
  }

  lemma HeadDotsPerm(a: Vec, b: Vec)
    requires |a| % 2 == 0 && |b| % 2 == 0 && (|a| == |b| || a == [] || b == [])
    ensures Dot(PermHead(a), PermHead(b)) == Dot(a, b)
    ensures AbsDot(PermHead(a), PermHead(b)) == AbsDot(a, b)
  {
    if |a| == |b| { DotPerm(a, b); }
  }

  ghost predicate SameDots(q: Vec, keys: Mat, q': Vec, keys': Mat)
  {
    && |q| == |q'| && |keys| == |keys'|
    && forall j | 0 <= j < |keys| :: Dot(q', keys'[j]) == Dot(q, keys[j]) && AbsDot(q', keys'[j]) == AbsDot(q, keys[j])
  }

  lemma {:induction false} OnlineSeesDots(q: Vec, keys: Mat, q': Vec, keys': Mat, values: Mat, scale: int, n: nat)
    requires SameDots(q, keys, q', keys') && n <= |keys| && n <= |values|
    ensures OnlineRun(q', keys', values, scale, n) == OnlineRun(q, keys, values, scale, n)
  {
    hide Dot;
    hide AbsDot;
    hide Rescaled;
    hide Added;
    hide Shr;
    if n > 0 { OnlineSeesDots(q, keys, q', keys', values, scale, n - 1); }
  }

  lemma {:induction false} HeadOfPerm(x: Vec, n: nat, h: nat, d: nat)
    requires d > 0 && d % 2 == 0 && |x| == n * d
    ensures |HeadOf(x, h, d)| == if h < n then d else 0
    ensures HeadOf(PermHeads(x, d), h, d) == PermHead(HeadOf(x, h, d))
    decreases n
  {
    hide PermHead;
    PermHeadsLength(x, n, d);
    if h >= n {
      MulMono(n, h, d);
    } else {
      Distribute(n - 1, 1, d);
      MulMono(h, n - 1, d);
      MulMono(0, h, d);
      var p, rest := PermHeads(x, d), x[d..];
      assert p == PermHead(x[..d]) + PermHeads(rest, d);
      hide PermHeads;
      if h > 0 {
        HeadOfPerm(rest, n - 1, h - 1, d);
        HeadOfTail(x, h, d);
        HeadOfTail(p, h, d);
        assert p[d..] == PermHeads(rest, d);
      } else {
        assert p[..d] == PermHead(x[..d]);
      }
    }
  }

  lemma HeadOfTail(x: Vec, h: nat, d: nat)
    requires 0 < h && h * d + d <= |x|
    ensures d <= |x| && HeadOf(x, h, d) == HeadOf(x[d..], h - 1, d)
  {
    Distribute(h - 1, 1, d);
    MulMono(0, h - 1, d);
    var a := (h - 1) * d;
    assert h * d == a + d;
    assert x[d..][a..a + d] == x[a + d..a + d + d];
  }

  function PermRows(rows: Mat, d: nat): (r: Mat)
    requires d > 0
    ensures |r| == |rows|
  {
    seq(|rows|, j requires 0 <= j < |rows| => PermHeads(rows[j], d))
  }

  predicate WholeRows(rows: Mat, n: nat) { forall j | 0 <= j < |rows| :: |rows[j]| == n }

  /** One head of attention is unchanged when Q and K are permuted alike. */
  lemma AttentionHeadPerm(q: Vec, nq: nat, h: nat, keys: Mat, nk: nat, g: nat, values: Mat, d: nat, scale: int)
    requires d > 0 && d % 2 == 0 && |q| == nq * d
    requires WholeRows(keys, nk * d)
    ensures AttentionHead(HeadOf(PermHeads(q, d), h, d), HeadRows(PermRows(keys, d), g, d), values, scale)
         == AttentionHead(HeadOf(q, h, d), HeadRows(keys, g, d), values, scale)
  {
    hide HeadOf;
    hide PermHeads;
    hide PermHead;
    hide OnlineRun;
    var qh, qp := HeadOf(q, h, d), HeadOf(PermHeads(q, d), h, d);
    var ks, kp := HeadRows(keys, g, d), HeadRows(PermRows(keys, d), g, d);
    HeadOfPerm(q, nq, h, d);
    forall j | 0 <= j < |keys|
      ensures Dot(qp, kp[j]) == Dot(qh, ks[j]) && AbsDot(qp, kp[j]) == AbsDot(qh, ks[j])
    {
      HeadOfPerm(keys[j], nk, g, d);
      HeadDotsPerm(qh, ks[j]);
    }
    OnlineSeesDots(qh, ks, qp, kp, values, scale, Min(|keys|, |values|));
  }
}
