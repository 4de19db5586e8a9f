/** Batched causal attention: all rows of a sequence at once, future positions
    masked out, against the plain operator on every prefix. */
module FastAttention {
  import opened Arithmetic
  import opened Exponential
  import opened Int64Lanes
  import opened Float64
  import opened ExactMatmul
  import opened ModernOps

  const SCORE_LIMIT: int := 0x2_0000_0000_0000

  // ---- one row under the causal mask ---------------------------------------

  /** Scores of the positions up to `i`, the rest replaced by the smallest int64. */
  function Masked(score: Vec, i: nat): Vec
  {
    seq(|score|, j requires 0 <= j < |score| => if j <= i then score[j] else -TWO63)
  }

  /** Weights of the positions up to `i`; masked ones get exp(-16), which is 0. */
  function MaskedWeights(t: Vec, score: Vec, i: nat, top: int): Vec
    requires |t| == 4097 && Bounded(score, SCORE_LIMIT) && Abs(top) <= SCORE_LIMIT
    requires forall j | 0 <= j < |score| && j <= i :: score[j] <= top
  {
    seq(|score|, j requires 0 <= j < |score| =>
      ExpQ16(t, if j <= i then Fit(score[j] - top) else -EXP_RANGE))
  }

  lemma MaskedTop(score: Vec, i: nat)
    requires i < |score| && Bounded(score, SCORE_LIMIT)
    ensures MaxOf(Masked(score, i)) == MaxOf(score[..i + 1])
    ensures forall j | 0 <= j <= i :: score[j] <= MaxOf(Masked(score, i))
    ensures Abs(MaxOf(Masked(score, i))) <= SCORE_LIMIT
  {
    var full, prefix := Masked(score, i), score[..i + 1];
    var a, b := MaxOf(full), MaxOf(prefix);
    assert prefix[0] == full[0] == score[0];
    var j :| 0 <= j < |full| && full[j] == a;
    assert j <= i && prefix[j] == a;
    var k :| 0 <= k < |prefix| && prefix[k] == b;
    assert full[k] == b;
    forall n | 0 <= n <= i ensures score[n] <= a { assert full[n] == score[n]; }
  }

  lemma MaskedIsPrefix(t: Vec, score: Vec, i: nat)
    requires ValidTable(t) && i < |score| && Bounded(score, SCORE_LIMIT)
    requires forall j | 0 <= j <= i :: score[j] <= MaxOf(score[..i + 1])
    requires Abs(MaxOf(score[..i + 1])) <= SCORE_LIMIT
    ensures var top := MaxOf(score[..i + 1]);
      MaskedWeights(t, score, i, top) == Weights(t, score[..i + 1], top) + Zeros(|score| - i - 1)
  {
  }

  /** The mask leaves the sum and every weighted sum of the prefix. */
  lemma MaskedSums(w: Vec, n: nat, c: Vec)
    requires |c| == |w| + n
    ensures Sum(w + Zeros(n)) == Sum(w)
    ensures Dot(w + Zeros(n), c) == Dot(w, c[..|w|])
  {
    hide Sum;
    hide Dot;
    SumAppend(w, Zeros(n));
    SumZeros(Zeros(n));
    assert c == c[..|w|] + c[|w|..];
    DotAppend(w, c[..|w|], Zeros(n), c[|w|..]);
    DotZeros(Zeros(n), c[|w|..]);
  }

  lemma ScoreBound(dot: int, lam: int)
    requires InI64(dot) && 0 <= lam < TWO31
    ensures MulU31Shr(dot, lam, 46).Some?
    ensures MulU31Shr(dot, lam, 46).value == Shr(dot * lam, 46)
    ensures Abs(Shr(dot * lam, 46)) <= SCORE_LIMIT
  {
    hide MulU31Shr;
    MulU31ShrExact(dot, lam, 46);
    MulBound(dot, lam, TWO63, TWO31);
    Pow2Constants();
    DivRange(dot * lam, -SCORE_LIMIT, SCORE_LIMIT + 1, 0x4000_0000_0000);
  }

  lemma MaskedWeightsBounded(t: Vec, score: Vec, i: nat, top: int)
    requires ValidTable(t) && Bounded(score, SCORE_LIMIT) && Abs(top) <= SCORE_LIMIT
    requires forall j | 0 <= j < |score| && j <= i :: score[j] <= top
    ensures Bounded(MaskedWeights(t, score, i, top), ONE)
  {
    hide ExpQ16;
    forall j | 0 <= j < |score|
      ensures Abs(MaskedWeights(t, score, i, top)[j]) <= ONE
    {
      ExpRange(t, if j <= i then score[j] - top else -EXP_RANGE);
    }
  }

  /** The weight row of one head and one position. */
  function WeightRow(t: Vec, score: Vec, i: nat): (w: Vec)
    requires ValidTable(t) && i < |score| && Bounded(score, SCORE_LIMIT)
    ensures |w| == |score| && Bounded(w, ONE)
  {
    MaskedTop(score, i);
    var top := MaxOf(Masked(score, i));
    MaskedWeightsBounded(t, score, i, top);
    MaskedWeights(t, score, i, top)
  }

  lemma WeightRowIsPrefix(t: Vec, score: Vec, i: nat)
    requires ValidTable(t) && i < |score| && Bounded(score, SCORE_LIMIT)
    ensures var w := Weights(t, score[..i + 1], MaxOf(score[..i + 1]));
      WeightRow(t, score, i) == w + Zeros(|score| - i - 1) && Sum(w) >= ONE
  {
    hide ExpQ16;
    MaskedTop(score, i);
    MaskedIsPrefix(t, score, i);
    WeightSum(t, score[..i + 1]);
  }

  /** One masked row gives the plain attention over the prefix. */
  lemma MaskedRowExact(t: Vec, q: Vec, keys: Mat, values: Mat, lam: int, i: nat, c: nat)
    requires ValidTable(t) && |keys| == |values| && i < |keys| && c < |q|
    requires forall j | 0 <= j < |values| :: |values[j]| == |q|
    requires Bounded(Scores(q, keys, lam), SCORE_LIMIT)
    ensures var w := WeightRow(t, Scores(q, keys, lam), i);
      && Sum(w) >= ONE
      && TDiv(Dot(w, Column(values, c)), Sum(w)) == AttentionInt(t, q, keys[..i + 1], values[..i + 1], lam)[c]
  {
    var score := Scores(q, keys, lam);
    var prefix := score[..i + 1];
    assert prefix == Scores(q, keys[..i + 1], lam);
    var w := Weights(t, prefix, MaxOf(prefix));
    hide WeightRow;
    hide Weights;
    hide TDiv;
    hide MaxOf;
    hide Scores;
    hide Sum;
    hide Dot;
    WeightRowIsPrefix(t, score, i);
    var column := Column(values, c);
    MaskedSums(w, |score| - i - 1, column);
    assert column[..i + 1] == Column(values[..i + 1], c);
  }

  // ---- all heads and rows of one sequence ----------------------------------

  /** Heads of `p` rows of `d` entries. */
  predicate HeadStack(x: Ten, p: nat, d: nat)
  {
    && (forall h | 0 <= h < |x| :: |x[h]| == p)
    && Shaped(x, d)
  }

  /** What the plain operator gives for every head and every prefix. */
  predicate IsCausalAttention(r: Ten, t: Vec, q: Ten, k: Ten, v: Ten, lam: int, p: nat, d: nat)
    requires ValidTable(t) && |q| == |k| == |v| && HeadStack(q, p, d) && HeadStack(k, p, d) && HeadStack(v, p, d)
  {
    && HeadStack(r, p, d) && |r| == |q|
    && forall h, i | 0 <= h < |q| && 0 <= i < p ::
         r[h][i] == AttentionInt(t, q[h][i], k[h][..i + 1], v[h][..i + 1], lam)
  }

  /** Scores of one head row from its exact dot products. */
  function ScoreRow(dot: Vec, lam: int): Vec
    requires 0 <= lam < TWO31 && forall j | 0 <= j < |dot| :: InI64(dot[j])
  {
    seq(|dot|, j requires 0 <= j < |dot| =>
      ScoreBound(dot[j], lam);
      MulU31Shr(dot[j], lam, 46).value)
  }

  lemma ScoreRowExact(dot: Vec, q: Vec, keys: Mat, lam: int)
    requires 0 <= lam < TWO31 && IsDotRow(dot, q, keys) && forall j | 0 <= j < |dot| :: InI64(dot[j])
    ensures ScoreRow(dot, lam) == Scores(q, keys, lam)
    ensures Bounded(Scores(q, keys, lam), SCORE_LIMIT)
  {
    hide MulU31Shr;
    forall j | 0 <= j < |dot|
      ensures ScoreRow(dot, lam)[j] == Score(q, keys[j], lam) && Abs(Score(q, keys[j], lam)) <= SCORE_LIMIT
    {
      ScoreBound(dot[j], lam);
    }
  }

  function Transposed(v: Ten, p: nat, d: nat): (r: Ten)
    requires HeadStack(v, p, d)
    ensures |r| == |v| && HeadStack(r, d, p)
  {
    seq(|v|, h requires 0 <= h < |v| => seq(d, c requires 0 <= c < d => Column(v[h], c)))
  }

  lemma TransposedBounded(v: Ten, p: nat, d: nat, lim: int)
    requires HeadStack(v, p, d) && TenBounded(v, lim)
    ensures TenBounded(Transposed(v, p, d), lim)
  {
    forall h, c | 0 <= h < |v| && 0 <= c < d
      ensures Bounded(Column(v[h], c), lim)
    {
    }
  }

  function DivideRow(o: Vec, z: int): Vec
    requires z > 0
  {
    seq(|o|, c requires 0 <= c < |o| => if o[c] >= 0 then o[c] / z else -((-o[c]) / z))
  }

  /** The output row of one head and one position. */
  lemma OutputRowExact(t: Vec, q: Vec, keys: Mat, values: Mat, columns: Mat, o: Vec, lam: int, i: nat)
    requires ValidTable(t) && |keys| == |values| && i < |keys| && q != []
    requires forall j | 0 <= j < |values| :: |values[j]| == |q|
    requires Bounded(Scores(q, keys, lam), SCORE_LIMIT)
    requires |columns| == |q| && forall c | 0 <= c < |q| :: columns[c] == Column(values, c)
    requires IsDotRow(o, WeightRow(t, Scores(q, keys, lam), i), columns)
    ensures Sum(WeightRow(t, Scores(q, keys, lam), i)) >= ONE
    ensures DivideRow(o, Sum(WeightRow(t, Scores(q, keys, lam), i)))
            == AttentionInt(t, q, keys[..i + 1], values[..i + 1], lam)
  {
    hide WeightRow;
    hide AttentionInt;
    hide Scores;
    hide Sum;
    hide Dot;
    hide Column;
    forall c | 0 <= c < |q|
      ensures var w := WeightRow(t, Scores(q, keys, lam), i);
        Sum(w) >= ONE && TDiv(o[c], Sum(w)) == AttentionInt(t, q, keys[..i + 1], values[..i + 1], lam)[c]
    {
      MaskedRowExact(t, q, keys, values, lam, i, c);
    }
    MaskedRowExact(t, q, keys, values, lam, i, 0);
  }

  lemma DotRowFits(dot: Vec, q: Vec, keys: Mat)
    requires IsDotRow(dot, q, keys) && forall j | 0 <= j < |keys| :: AbsDot(q, keys[j]) < TWO63
    ensures forall j | 0 <= j < |dot| :: InI64(dot[j])
  {
    forall j | 0 <= j < |dot|
      ensures InI64(dot[j])
    {
      DotBound(q, keys[j]);
    }
  }

  /** Dot products, scores and weights of all rows at once; None when the
      product estimate is too large for the fast path. */
  method WeightStack(f: Fpu, t: Vec, q: Ten, k: Ten, lam: int, p: nat, d: nat) returns (r: Option<Ten>)
    requires ValidFpu(f) && ValidTable(t) && 0 <= lam < TWO31 && d < K_LIMIT && p < K_LIMIT
    requires |q| == |k| && HeadStack(q, p, d) && HeadStack(k, p, d)
    requires TenBounded(q, LIM62) && TenBounded(k, LIM62)
    ensures r.Some? ==> |r.value| == |q| && HeadStack(r.value, p, p) && TenBounded(r.value, ONE)
    ensures r.Some? ==> forall h, i | 0 <= h < |q| && 0 <= i < p ::
      Bounded(Scores(q[h][i], k[h], lam), SCORE_LIMIT)
      && r.value[h][i] == WeightRow(t, Scores(q[h][i], k[h], lam), i)
  {
    hide ValidFpu;
    hide ValidTable;
    hide WeightRow;
    hide Scores;
    hide ScoreRow;
    var dot := MatmulExact(f, q, k, d, None, true);
    if dot.None? {
      return None;
    }
    forall h, i | 0 <= h < |q| && 0 <= i < p
      ensures |dot.value[h]| == p && (forall j | 0 <= j < |dot.value[h][i]| :: InI64(dot.value[h][i][j]))
      ensures ScoreRow(dot.value[h][i], lam) == Scores(q[h][i], k[h], lam)
      ensures Bounded(Scores(q[h][i], k[h], lam), SCORE_LIMIT) && |Scores(q[h][i], k[h], lam)| == p
    {
      assert IsDotRow(dot.value[h][i], q[h][i], k[h]);
      DotRowFits(dot.value[h][i], q[h][i], k[h]);
      ScoreRowExact(dot.value[h][i], q[h][i], k[h], lam);
    }
    var w: Ten := seq(|q|, h requires 0 <= h < |q| =>
      seq(p, i requires 0 <= i < p => WeightRow(t, ScoreRow(dot.value[h][i], lam), i)));
    r := Some(w);
  }

  method AttentionFast(f: Fpu, t: Vec, q: Ten, k: Ten, v: Ten, lam: int, p: nat, d: nat) returns (r: Option<Ten>)
    requires ValidFpu(f) && ValidTable(t) && 0 <= lam < TWO31 && 0 < d < K_LIMIT && 0 < p < K_LIMIT
    requires |q| == |k| == |v| && HeadStack(q, p, d) && HeadStack(k, p, d) && HeadStack(v, p, d)
    requires TenBounded(q, LIM62) && TenBounded(k, LIM62) && TenBounded(v, LIM62)
    ensures r.Some? ==> IsCausalAttention(r.value, t, q, k, v, lam, p, d)
  {
    hide ValidFpu;
    hide ValidTable;
    hide WeightRow;
    hide Scores;
    hide Sum;
    hide AttentionInt;
    var weights := WeightStack(f, t, q, k, lam, p, d);
    if weights.None? {
      return None;
    }
    var w := weights.value;
    var vt := Transposed(v, p, d);
    TransposedBounded(v, p, d, LIM62);
    var o := MatmulExact(f, w, vt, p, None, true);
    if o.None? {
      return None;
    }
    forall h, i | 0 <= h < |q| && 0 <= i < p
      ensures |o.value[h]| == p && |o.value[h][i]| == d && Sum(w[h][i]) >= ONE
      ensures DivideRow(o.value[h][i], Sum(w[h][i])) == AttentionInt(t, q[h][i], k[h][..i + 1], v[h][..i + 1], lam)
    {
      assert IsDotRow(o.value[h][i], w[h][i], vt[h]);
      OutputRowExact(t, q[h][i], k[h], v[h], vt[h], o.value[h][i], lam, i);
    }
    var out: Ten := seq(|q|, h requires 0 <= h < |q| =>
      seq(p, i requires 0 <= i < p => DivideRow(o.value[h][i], Sum(w[h][i]))));
    r := Some(out);
  }

  /** The fast form, or every prefix with the plain operator. */
  method CausalAttention(f: Fpu, t: Vec, q: Ten, k: Ten, v: Ten, lam: int, p: nat, d: nat)
    returns (r: Ten, slow: bool)
    requires ValidFpu(f) && ValidTable(t) && 0 <= lam < TWO31 && 0 < d < K_LIMIT && 0 < p < K_LIMIT
    requires |q| == |k| == |v| && HeadStack(q, p, d) && HeadStack(k, p, d) && HeadStack(v, p, d)
    requires TenBounded(q, LIM62) && TenBounded(k, LIM62) && TenBounded(v, LIM62)
    ensures IsCausalAttention(r, t, q, k, v, lam, p, d)
  {
    hide ValidFpu;
    hide ValidTable;
    hide AttentionInt;
    var fast := AttentionFast(f, t, q, k, v, lam, p, d);
    slow := fast.None?;
    if slow {
      r := seq(|q|, h requires 0 <= h < |q| =>
        seq(p, i requires 0 <= i < p => AttentionInt(t, q[h][i], k[h][..i + 1], v[h][..i + 1], lam)));
    } else {
      r := fast.value;
    }
  }
}
