/** Attention of the legacy profile: the sequential online softmax, its
    invariants, and the two-pass softmax it is not. */
module LegacyAttention {
  import opened Arithmetic
  import opened LegacyExp
  import opened ModernOps

  /** The loop variables running_max, running_sum and out. */
  datatype Online = Online(top: int, total: int, acc: Vec)

  const SENTINEL: int := -0x4000_0000_0000_0000

  function HeadScore(q: Vec, key: Vec, scale: int): int { Shr(Shr(Dot(q, key), 16) * scale, 16) }

  predicate ScoreOk(q: Vec, key: Vec, scale: int)
  {
    AbsDot(q, key) < TWO63 && InI64(Shr(Dot(q, key), 16) * scale)
  }

  predicate ProductsOk(v: Vec, c: int) { forall i | 0 <= i < |v| :: InI64(v[i] * c) }

  function ScaledDown(v: Vec, c: int): (r: Vec)
    ensures |r| == |v| && forall i | 0 <= i < |v| :: r[i] == Shr(v[i] * c, 16)
  {
    seq(|v|, i requires 0 <= i < |v| => Shr(v[i] * c, 16))
  }

  /** A strictly larger score rescales what was accumulated so far. */
  function Rescaled(o: Online, score: int): Option<Online>
  {
    if score <= o.top then Some(o)
    else if !InI64(o.top - score) then None
    else
      var c := IntegerExp(o.top - score);
      if !InI64(o.total * c) || !ProductsOk(o.acc, c) then None
      else Some(Online(score, Shr(o.total * c, 16), ScaledDown(o.acc, c)))
  }

  function WeightedAdd(acc: Vec, w: int, v: Vec): (r: Vec)
    ensures |r| == Min(|acc|, |v|)
  {
    seq(Min(|acc|, |v|), i requires 0 <= i < |acc| && i < |v| => acc[i] + Shr(w * v[i], 16))
  }

  predicate AddOk(acc: Vec, w: int, v: Vec)
  {
    forall i | 0 <= i < |acc| && i < |v| :: InI64(w * v[i]) && InI64(acc[i] + Shr(w * v[i], 16))
  }

  function Added(o: Online, w: int, v: Vec): Option<Online>
  {
    if !InI64(o.total + w) || !AddOk(o.acc, w, v) then None
    else Some(Online(o.top, o.total + w, WeightedAdd(o.acc, w, v)))
  }

  function Absorb(o: Online, q: Vec, key: Vec, value: Vec, scale: int): Option<Online>
  {
    if !ScoreOk(q, key, scale) then None
    else
      var score := HeadScore(q, key, scale);
      match Rescaled(o, score)
      case None => None
      case Some(p) => Added(p, IntegerExp(score - p.top), value)
  }

  /** The state after `n` positions. */
  function OnlineRun(q: Vec, keys: Mat, values: Mat, scale: int, n: nat): Option<Online>
    requires n <= |keys| && n <= |values|
  {
    if n == 0 then Some(Online(SENTINEL, 0, Zeros(|q|)))
    else
      match OnlineRun(q, keys, values, scale, n - 1)
      case None => None
      case Some(o) => Absorb(o, q, keys[n - 1], values[n - 1], scale)
  }

  function Divided(v: Vec, total: int): (r: Vec)
    requires total > 0
    ensures |r| == |v|
  {
    seq(|v|, i requires 0 <= i < |v| => TDiv(v[i] * ONE, total))
  }

  function Finished(o: Online): Option<Vec>
  {
    if o.total <= 0 then Some(o.acc)
    else if !ProductsOk(o.acc, ONE) then None
    else Some(Divided(o.acc, o.total))
  }

  function AttentionHead(q: Vec, keys: Mat, values: Mat, scale: int): Option<Vec>
  {
    match OnlineRun(q, keys, values, scale, Min(|keys|, |values|))
    case None => None
    case Some(o) => Finished(o)
  }

  /** The loop of the source. */
  method OnlineAttention(q: Vec, keys: Mat, values: Mat, scale: int) returns (r: Option<Vec>)
    ensures r == AttentionHead(q, keys, values, scale)
  {
    hide Absorb;
    hide Finished;
    var o := Online(SENTINEL, 0, Zeros(|q|));
    var n := Min(|keys|, |values|);
    for i := 0 to n
      invariant OnlineRun(q, keys, values, scale, i) == Some(o)
    {
      var next := Absorb(o, q, keys[i], values[i], scale);
      if next.None? {
        RefusedEarly(q, keys, values, scale, i + 1, n);
        return None;
      }
      o := next.value;
    }
    r := Finished(o);
  }

  lemma {:induction false} RefusedEarly(q: Vec, keys: Mat, values: Mat, scale: int, i: nat, n: nat)
    requires i <= n <= |keys| && n <= |values|
    requires OnlineRun(q, keys, values, scale, i).None?
    ensures OnlineRun(q, keys, values, scale, n).None?
  {
    if i < n { RefusedEarly(q, keys, values, scale, i, n - 1); }
  }

  // ---- scores --------------------------------------------------------------

  function HeadScores(q: Vec, keys: Mat, scale: int): (s: Vec)
    ensures |s| == |keys|
  {
    seq(|keys|, j requires 0 <= j < |keys| => HeadScore(q, keys[j], scale))
  }

  /** An admitted score is a shifted int64, far above the sentinel. */
  lemma ScoreRange(q: Vec, key: Vec, scale: int)
    requires ScoreOk(q, key, scale)
    ensures -0x8000_0000_0000 <= HeadScore(q, key, scale) < 0x8000_0000_0000
  {
    Pow2Small();
    hide Pow2;
    DivRange(Shr(Dot(q, key), 16) * scale, -0x8000_0000_0000, 0x8000_0000_0000, ONE);
  }

  lemma ShrZero(c: int)
    ensures Shr(0 * c, 16) == 0
  {
  }

  /** The first position always replaces the sentinel and leaves nothing behind. */
  lemma FirstPosition(q: Vec, score: int)
    requires -0x8000_0000_0000 <= score < 0x8000_0000_0000
    ensures Rescaled(Online(SENTINEL, 0, Zeros(|q|)), score) == Some(Online(score, 0, Zeros(|q|)))
  {
    var c := IntegerExp(SENTINEL - score);
    IntegerExpRange(SENTINEL - score);
    hide IntegerExp;
    ShrZero(c);
    assert ScaledDown(Zeros(|q|), c) == Zeros(|q|);
  }

  // ---- what the loop keeps ------------------------------------------------

  /** `err` bounds what the roundings so far can have added, in units of 2^-16. */
  ghost predicate Covered(o: Online, bound: int, err: int)
  {
    forall i | 0 <= i < |o.acc| :: ONE * Abs(o.acc[i]) <= bound * o.total + err
  }

  lemma AbsFloor(x: int, d: int)
    requires d > 0
    ensures d * Abs(x / d) <= Abs(x) + d
  {
    DivBounds(x, d);
    AbsMul(x / d, d);
  }

  lemma RescaleColumn(a: int, t: int, c: int, bound: int, err: int)
    requires 0 <= c <= ONE && 0 <= t && 0 <= bound && 0 <= err
    requires ONE * Abs(a) <= bound * t + err
    ensures ONE * Abs((a * c) / ONE) <= bound * ((t * c) / ONE) + err + bound + ONE
  {
    AbsFloor(a * c, ONE);
    AbsMul(a, c);
    var t' := (t * c) / ONE;
    ScaleDown(Abs(a), t, c, bound, err, t');
  }

  lemma ScaleDown(a: int, t: int, c: int, bound: int, err: int, t': int)
    requires 0 <= c <= ONE && 0 <= bound && 0 <= err
    requires ONE * a <= bound * t + err && t * c <= ONE * t' + ONE
    ensures a * c <= bound * t' + bound + err
  {
    MulMono(ONE * a, bound * t + err, c);
    Distribute(bound * t, err, c);
    MulMono(c, ONE, err);
    MulMono(t * c, ONE * t' + ONE, bound);
    assert (bound * t) * c == (t * c) * bound by { Commute3(bound, t, c); }
    assert (ONE * t' + ONE) * bound == ONE * (bound * t' + bound);
    assert (ONE * a) * c == ONE * (a * c);
  }

  lemma Commute3(a: int, b: int, c: int)
    ensures (a * b) * c == (b * c) * a
  {
  }

  lemma AddColumn(a: int, t: int, w: int, x: int, bound: int, err: int)
    requires 0 <= w && Abs(x) <= bound && ONE * Abs(a) <= bound * t + err
    ensures ONE * Abs(a + (w * x) / ONE) <= bound * (t + w) + err + ONE
  {
    AbsFloor(w * x, ONE);
    AbsMulLe(w, x, bound);
    Distribute(t, w, bound);
  }

  lemma RescaledCovers(o: Online, score: int, bound: int, err: int)
    requires 0 <= bound && 0 <= err && 0 <= o.total && Covered(o, bound, err)
    requires Rescaled(o, score).Some?
    ensures Covered(Rescaled(o, score).value, bound, err + bound + ONE)
  {
    if score > o.top {
      var c := IntegerExp(o.top - score);
      IntegerExpRange(o.top - score);
      Pow2Small();
      hide IntegerExp;
      hide Pow2;
      var p := Rescaled(o, score).value;
      forall i | 0 <= i < |p.acc|
        ensures ONE * Abs(p.acc[i]) <= bound * p.total + (err + bound + ONE)
      {
        RescaleColumn(o.acc[i], o.total, c, bound, err);
      }
    }
  }

  lemma AddedCovers(o: Online, w: int, v: Vec, bound: int, err: int)
    requires 0 <= w && Bounded(v, bound) && Covered(o, bound, err) && Added(o, w, v).Some?
    ensures Covered(Added(o, w, v).value, bound, err + ONE)
  {
    Pow2Small();
    hide Pow2;
    var p := Added(o, w, v).value;
    forall i | 0 <= i < |p.acc|
      ensures ONE * Abs(p.acc[i]) <= bound * p.total + (err + ONE)
    {
      AddColumn(o.acc[i], o.total, w, v[i], bound, err);
    }
  }

  /** One position moves the maximum, keeps the sum above 2^16 and lets it grow
      by at most 2^16. */
  lemma AbsorbKeeps(o: Online, q: Vec, key: Vec, value: Vec, scale: int)
    requires 0 <= o.total && Absorb(o, q, key, value, scale).Some?
    requires o.top == SENTINEL || ONE <= o.total
    ensures var p := Absorb(o, q, key, value, scale).value;
      && p.top == Max(o.top, HeadScore(q, key, scale))
      && HeadScore(q, key, scale) > SENTINEL
      && ONE <= p.total <= o.total + ONE
  {
    var score := HeadScore(q, key, scale);
    ScoreRange(q, key, scale);
    hide HeadScore;
    hide ScoreOk;
    IntegerExpRange(o.top - score);
    IntegerExpRange(0);
    IntegerExpRange(score - o.top);
    hide IntegerExp;
    if score > o.top { ShrinkTotal(o.total, IntegerExp(o.top - score)); }
  }

  lemma ShrinkTotal(t: int, c: int)
    requires 0 <= t && 0 <= c <= ONE
    ensures 0 <= Shr(t * c, 16) <= t
  {
    Pow2Small();
    hide Pow2;
    MulMono(c, ONE, t);
    MulMono(0, c, t);
    DivRange(t * c, 0, t + 1, ONE);
  }

  lemma MaxSnoc(s: Vec, x: int)
    ensures s == [] ==> MaxOf(s + [x]) == x
    ensures s != [] ==> MaxOf(s + [x]) == Max(MaxOf(s), x)
  {
    var m := MaxOf(s + [x]);
    if s != [] {
      var i :| 0 <= i < |s + [x]| && (s + [x])[i] == m;
      var j :| 0 <= j < |s| && s[j] == MaxOf(s);
      assert (s + [x])[j] == MaxOf(s) && (s + [x])[|s|] == x;
    }
  }

  /** What `n` positions of values in [-bound, bound] can lose to rounding. */
  function Slack(n: nat, bound: int): int { n * (bound + 2 * ONE) }

  lemma SlackGrows(n: nat, bound: int)
    requires 0 <= bound
    ensures Slack(0, bound) == 0 && Slack(n, bound) >= 0
    ensures Slack(n + 1, bound) == Slack(n, bound) + (bound + 2 * ONE)
  {
    MulMono(0, n, bound + 2 * ONE);
    Distribute(n, 1, bound + 2 * ONE);
  }

  /** After every admitted position: the maximum is the largest score so far,
      2^16 <= running_sum <= n * 2^16, and the accumulator is covered. */
  lemma {:induction false} OnlineInvariant(q: Vec, keys: Mat, values: Mat, scale: int, n: nat, bound: int)
    requires 0 < n <= |keys| && n <= |values| && 0 <= bound
    requires forall j | 0 <= j < n :: Bounded(values[j], bound)
    requires OnlineRun(q, keys, values, scale, n).Some?
    ensures var o := OnlineRun(q, keys, values, scale, n).value;
      && o.top == MaxOf(HeadScores(q, keys, scale)[..n]) > SENTINEL
      && ONE <= o.total <= n * ONE
      && Covered(o, bound, Slack(n, bound))
  {
    var s := HeadScores(q, keys, scale);
    assert s[..n] == s[..n - 1] + [s[n - 1]];
    assert s[n - 1] == HeadScore(q, keys[n - 1], scale);
    var prev := OnlineRun(q, keys, values, scale, n - 1).value;
    assert n == 1 ==> prev == Online(SENTINEL, 0, Zeros(|q|));
    assert Absorb(prev, q, keys[n - 1], values[n - 1], scale) == OnlineRun(q, keys, values, scale, n);
    SlackGrows(n - 1, bound);
    hide Absorb;
    hide Slack;
    hide HeadScore;
    if n == 1 {
      assert s[..0] == [] && Covered(prev, bound, 0);
    } else {
      OnlineInvariant(q, keys, values, scale, n - 1, bound);
    }
    hide OnlineRun;
    hide Covered;
    MaxSnoc(s[..n - 1], s[n - 1]);
    hide MaxOf;
    AbsorbKeeps(prev, q, keys[n - 1], values[n - 1], scale);
    AbsorbCovers(prev, q, keys[n - 1], values[n - 1], scale, bound, Slack(n - 1, bound));
  }

  lemma AbsorbCovers(o: Online, q: Vec, key: Vec, value: Vec, scale: int, bound: int, err: int)
    requires 0 <= o.total && 0 <= bound && 0 <= err && Bounded(value, bound) && Covered(o, bound, err)
    requires Absorb(o, q, key, value, scale).Some?
    ensures Covered(Absorb(o, q, key, value, scale).value, bound, err + (bound + 2 * ONE))
  {
    var score := HeadScore(q, key, scale);
    var p := Rescaled(o, score).value;
    RescaledCovers(o, score, bound, err);
    IntegerExpRange(score - p.top);
    AddedCovers(p, IntegerExp(score - p.top), value, bound, err + bound + ONE);
  }

  lemma DividedColumn(a: int, t: int, bound: int, err: int)
    requires ONE <= t && 0 <= bound && 0 <= err && ONE * Abs(a) <= bound * t + err
    ensures ONE * Abs(TDiv(a * ONE, t)) <= ONE * bound + err
  {
    var x := Abs(a) * ONE;
    assert Abs(a * ONE) == x;
    AbsTDiv(a * ONE, t);
    DivBounds(x, t);
    QuotientBound(x / t, t, bound, err);
  }

  lemma AbsTDiv(x: int, t: int)
    requires t > 0
    ensures Abs(TDiv(x, t)) == Abs(x) / t
  {
    DivMono(0, Abs(x), t);
  }

  lemma QuotientBound(o: int, t: int, bound: int, err: int)
    requires ONE <= t && 0 <= err && o * t <= bound * t + err
    ensures ONE * o <= ONE * bound + err
  {
    if o > bound {
      Distribute(o - bound, bound, t);
      MulMono(ONE, t, o - bound);
    }
  }

  /** Every output coordinate of `n` positions with values in [-bound, bound]
      satisfies 2^16 |out| <= 2^16 bound + n (bound + 2 * 2^16). */
  lemma OnlineRange(q: Vec, keys: Mat, values: Mat, scale: int, bound: int)
    requires |keys| == |values| && 0 <= bound && forall j | 0 <= j < |values| :: Bounded(values[j], bound)
    requires AttentionHead(q, keys, values, scale).Some?
    ensures var r := AttentionHead(q, keys, values, scale).value;
      forall i | 0 <= i < |r| :: ONE * Abs(r[i]) <= ONE * bound + |keys| * (bound + 2 * ONE)
  {
    var n := |keys|;
    SlackGrows(n, bound);
    if n > 0 {
      var o := OnlineRun(q, keys, values, scale, n).value;
      var r := AttentionHead(q, keys, values, scale).value;
      OnlineInvariant(q, keys, values, scale, n, bound);
      assert r == Divided(o.acc, o.total);
      hide OnlineRun;
      hide AttentionHead;
      hide Finished;
      hide MaxOf;
      FinishedRange(o, bound, Slack(n, bound));
    }
  }

  lemma FinishedRange(o: Online, bound: int, err: int)
    requires ONE <= o.total && 0 <= bound && 0 <= err && Covered(o, bound, err)
    ensures forall i | 0 <= i < |o.acc| :: ONE * Abs(Divided(o.acc, o.total)[i]) <= ONE * bound + err
  {
    forall i | 0 <= i < |o.acc|
      ensures ONE * Abs(Divided(o.acc, o.total)[i]) <= ONE * bound + err
    {
      DividedColumn(o.acc[i], o.total, bound, err);
    }
  }

  // ---- the two-pass form ----------------------------------------------------

  function HeadWeights(scores: Vec, top: int): (w: Vec)
    ensures |w| == |scores|
  {
    seq(|scores|, j requires 0 <= j < |scores| => IntegerExp(scores[j] - top))
  }

  function TwoPassSum(w: Vec, values: Mat, d: nat, n: nat): Vec
    requires n <= |w| && n <= |values|
  {
    if n == 0 then Zeros(d) else WeightedAdd(TwoPassSum(w, values, d, n - 1), w[n - 1], values[n - 1])
  }

  /** Scores, maximum and weights first, one accumulation after. */
  function TwoPass(q: Vec, keys: Mat, values: Mat, scale: int): Vec
    requires |keys| == |values| > 0
  {
    var scores := HeadScores(q, keys, scale);
    var w := HeadWeights(scores, MaxOf(scores));
    var out := TwoPassSum(w, values, |q|, |w|);
    if Sum(w) > 0 then Divided(out, Sum(w)) else out
  }

  method TwoPassAttention(q: Vec, keys: Mat, values: Mat, scale: int) returns (out: Vec)
    requires |keys| == |values| > 0
    ensures out == TwoPass(q, keys, values, scale)
  {
    var scores := HeadScores(q, keys, scale);
    var w := HeadWeights(scores, MaxOf(scores));
    var total := Sum(w);
    out := Zeros(|q|);
    for j := 0 to |w|
      invariant out == TwoPassSum(w, values, |q|, j)
    {
      out := WeightedAdd(out, w[j], values[j]);
    }
    if total > 0 {
      out := Divided(out, total);
    }
  }

  /** With the maximum in first place the loop never rescales again, so it has
      accumulated exactly what the two-pass form has. */
  lemma {:induction false} OnlineIsTwoPass(q: Vec, keys: Mat, values: Mat, scale: int, n: nat)
    requires 0 < n <= |keys| == |values|
    requires OnlineRun(q, keys, values, scale, n).Some?
    requires forall j | 0 <= j < n :: HeadScore(q, keys[j], scale) <= HeadScore(q, keys[0], scale)
    ensures var w := HeadWeights(HeadScores(q, keys, scale), HeadScore(q, keys[0], scale));
      OnlineRun(q, keys, values, scale, n).value
        == Online(HeadScore(q, keys[0], scale), Sum(w[..n]), TwoPassSum(w, values, |q|, n))
  {
    hide HeadScore;
    hide IntegerExp;
    hide ScoreOk;
    hide Shr;
    var top := HeadScore(q, keys[0], scale);
    var w := HeadWeights(HeadScores(q, keys, scale), top);
    assert w[..n] == w[..n - 1] + [w[n - 1]];
    SumAppend(w[..n - 1], [w[n - 1]]);
    assert w[..0] == [];
    if n == 1 {
      ScoreRange(q, keys[0], scale);
      FirstPosition(q, top);
    } else {
      OnlineIsTwoPass(q, keys, values, scale, n - 1);
    }
  }

  /** The online softmax equals the two-pass softmax whenever it does not refuse
      and the first score is a maximum. */
  lemma FirstMaximumAgrees(q: Vec, keys: Mat, values: Mat, scale: int)
    requires |keys| == |values| > 0
    requires forall j | 0 <= j < |keys| :: HeadScore(q, keys[j], scale) <= HeadScore(q, keys[0], scale)
    requires AttentionHead(q, keys, values, scale).Some?
    ensures AttentionHead(q, keys, values, scale).value == TwoPass(q, keys, values, scale)
  {
    hide HeadScore;
    hide IntegerExp;
    var n := |keys|;
    OnlineIsTwoPass(q, keys, values, scale, n);
    var s := HeadScores(q, keys, scale);
    assert s[0] == MaxOf(s);
    var w := HeadWeights(s, s[0]);
    assert w[..n] == w;
    hide OnlineRun;
  }

  lemma TopOfTable()
    ensures IntegerExp(0) == ONE && IntegerExp(-256) == 65281 && IntegerExp(-512) == 65026
    ensures IntegerExp(SENTINEL) == 0
  {
    LutTop();
    LutNext(4095);
    LutNext(4094);
    hide LutAt;
  }

  /** In general the two differ: with scores 0, 256, 512 over values 2, 0, 2 the
      two rescalings lose the first value, and the outputs are 0 and 1. */
  lemma RisingScoresDiffer()
    ensures AttentionHead([ONE], [[0], [256], [512]], [[2], [0], [2]], ONE) == Some([0])
    ensures TwoPass([ONE], [[0], [256], [512]], [[2], [0], [2]], ONE) == [1]
  {
    hide AttentionHead;
    hide TwoPass;
    var q, keys, values := [ONE], [[0], [256], [512]], [[2], [0], [2]];
    RisingOnline(q, keys, values);
    RisingTwoPass(q, keys, values);
  }

  lemma SmallScore(k: int)
    requires 0 <= k <= 512
    ensures ScoreOk([ONE], [k], ONE) && HeadScore([ONE], [k], ONE) == k
  {
    Pow2Small();
    hide Pow2;
    var q, key := [ONE], [k];
    assert q[1..] == [] && key[1..] == [];
    assert Dot(q[1..], key[1..]) == 0 && AbsDot(q[1..], key[1..]) == 0;
    assert Dot(q, key) == ONE * k && AbsDot(q, key) == ONE * k;
  }

  /** A larger score over one small column: rescale by `c`, add the value. */
  lemma RisingStep(o: Online, a: int, k: int, x: int, c: int)
    requires o.acc == [a] && o.top < k && 0 <= k <= 512 && InI64(o.top - k)
    requires c == IntegerExp(o.top - k) && 0 <= o.total <= 4 * ONE && 0 <= a <= 4 && 0 <= x <= 4
    ensures Absorb(o, [ONE], [k], [x], ONE)
         == Some(Online(k, (o.total * c) / ONE + ONE, [(a * c) / ONE + x]))
  {
    hide Pow2;
    hide IntegerExp;
    hide HeadScore;
    hide ScoreOk;
    hide Rescaled;
    hide Added;
    SmallScore(k);
    IntegerExpRange(o.top - k);
    IntegerExpRange(0);
    RescaleOne(o, a, k, c);
    SmallProduct(o.total, c);
    SmallProduct(a, c);
    var b := (a * c) / ONE;
    AddOne(Online(k, (o.total * c) / ONE, [b]), b, x);
  }

  lemma RescaleOne(o: Online, a: int, k: int, c: int)
    requires o.acc == [a] && o.top < k && InI64(o.top - k) && c == IntegerExp(o.top - k) && 0 <= c <= ONE
    requires 0 <= o.total <= 4 * ONE && 0 <= a <= 4
    ensures Rescaled(o, k) == Some(Online(k, (o.total * c) / ONE, [(a * c) / ONE]))
  {
    hide IntegerExp;
    Pow2Small();
    hide Pow2;
    SmallProduct(o.total, c);
    SmallProduct(a, c);
    assert ScaledDown(o.acc, c) == [(a * c) / ONE];
  }

  lemma AddOne(o: Online, b: int, x: int)
    requires o.acc == [b] && 0 <= b <= 4 * ONE && 0 <= x <= 4 && 0 <= o.total <= 4 * ONE
    ensures Added(o, ONE, [x]) == Some(Online(o.top, o.total + ONE, [b + x]))
  {
    AddOneColumn(b, ONE, x);
    hide WeightedAdd;
    Pow2Small();
    hide Pow2;
  }

  lemma SmallProduct(t: int, c: int)
    requires 0 <= t <= 4 * ONE && 0 <= c <= ONE
    ensures 0 <= t * c <= 4 * ONE * ONE && 0 <= (t * c) / ONE <= 4 * ONE
  {
    MulMono(0, c, t);
    MulMono(c, ONE, t);
  }

  lemma RisingOnline(q: Vec, keys: Mat, values: Mat)
    requires q == [ONE] && keys == [[0], [256], [512]] && values == [[2], [0], [2]]
    ensures AttentionHead(q, keys, values, ONE) == Some([0])
  {
    TopOfTable();
    hide Absorb;
    hide IntegerExp;
    assert OnlineRun(q, keys, values, ONE, 0) == Some(Online(SENTINEL, 0, [0])) by { assert Zeros(1) == [0]; }
    RisingStep(Online(SENTINEL, 0, [0]), 0, 0, 2, 0);
    assert OnlineRun(q, keys, values, ONE, 1) == Some(Online(0, 65536, [2]));
    RisingStep(Online(0, 65536, [2]), 2, 256, 0, 65281);
    assert OnlineRun(q, keys, values, ONE, 2) == Some(Online(256, 130817, [1]));
    RisingStep(Online(256, 130817, [1]), 1, 512, 2, 65281);
    assert OnlineRun(q, keys, values, ONE, 3) == Some(Online(512, 195843, [2]));
    hide OnlineRun;
    assert Divided([2], 195843) == [0] && ProductsOk([2], ONE);
  }

  lemma RisingWeights(q: Vec, keys: Mat)
    requires q == [ONE] && keys == [[0], [256], [512]]
    ensures MaxOf(HeadScores(q, keys, ONE)) == 512
    ensures HeadWeights(HeadScores(q, keys, ONE), 512) == [65026, 65281, 65536]
  {
    SmallScore(0);
    SmallScore(256);
    SmallScore(512);
    TopOfTable();
    hide IntegerExp;
    hide HeadScore;
    var s := HeadScores(q, keys, ONE);
    assert s == [0, 256, 512];
    assert MaxOf(s) == 512 by { assert s[2] == 512; }
  }

  lemma AddOneColumn(a: int, w: int, x: int)
    ensures WeightedAdd([a], w, [x]) == [a + (w * x) / ONE]
  {
    Pow2Small();
    hide Pow2;
  }

  lemma RisingTotal(w: Vec)
    requires w == [65026, 65281, 65536]
    ensures Sum(w) == 195843
  {
    assert w[1..] == [65281, 65536] && w[1..][1..] == [65536] && w[1..][1..][1..] == [];
    assert Sum(w[1..][1..][1..]) == 0;
    assert Sum(w[1..][1..]) == 65536;
    assert Sum(w[1..]) == 65281 + 65536;
  }

  lemma RisingSum(w: Vec, values: Mat)
    requires w == [65026, 65281, 65536] && values == [[2], [0], [2]]
    ensures TwoPassSum(w, values, 1, 3) == [3]
  {
    hide WeightedAdd;
    AddOneColumn(0, 65026, 2);
    AddOneColumn(1, 65281, 0);
    AddOneColumn(1, 65536, 2);
    assert TwoPassSum(w, values, 1, 0) == Zeros(1) == [0];
    assert TwoPassSum(w, values, 1, 1) == [1];
    assert TwoPassSum(w, values, 1, 2) == [1];
  }

  lemma RisingTwoPass(q: Vec, keys: Mat, values: Mat)
    requires q == [ONE] && keys == [[0], [256], [512]] && values == [[2], [0], [2]]
    ensures TwoPass(q, keys, values, ONE) == [1]
  {
    hide HeadWeights;
    hide HeadScores;
    hide MaxOf;
    hide Sum;
    hide TwoPassSum;
    hide WeightedAdd;
    RisingWeights(q, keys);
    RisingTotal([65026, 65281, 65536]);
    RisingSum([65026, 65281, 65536], values);
    assert Divided([3], 195843) == [1];
  }
}
