/** The batched operators of the fast engine, each on all rows at once. Every
    one of them agrees with the plain operator row by row: the batch is refused
    exactly when some row is, and otherwise every row has the plain result. */
module FastOps {
  import opened Arithmetic
  import opened Int64Lanes
  import opened Float64
  import opened ExactMatmul
  import opened ModernOps
  import opened ModernModel

  /** The outcome of a batch of independent computations. */
  function Collect(opts: seq<Option<Vec>>): (r: Option<Mat>)
    ensures r.None? <==> exists i :: 0 <= i < |opts| && opts[i].None?
    ensures r.Some? ==> |r.value| == |opts| && forall i | 0 <= i < |opts| :: opts[i] == Some(r.value[i])
  {
    if exists i :: 0 <= i < |opts| && opts[i].None? then None
    else Some(seq(|opts|, i requires 0 <= i < |opts| && opts[i].Some? => opts[i].value))
  }

  /** Collect is the only outcome with its two properties. */
  lemma CollectIs(opts: seq<Option<Vec>>, r: Option<Mat>)
    requires r.None? ==> exists i :: 0 <= i < |opts| && opts[i].None?
    requires r.Some? ==> |r.value| == |opts| && forall i | 0 <= i < |opts| :: opts[i] == Some(r.value[i])
    ensures r == Collect(opts)
  {
    if r.Some? { assert r.value == Collect(opts).value; }
  }

  predicate MatBounded(xs: Mat, lim: int)
  {
    forall i | 0 <= i < |xs| :: Bounded(xs[i], lim)
  }

  predicate Wide(xs: Mat, n: nat)
  {
    forall i | 0 <= i < |xs| :: |xs[i]| == n
  }

  function Check62All(ys: Mat): (r: Option<Mat>)
  {
    if MatBounded(ys, LIM62) then Some(ys) else None
  }

  // ---- projection --------------------------------------------------------

  function ProjectAll(xs: Mat, w: Scaled): seq<Option<Vec>>
    requires |w.q| == |w.mu| == |w.k|
  {
    seq(|xs|, i requires 0 <= i < |xs| => ProjectInt(xs[i], w))
  }

  /** The estimate of every row is exact where it matters: rows it clears are
      inside the domain, the others are summed exactly. */
  method CheckProjectionInput(f: Fpu, xs: Mat) returns (ok: bool)
    requires ValidFpu(f)
    ensures ok <==> forall i | 0 <= i < |xs| :: ProjectInputOk(xs[i])
  {
    hide AbsSum;
    for i := 0 to |xs|
      invariant forall j | 0 <= j < i :: ProjectInputOk(xs[j])
    {
      var est := f.estimate([[xs[i]]], 127);
      assert AbsSum([[xs[i]]][0][0]) * 127 <= est;
      if est >= LIM62 && 127 * AbsSum(xs[i]) >= TWO63 {
        return false;
      }
    }
    ok := true;
  }

  function EpilogueRow(acc: Vec, w: Scaled): Vec
    requires |acc| == |w.mu| == |w.k|
  {
    seq(|acc|, j requires 0 <= j < |acc| => Shr(acc[j] * w.mu[j], w.k[j]))
  }

  function FastEpilogueRow(acc: Vec, w: Scaled): seq<Option<int>>
    requires |w.q| == |acc| == |w.mu| == |w.k| && ScaledRanges(w)
    requires forall j | 0 <= j < |acc| :: InI64(acc[j])
  {
    seq(|acc|, j requires 0 <= j < |acc| => MulU31Shr(acc[j], w.mu[j], w.k[j]))
  }

  predicate AllSome(row: seq<Option<int>>)
  {
    forall j | 0 <= j < |row| :: row[j].Some?
  }

  function Values(row: seq<Option<int>>): Vec
    requires AllSome(row)
  {
    seq(|row|, j requires 0 <= j < |row| => row[j].value)
  }

  lemma EpilogueRowExact(acc: Vec, w: Scaled)
    requires |w.q| == |acc| == |w.mu| == |w.k| && ScaledRanges(w)
    requires forall j | 0 <= j < |acc| :: InI64(acc[j])
    ensures AllSome(FastEpilogueRow(acc, w)) ==> Values(FastEpilogueRow(acc, w)) == EpilogueRow(acc, w)
  {
    hide MulU31Shr;
    hide Shr;
    forall j | 0 <= j < |acc|
      ensures MulU31Shr(acc[j], w.mu[j], w.k[j]).Some? ==>
        MulU31Shr(acc[j], w.mu[j], w.k[j]).value == Shr(acc[j] * w.mu[j], w.k[j])
    {
      MulU31ShrExact(acc[j], w.mu[j], w.k[j]);
    }
  }

  /** Scales the accumulators. `slow` reports that a lane could not be shifted
      in 64 bits and the whole block was redone with wide integers. */
  method Epilogue(acc: Mat, w: Scaled) returns (r: Option<Mat>, slow: bool)
    requires |w.q| == |w.mu| == |w.k| && ScaledRanges(w) && Wide(acc, |w.q|)
    requires forall i, j | 0 <= i < |acc| && 0 <= j < |acc[i]| :: InI64(acc[i][j])
    ensures r.None? <==> exists i :: 0 <= i < |acc| && !Bounded(EpilogueRow(acc[i], w), LIM62)
    ensures r.Some? ==> |r.value| == |acc| && forall i | 0 <= i < |acc| :: r.value[i] == EpilogueRow(acc[i], w)
  {
    hide FastEpilogueRow;
    hide EpilogueRow;
    var fast := seq(|acc|, i requires 0 <= i < |acc| => FastEpilogueRow(acc[i], w));
    slow := exists i | 0 <= i < |fast| :: !AllSome(fast[i]);
    var y: Mat;
    if slow {
      y := seq(|acc|, i requires 0 <= i < |acc| => EpilogueRow(acc[i], w));
    } else {
      forall i | 0 <= i < |acc|
        ensures Values(fast[i]) == EpilogueRow(acc[i], w)
      {
        EpilogueRowExact(acc[i], w);
      }
      y := seq(|fast|, i requires 0 <= i < |fast| => Values(fast[i]));
    }
    assert forall i | 0 <= i < |acc| :: y[i] == EpilogueRow(acc[i], w);
    r := Check62All(y);
    if r.None? {
      ghost var i :| 0 <= i < |y| && !Bounded(y[i], LIM62);
      assert !Bounded(EpilogueRow(acc[i], w), LIM62);
    }
  }

  lemma {:induction false} DotCommutes(a: Vec, b: Vec)
    ensures Dot(a, b) == Dot(b, a)
  {
    if a != [] && b != [] { DotCommutes(a[1..], b[1..]); }
  }

  lemma ProjectLanesFit(xs: Mat, q: Mat)
    requires forall i | 0 <= i < |xs| :: ProjectInputOk(xs[i])
    requires MatBounded(q, 127)
    ensures LanesFit([xs], [q])
  {
    hide AbsDot;
    hide AbsSum;
    forall i, j | 0 <= i < |xs| && 0 <= j < |q|
      ensures AbsDot(xs[i], q[j]) < TWO63
    {
      AbsDotBound(xs[i], q[j], 127);
    }
  }

  /** An accumulator row scaled is the plain projection. */
  lemma EpilogueIsProjection(x: Vec, acc: Vec, w: Scaled)
    requires |w.q| == |w.mu| == |w.k| && IsDotRow(acc, x, w.q)
    ensures EpilogueRow(acc, w) == ProjectValues(x, w)
  {
    hide Dot;
    hide Shr;
    forall j | 0 <= j < |acc|
      ensures acc[j] == Dot(w.q[j], x)
    {
      DotCommutes(x, w.q[j]);
    }
  }

  /** The accumulators of a projection: exact, and inside int64. */
  method Accumulate(f: Fpu, xs: Mat, q: Mat, k: nat) returns (acc: Mat)
    requires ValidFpu(f) && k < DIM_LIMIT && Wide(xs, k) && MatBounded(xs, LIM62) && MatBounded(q, 127)
    requires forall i | 0 <= i < |xs| :: ProjectInputOk(xs[i])
    ensures |acc| == |xs| && forall i | 0 <= i < |xs| :: IsDotRow(acc[i], xs[i], q)
    ensures forall i, j | 0 <= i < |acc| && 0 <= j < |acc[i]| :: InI64(acc[i][j])
  {
    hide ValidFpu;
    hide LeftBits;
    ProjectLanesFit(xs, q);
    BudgetSuffices(k, 127, true);
    var t := MatmulExact(f, [xs], [q], k, Some(127), false);
    acc := t.value[0];
    forall i | 0 <= i < |xs|
      ensures IsDotRow(acc[i], xs[i], q)
    {
      assert IsDotRow(t.value[0][i], [xs][0][i], [q][0]);
    }
    forall i, j | 0 <= i < |acc| && 0 <= j < |acc[i]|
      ensures InI64(acc[i][j])
    {
      assert AbsDot([xs][0][i], [q][0][j]) < TWO63;
      DotBound(xs[i], q[j]);
    }
  }

  method Project(f: Fpu, xs: Mat, w: Scaled, k: nat) returns (r: Option<Mat>, slow: bool)
    requires ValidFpu(f) && k < DIM_LIMIT && Wide(xs, k) && MatBounded(xs, LIM62)
    requires |w.q| == |w.mu| == |w.k| && ScaledRanges(w)
    ensures r == Collect(ProjectAll(xs, w))
  {
    hide ValidFpu;
    hide ProjectInputOk;
    hide ProjectValues;
    hide EpilogueRow;
    slow := false;
    var ok := CheckProjectionInput(f, xs);
    if !ok {
      ghost var i :| 0 <= i < |xs| && !ProjectInputOk(xs[i]);
      assert ProjectAll(xs, w)[i].None?;
      CollectIs(ProjectAll(xs, w), None);
      return None, false;
    }
    var acc := Accumulate(f, xs, w.q, k);
    r, slow := Epilogue(acc, w);
    forall i | 0 <= i < |xs|
      ensures EpilogueRow(acc[i], w) == ProjectValues(xs[i], w)
      ensures ProjectAll(xs, w)[i].None? <==> !Bounded(EpilogueRow(acc[i], w), LIM62)
    {
      EpilogueIsProjection(xs[i], acc[i], w);
    }
    CollectIs(ProjectAll(xs, w), r);
  }
}
