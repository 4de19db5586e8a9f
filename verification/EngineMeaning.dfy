/** What the dyadic engine computes, as equations between rows: every hidden
    row, key, value and attention row is tied to its neighbours by the meaning
    of the operators alone, and the engine's logits are the solution. */
module EngineMeaning {
  import opened Arithmetic
  import Exponential
  import opened ModernOps
  import opened ModernModel
  import opened OperatorMeaning
  import opened SlowEngine
  import opened LoopInterchange
  import opened BatchSweep

  // ---- heads ---------------------------------------------------------------------

  /** Consecutive query heads share one key/value head: head `kv` serves the
      nHeads / nKv query heads from kv * (nHeads / nKv) on. */
  lemma KvHeadGroups(m: Model, head: nat, kv: nat)
    requires Geometry(m) && m.nHeads % m.nKv == 0 && head < m.nHeads
    ensures KvHead(m, head) == kv <==> InGroup(head, kv, m.nHeads / m.nKv)
  {
    GroupOf(head, m.nKv, m.nHeads, kv);
  }

  /** r = floor(2^30 / sqrt(d)). */
  predicate IsScale(r: nat, d: nat)
  {
    r * r * d <= 0x1000_0000_0000_0000 < (r + 1) * (r + 1) * d
  }

  lemma LamMeaning(m: Model, r: nat)
    requires m.dHead > 0
    ensures m.Lam() == r <==> IsScale(r, m.dHead)
  {
    RootOfQuotient(0x1000_0000_0000_0000, m.dHead, m.Lam());
    if r < m.Lam() { RootOrder(r, m.Lam(), m.dHead); }
    if m.Lam() < r { RootOrder(m.Lam(), r, m.dHead); }
  }

  lemma RootOfQuotient(n: int, d: int, q: nat)
    requires d > 0 && q * q <= n / d < (q + 1) * (q + 1)
    ensures q * q * d <= n < (q + 1) * (q + 1) * d
  {
    DivBounds(n, d);
    MulMono(q * q, n / d, d);
    MulMono(n / d + 1, (q + 1) * (q + 1), d);
  }

  /** The columns of one head in every row. */
  function HeadOf(rows: Mat, h: nat, d: nat): Mat
    requires forall j | 0 <= j < |rows| :: h * d + d <= |rows[j]|
  {
    seq(|rows|, j requires 0 <= j < |rows| => rows[j][h * d..h * d + d])
  }

  /** Query head `h` of a row attends to the key/value head of its group. */
  ghost predicate IsHeadAttention(m: Model, q: Vec, keys: Mat, values: Mat, h: nat, kv: nat, y: Vec)
  {
    var d := m.dHead;
    && h * d + d <= |q| && h * d + d <= |y|
    && (forall j | 0 <= j < |keys| :: kv * d + d <= |keys[j]|)
    && (forall j | 0 <= j < |values| :: kv * d + d <= |values[j]|)
    && exists lam: nat :: IsScale(lam, d) && IsAttentionOf(m.table, q, keys, values, h, kv, d, lam, y)
  }

  ghost predicate IsAttentionOf(t: Vec, q: Vec, keys: Mat, values: Mat, h: nat, kv: nat, d: nat, lam: int, y: Vec)
    requires h * d + d <= |q| && h * d + d <= |y|
    requires forall j | 0 <= j < |keys| :: kv * d + d <= |keys[j]|
    requires forall j | 0 <= j < |values| :: kv * d + d <= |values[j]|
  {
    IsAttention(t, q[h * d..h * d + d], HeadOf(keys, kv, d), HeadOf(values, kv, d), lam, y[h * d..h * d + d])
  }

  /** A whole attention row. */
  ghost predicate IsAttendRow(m: Model, q: Vec, keys: Mat, values: Mat, y: Vec)
    requires m.nKv > 0
  {
    |y| == m.nHeads * m.dHead && forall h: nat | h < m.nHeads :: IsHead(m, q, keys, values, h, y)
  }

  ghost predicate IsHead(m: Model, q: Vec, keys: Mat, values: Mat, h: nat, y: Vec)
    requires m.nKv > 0
  {
    forall kv: nat | InGroup(h, kv, m.nHeads / m.nKv) :: IsHeadAttention(m, q, keys, values, h, kv, y)
  }

  /** Head `h` of an attention row. */
  lemma {:induction false} AttendAt(m: Model, q: Vec, keys: Mat, values: Mat, heads: nat, h: nat)
    requires Geometry(m) && Exponential.ValidTable(m.table) && h < heads <= m.nHeads && |q| == m.nHeads * m.dHead
    requires |keys| == |values| > 0 && CacheRows(m, keys) && CacheRows(m, values)
    ensures IsSlice(Attend(m, q, keys, values, heads), h, m.dHead, AttendHead(m, q, keys, values, h))
    decreases heads
  {
    hide AttendHead;
    var d := m.dHead;
    HeadInRange(h, heads, d);
    HeadInRange(heads - 1, heads, d);
    var done := Attend(m, q, keys, values, heads - 1);
    if h < heads - 1 {
      HeadInRange(h, heads - 1, d);
      AttendAt(m, q, keys, values, heads - 1, h);
      assert Attend(m, q, keys, values, heads)[h * d..h * d + d] == done[h * d..h * d + d];
    }
  }

  /** One head of a row is right exactly when it is the attention of its group. */
  lemma HeadMeaning(m: Model, q: Vec, keys: Mat, values: Mat, h: nat, y: Vec)
    requires Geometry(m) && Exponential.ValidTable(m.table) && h < m.nHeads && |q| == |y| == m.nHeads * m.dHead
    requires |keys| == |values| > 0 && CacheRows(m, keys) && CacheRows(m, values)
    ensures IsSlice(y, h, m.dHead, AttendHead(m, q, keys, values, h))
      <==> IsHeadAttention(m, q, keys, values, h, KvHead(m, h), y)
  {
    var d, kv, lam := m.dHead, KvHead(m, h), m.Lam();
    HeadInRange(h, m.nHeads, d);
    LamMeaning(m, lam);
    forall r: nat | IsScale(r, d) ensures r == lam { LamMeaning(m, r); }
    hide IsScale;
    hide KvHead;
    assert HeadRows(keys, kv, d) == HeadOf(keys, kv, d);
    assert HeadRows(values, kv, d) == HeadOf(values, kv, d);
    hide HeadRows;
    AttentionMeaning(m.table, q[h * d..h * d + d], HeadOf(keys, kv, d), HeadOf(values, kv, d), lam,
                     y[h * d..h * d + d]);
    hide IsAttention;
    hide AttentionInt;
  }

  lemma SameHeadIs(m: Model, q: Vec, keys: Mat, values: Mat, h: nat, y: Vec)
    requires Geometry(m) && m.nHeads % m.nKv == 0 && Exponential.ValidTable(m.table)
    requires h < m.nHeads && |q| == |y| == m.nHeads * m.dHead
    requires |keys| == |values| > 0 && CacheRows(m, keys) && CacheRows(m, values)
    ensures SameHead(y, Attend(m, q, keys, values, m.nHeads), h, m.dHead) <==> IsHead(m, q, keys, values, h, y)
  {
    hide Attend;
    hide AttendHead;
    hide IsHeadAttention;
    hide KvHead;
    hide InGroup;
    hide IsSlice;
    hide SameHead;
    AttendAt(m, q, keys, values, m.nHeads, h);
    HeadMeaning(m, q, keys, values, h, y);
    SameSlice(y, Attend(m, q, keys, values, m.nHeads), h, m.dHead, AttendHead(m, q, keys, values, h));
    KvHeadGroups(m, h, KvHead(m, h));
    forall kv: nat | InGroup(h, kv, m.nHeads / m.nKv) ensures kv == KvHead(m, h) { KvHeadGroups(m, h, kv); }
  }

  /** An attention row is right exactly when every query head attends to the
      keys and values of its group. */
  lemma AttendMeaning(m: Model, q: Vec, keys: Mat, values: Mat, y: Vec)
    requires Geometry(m) && m.nHeads % m.nKv == 0 && Exponential.ValidTable(m.table) && |q| == m.nHeads * m.dHead
    requires |keys| == |values| > 0 && CacheRows(m, keys) && CacheRows(m, values)
    ensures Attend(m, q, keys, values, m.nHeads) == y <==> IsAttendRow(m, q, keys, values, y)
  {
    hide Attend;
    hide IsHead;
    hide SameHead;
    var z := Attend(m, q, keys, values, m.nHeads);
    if |y| == |z| {
      HeadsEqual(y, z, m.nHeads, m.dHead);
      forall h: nat | h < m.nHeads
        ensures SameHead(y, z, h, m.dHead) <==> IsHead(m, q, keys, values, h, y)
      {
        SameHeadIs(m, q, keys, values, h, y);
      }
    }
  }

  // ---- one layer -------------------------------------------------------------------

  /** The heads of a row, turned when the layer turns them. */
  ghost predicate IsPlaced(m: Model, l: Layer, x: Vec, heads: nat, pos: nat, y: Vec)
    requires pos < |m.cos| && pos < |m.sin|
  {
    if l.rope then IsRotation(x, heads, m.dHead, m.cos[pos], m.sin[pos], y) else y == x
  }

  /** Keys and values are stored as int32. */
  predicate IsStorable(v: Vec) { forall i | 0 <= i < |v| :: -0x8000_0000 <= v[i] < 0x8000_0000 }

  /** Query, key and value rows come from the normalised hidden row by their own
      projections; only queries and keys are turned. */
  ghost predicate IsQkv(m: Model, l: Layer, pos: nat, h: Vec, p: Qkv)
    requires pos < |m.cos| && pos < |m.sin|
  {
    && IsStorable(p.k) && IsStorable(p.v)
    && exists n: Vec, q: Vec, k: Vec ::
         && IsNormalisation(h, l.attnNorm, m.eps, n)
         && IsProjection(n, l.wq, q) && IsProjection(n, l.wk, k) && IsProjection(n, l.wv, p.v)
         && IsPlaced(m, l, q, m.nHeads, pos, p.q) && IsPlaced(m, l, k, m.nKv, pos, p.k)
  }

  lemma PlacedMeaning(m: Model, l: Layer, x: Vec, heads: nat, pos: nat, y: Vec)
    requires ValidModel(m) && heads * m.dHead == |x| && pos < m.maxSeq
    ensures Rotate(m, l, x, heads, pos) == Some(y) <==> IsPlaced(m, l, x, heads, pos, y)
  {
    hide ValidLayer;
    RotationMeaning(x, heads, m.dHead, m.cos[pos], m.sin[pos], y);
    hide IsRotation;
    hide RopeInt;
  }

  lemma QkvMeaning(m: Model, l: Layer, pos: nat, h: Vec, p: Qkv)
    requires ValidModel(m) && ValidLayer(m, l) && pos < m.maxSeq && |h| == m.dModel
    ensures TokenQkv(m, l, pos, h) == Some(p) <==> IsQkv(m, l, pos, h, p)
  {
    QkvFound(m, l, pos, h, p);
    QkvGiven(m, l, pos, h, p);
  }

  lemma QkvFound(m: Model, l: Layer, pos: nat, h: Vec, p: Qkv)
    requires ValidModel(m) && ValidLayer(m, l) && pos < m.maxSeq && |h| == m.dModel
    ensures TokenQkv(m, l, pos, h) == Some(p) ==> IsQkv(m, l, pos, h, p)
  {
    hide RmsNormInt;
    hide ProjectInt;
    hide Rotate;
    hide IsNormalisation;
    hide IsProjection;
    hide IsPlaced;
    if TokenQkv(m, l, pos, h) == Some(p) {
      var n := RmsNormInt(h, l.attnNorm, m.eps).value;
      var q, k := ProjectInt(n, l.wq).value, ProjectInt(n, l.wk).value;
      NormMeaning(h, l.attnNorm, m.eps, n);
      ProjectMeaning(n, l.wq, q);
      ProjectMeaning(n, l.wk, k);
      ProjectMeaning(n, l.wv, p.v);
      PlacedMeaning(m, l, q, m.nHeads, pos, p.q);
      PlacedMeaning(m, l, k, m.nKv, pos, p.k);
    }
  }

  lemma QkvGiven(m: Model, l: Layer, pos: nat, h: Vec, p: Qkv)
    requires ValidModel(m) && ValidLayer(m, l) && pos < m.maxSeq && |h| == m.dModel
    ensures IsQkv(m, l, pos, h, p) ==> TokenQkv(m, l, pos, h) == Some(p)
  {
    hide RmsNormInt;
    hide ProjectInt;
    hide Rotate;
    hide IsNormalisation;
    hide IsProjection;
    hide IsPlaced;
    if IsQkv(m, l, pos, h, p) {
      var n: Vec, q: Vec, k: Vec :|
        && IsNormalisation(h, l.attnNorm, m.eps, n)
        && IsProjection(n, l.wq, q) && IsProjection(n, l.wk, k) && IsProjection(n, l.wv, p.v)
        && IsPlaced(m, l, q, m.nHeads, pos, p.q) && IsPlaced(m, l, k, m.nKv, pos, p.k);
      NormMeaning(h, l.attnNorm, m.eps, n);
      ProjectMeaning(n, l.wq, q);
      ProjectMeaning(n, l.wk, k);
      ProjectMeaning(n, l.wv, p.v);
      PlacedMeaning(m, l, q, m.nHeads, pos, p.q);
      PlacedMeaning(m, l, k, m.nKv, pos, p.k);
    }
  }

  /** The first half of what follows attention: h1 is the hidden row plus the
      projected attention, n its normalisation. */
  ghost predicate IsMiddle(m: Model, l: Layer, h: Vec, att: Vec, h1: Vec, n: Vec)
  {
    exists o: Vec :: IsProjection(att, l.wo, o) && IsAddition(h, o, h1) && IsNormalisation(h1, l.ffnNorm, m.eps, n)
  }

  /** The second half: gate and up projections of n, the gated activation, the
      down projection, added to h1. */
  ghost predicate IsForwarded(m: Model, l: Layer, h1: Vec, n: Vec, y: Vec)
  {
    exists g: Vec, u: Vec, a: Vec, d: Vec ::
      && IsProjection(n, l.wGate, g) && IsProjection(n, l.wUp, u) && IsActivation(m.table, g, u, a)
      && IsProjection(a, l.wDown, d) && IsAddition(h1, d, y)
  }

  /** The rest of a layer once attention is known. */
  ghost predicate IsFinished(m: Model, l: Layer, h: Vec, att: Vec, y: Vec)
  {
    exists h1: Vec, n: Vec :: IsMiddle(m, l, h, att, h1, n) && IsForwarded(m, l, h1, n, y)
  }

  /** The same two halves as the engine takes them. */
  function Middle(m: Model, l: Layer, h: Vec, att: Vec): Option<(Vec, Vec)>
    requires ValidModel(m) && ValidLayer(m, l) && |h| == m.dModel
  {
    var o :- ProjectInt(att, l.wo);
    var h1 :- ResidualInt(h, o);
    var n :- RmsNormInt(h1, l.ffnNorm, m.eps);
    Some((h1, n))
  }

  function Forwarded(m: Model, l: Layer, h1: Vec, n: Vec): Option<Vec>
    requires ValidModel(m) && ValidLayer(m, l)
  {
    var g :- ProjectInt(n, l.wGate);
    var u :- ProjectInt(n, l.wUp);
    var a :- SiluInt(m.table, g, u);
    var d :- ProjectInt(a, l.wDown);
    ResidualInt(h1, d)
  }

  lemma MiddleMeaning(m: Model, l: Layer, h: Vec, att: Vec, h1: Vec, n: Vec)
    requires ValidModel(m) && ValidLayer(m, l) && |h| == m.dModel
    ensures Middle(m, l, h, att) == Some((h1, n)) <==> IsMiddle(m, l, h, att, h1, n)
  {
    hide RmsNormInt;
    hide ProjectInt;
    hide ResidualInt;
    hide IsNormalisation;
    hide IsProjection;
    hide IsAddition;
    var o := ProjectInt(att, l.wo);
    if o.Some? { ProjectMeaning(att, l.wo, o.value); }
    forall o': Vec | IsProjection(att, l.wo, o') ensures o == Some(o') { ProjectMeaning(att, l.wo, o'); }
    if o.Some? {
      ResidualMeaning(h, o.value, h1);
      if ResidualInt(h, o.value) == Some(h1) { NormMeaning(h1, l.ffnNorm, m.eps, n); }
    }
  }

  lemma ForwardedFound(m: Model, l: Layer, h1: Vec, n: Vec, y: Vec)
    requires ValidModel(m) && ValidLayer(m, l)
    ensures Forwarded(m, l, h1, n) == Some(y) ==> IsForwarded(m, l, h1, n, y)
  {
    hide ProjectInt;
    hide ResidualInt;
    hide SiluInt;
    hide IsProjection;
    hide IsActivation;
    hide IsAddition;
    if Forwarded(m, l, h1, n) == Some(y) {
      var g, u := ProjectInt(n, l.wGate).value, ProjectInt(n, l.wUp).value;
      var a := SiluInt(m.table, g, u).value;
      var d := ProjectInt(a, l.wDown).value;
      ProjectMeaning(n, l.wGate, g);
      ProjectMeaning(n, l.wUp, u);
      SiluMeaning(m.table, g, u, a);
      ProjectMeaning(a, l.wDown, d);
      ResidualMeaning(h1, d, y);
    }
  }

  lemma ForwardedGiven(m: Model, l: Layer, h1: Vec, n: Vec, y: Vec)
    requires ValidModel(m) && ValidLayer(m, l)
    ensures IsForwarded(m, l, h1, n, y) ==> Forwarded(m, l, h1, n) == Some(y)
  {
    hide ProjectInt;
    hide ResidualInt;
    hide SiluInt;
    hide IsProjection;
    hide IsActivation;
    hide IsAddition;
    if IsForwarded(m, l, h1, n, y) {
      var g: Vec, u: Vec, a: Vec, d: Vec :|
        && IsProjection(n, l.wGate, g) && IsProjection(n, l.wUp, u) && IsActivation(m.table, g, u, a)
        && IsProjection(a, l.wDown, d) && IsAddition(h1, d, y);
      ProjectMeaning(n, l.wGate, g);
      ProjectMeaning(n, l.wUp, u);
      SiluMeaning(m.table, g, u, a);
      ProjectMeaning(a, l.wDown, d);
      ResidualMeaning(h1, d, y);
    }
  }

  lemma FinishMeaning(m: Model, l: Layer, h: Vec, att: Vec, y: Vec)
    requires ValidModel(m) && ValidLayer(m, l) && |h| == m.dModel
    ensures FinishLayer(m, l, h, att) == Some(y) <==> IsFinished(m, l, h, att, y)
  {
    FinishIs(m, l, h, att);
    hide FinishLayer;
    hide Middle;
    hide Forwarded;
    hide IsMiddle;
    hide IsForwarded;
    var c := Middle(m, l, h, att);
    if c.Some? {
      MiddleMeaning(m, l, h, att, c.value.0, c.value.1);
      ForwardedFound(m, l, c.value.0, c.value.1, y);
    }
    if IsFinished(m, l, h, att, y) {
      var h1: Vec, n: Vec :| IsMiddle(m, l, h, att, h1, n) && IsForwarded(m, l, h1, n, y);
      MiddleMeaning(m, l, h, att, h1, n);
      ForwardedGiven(m, l, h1, n, y);
    }
  }

  lemma FinishIs(m: Model, l: Layer, h: Vec, att: Vec)
    requires ValidModel(m) && ValidLayer(m, l) && |h| == m.dModel
    ensures var c := Middle(m, l, h, att);
      FinishLayer(m, l, h, att) == if c.None? then None else Forwarded(m, l, c.value.0, c.value.1)
  {
    hide RmsNormInt;
    hide ProjectInt;
    hide ResidualInt;
    hide SiluInt;
  }

  // ---- one layer over a sequence -----------------------------------------------------

  /** Position p of a layer: its own query, key and value, attention over the
      keys and values up to it, and the rest of the layer. */
  ghost predicate IsPosition(m: Model, l: Layer, hs: Mat, ts: seq<Qkv>, atts: Mat, outs: Mat, p: nat)
    requires m.nKv > 0 && p < |hs| == |ts| == |atts| == |outs| && p < |m.cos| && p < |m.sin|
  {
    && IsQkv(m, l, p, hs[p], ts[p])
    && IsAttendRow(m, ts[p].q, Keys(ts)[..p + 1], Vals(ts)[..p + 1], atts[p])
    && IsFinished(m, l, hs[p], atts[p], outs[p])
  }

  ghost predicate IsLayer(m: Model, l: Layer, hs: Mat, ts: seq<Qkv>, atts: Mat, outs: Mat)
    requires m.nKv > 0 && |hs| <= |m.cos| && |hs| <= |m.sin|
  {
    && |hs| == |ts| == |atts| == |outs|
    && forall p | 0 <= p < |hs| :: IsPosition(m, l, hs, ts, atts, outs, p)
  }

  lemma PositionMeaning(m: Model, l: Layer, hs: Mat, ts: seq<Qkv>, atts: Mat, outs: Mat, p: nat)
    requires ValidModel(m) && ValidLayer(m, l) && |hs| <= m.maxSeq && HiddenRows(m, hs) && QkvShaped(m, ts)
    requires p < |hs| == |ts| == |atts| == |outs|
    ensures IsPosition(m, l, hs, ts, atts, outs, p) <==>
      && TokenQkv(m, l, p, hs[p]) == Some(ts[p])
      && Attend(m, ts[p].q, Keys(ts)[..p + 1], Vals(ts)[..p + 1], m.nHeads) == atts[p]
      && FinishLayer(m, l, hs[p], atts[p]) == Some(outs[p])
  {
    QkvMeaning(m, l, p, hs[p], ts[p]);
    AttendMeaning(m, ts[p].q, Keys(ts)[..p + 1], Vals(ts)[..p + 1], atts[p]);
    FinishMeaning(m, l, hs[p], atts[p], outs[p]);
    hide TokenQkv;
    hide Attend;
    hide FinishLayer;
    hide IsQkv;
    hide IsAttendRow;
    hide IsFinished;
  }

  lemma LayerFound(m: Model, l: Layer, hs: Mat) returns (ts: seq<Qkv>, atts: Mat)
    requires ValidModel(m) && ValidLayer(m, l) && |hs| <= m.maxSeq && HiddenRows(m, hs)
    requires LayerSweep(m, l, hs).Some?
    ensures IsLayer(m, l, hs, ts, atts, LayerSweep(m, l, hs).value.hidden)
  {
    hide LayerSweep;
    hide TokenQkv;
    hide Attend;
    hide FinishLayer;
    hide IsPosition;
    hide ValidLayer;
    hide ValidScaled;
    ts := SweepGivesRows(m, l, hs);
    var outs := seq(|hs|, p requires 0 <= p < |hs| => RowOutput(m, l, hs, ts, p).value);
    SweepFromRows(m, l, hs, ts, outs);
    atts := seq(|hs|, p requires 0 <= p < |hs| =>
      Attend(m, ts[p].q, Keys(ts)[..p + 1], Vals(ts)[..p + 1], m.nHeads));
    forall p | 0 <= p < |hs|
      ensures IsPosition(m, l, hs, ts, atts, outs, p)
    {
      assert RowOutput(m, l, hs, ts, p) == Some(outs[p]);
      PositionMeaning(m, l, hs, ts, atts, outs, p);
    }
  }

  lemma LayerGiven(m: Model, l: Layer, hs: Mat, ts: seq<Qkv>, atts: Mat, outs: Mat)
    requires ValidModel(m) && ValidLayer(m, l) && |hs| <= m.maxSeq && HiddenRows(m, hs)
    requires IsLayer(m, l, hs, ts, atts, outs)
    ensures LayerSweep(m, l, hs).Some? && LayerSweep(m, l, hs).value.hidden == outs
  {
    hide LayerSweep;
    hide Attend;
    hide FinishLayer;
    hide IsPosition;
    hide ValidLayer;
    hide ValidScaled;
    ShapedRows(m, l, hs, ts, atts, outs);
    forall p | 0 <= p < |hs|
      ensures TokenQkv(m, l, p, hs[p]) == Some(ts[p]) && RowOutput(m, l, hs, ts, p) == Some(outs[p])
    {
      PositionMeaning(m, l, hs, ts, atts, outs, p);
    }
    hide TokenQkv;
    SweepFromRows(m, l, hs, ts, outs);
  }

  lemma ShapedRows(m: Model, l: Layer, hs: Mat, ts: seq<Qkv>, atts: Mat, outs: Mat)
    requires ValidModel(m) && ValidLayer(m, l) && |hs| <= m.maxSeq && HiddenRows(m, hs)
    requires IsLayer(m, l, hs, ts, atts, outs)
    ensures QkvShaped(m, ts)
  {
    hide IsAttendRow;
    hide IsFinished;
    forall p | 0 <= p < |hs|
      ensures |ts[p].q| == m.nHeads * m.dHead && |ts[p].k| == |ts[p].v| == m.nKv * m.dHead
    {
      assert IsPosition(m, l, hs, ts, atts, outs, p);
      QkvMeaning(m, l, p, hs[p], ts[p]);
      hide IsQkv;
      hide TokenQkv;
    }
  }

  // ---- the whole run -------------------------------------------------------------------

  /** The embedding row of a token. */
  ghost predicate IsToken(m: Model, token: int, y: Vec)
  {
    && 0 <= token < |m.embed.q| && token < |m.embed.mu| && token < |m.embed.k| && m.embed.k[token] >= 16
    && IsEmbedding(m.embed.q[token], m.embed.mu[token], m.embed.k[token], y)
  }

  /** The logits of a hidden row: the normalised row against every embedding. */
  ghost predicate IsLogits(m: Model, h: Vec, y: Vec)
  {
    exists n: Vec :: IsNormalisation(h, m.finalNorm, m.eps, n) && IsProjection(n, m.embed, y)
  }

  /** A layer leads from the rows below to the rows above. */
  ghost predicate Leads(m: Model, l: Layer, hs: Mat, outs: Mat)
    requires m.nKv > 0 && |hs| <= |m.cos| && |hs| <= |m.sin|
  {
    exists ts: seq<Qkv>, atts: Mat :: IsLayer(m, l, hs, ts, atts, outs)
  }

  /** The hidden rows of a token sequence after l layers. */
  ghost predicate IsGrid(m: Model, tokens: seq<int>, l: nat, hs: Mat)
    requires m.nKv > 0 && |tokens| <= |m.cos| && |tokens| <= |m.sin| && l <= |m.layers|
  {
    if l == 0 then |hs| == |tokens| && forall p | 0 <= p < |hs| :: IsToken(m, tokens[p], hs[p])
    else
      var k: nat, layer := l - 1, m.layers[l - 1];
      exists below: Mat :: |below| == |tokens| && IsGrid(m, tokens, k, below) && Leads(m, layer, below, hs)
  }

  /** The logits of a token sequence. */
  ghost predicate IsRun(m: Model, tokens: seq<int>, ys: Mat)
    requires m.nKv > 0 && |tokens| <= |m.cos| && |tokens| <= |m.sin|
  {
    exists hs: Mat :: IsGrid(m, tokens, |m.layers|, hs) && AreLogits(m, hs, ys)
  }

  ghost predicate AreLogits(m: Model, hs: Mat, ys: Mat)
  {
    |hs| == |ys| && forall p | 0 <= p < |hs| :: IsLogits(m, hs[p], ys[p])
  }

  lemma TokenMeaning(m: Model, token: int, y: Vec)
    requires ValidModel(m) && 0 <= token < m.vocab
    ensures EmbedToken(m, token) == Some(y) <==> IsToken(m, token, y)
  {
    hide ValidLayer;
    EmbedMeaning(m.embed.q[token], m.embed.mu[token], m.embed.k[token], y);
    hide EmbedInt;
    hide IsEmbedding;
  }

  lemma LogitsMeaning(m: Model, h: Vec, y: Vec)
    requires ValidModel(m) && |h| == m.dModel
    ensures LmHead(m, h) == Some(y) <==> IsLogits(m, h, y)
  {
    hide ValidLayer;
    hide RmsNormInt;
    hide ProjectInt;
    hide IsNormalisation;
    hide IsProjection;
    var n := RmsNormInt(h, m.finalNorm, m.eps);
    if n.Some? {
      NormMeaning(h, m.finalNorm, m.eps, n.value);
      ProjectMeaning(n.value, m.embed, y);
    }
    forall n': Vec | IsNormalisation(h, m.finalNorm, m.eps, n')
      ensures n == Some(n')
    {
      NormMeaning(h, m.finalNorm, m.eps, n');
    }
  }

  lemma {:induction false} EmbedAllMeaning(m: Model, tokens: seq<int>, hs: Mat)
    requires ValidModel(m) && InVocab(m, tokens)
    ensures EmbedAll(m, tokens) == Some(hs) <==>
      |hs| == |tokens| && forall p | 0 <= p < |hs| :: IsToken(m, tokens[p], hs[p])
    decreases |tokens|
  {
    hide ValidModel;
    hide EmbedToken;
    hide IsToken;
    if tokens != [] && |hs| == |tokens| {
      var n := |tokens| - 1;
      EmbedAllMeaning(m, tokens[..n], hs[..n]);
      TokenMeaning(m, tokens[n], hs[n]);
      assert hs == hs[..n] + [hs[n]];
      assert forall p | 0 <= p < n :: tokens[p] == tokens[..n][p] && hs[p] == hs[..n][p];
    }
  }

  lemma {:induction false} HeadAllMeaning(m: Model, hs: Mat, ys: Mat)
    requires ValidModel(m) && HiddenRows(m, hs)
    ensures HeadAll(m, hs) == Some(ys) <==> AreLogits(m, hs, ys)
    decreases |hs|
  {
    hide ValidModel;
    hide LmHead;
    hide IsLogits;
    if hs != [] && |ys| == |hs| {
      var n := |hs| - 1;
      HeadAllMeaning(m, hs[..n], ys[..n]);
      LogitsMeaning(m, hs[n], ys[n]);
      assert ys == ys[..n] + [ys[n]];
      assert forall p | 0 <= p < n :: hs[p] == hs[..n][p] && ys[p] == ys[..n][p];
    }
  }

  lemma LeadsMeaning(m: Model, l: Layer, hs: Mat, outs: Mat)
    requires ValidModel(m) && ValidLayer(m, l) && |hs| <= m.maxSeq && HiddenRows(m, hs)
    ensures Leads(m, l, hs, outs) <==> LayerSweep(m, l, hs).Some? && LayerSweep(m, l, hs).value.hidden == outs
  {
    hide ValidLayer;
    hide ValidScaled;
    hide LayerSweep;
    hide IsLayer;
    if LayerSweep(m, l, hs).Some? { var ts, atts := LayerFound(m, l, hs); }
    if Leads(m, l, hs, outs) {
      var ts: seq<Qkv>, atts: Mat :| IsLayer(m, l, hs, ts, atts, outs);
      LayerGiven(m, l, hs, ts, atts, outs);
    }
  }

  lemma {:induction false} GridMeaning(m: Model, tokens: seq<int>, l: nat, hs: Mat)
    requires ValidModel(m) && InVocab(m, tokens) && |tokens| <= m.maxSeq && l <= |m.layers|
    ensures Grid(m, tokens, l) == Some(hs) <==> IsGrid(m, tokens, l, hs)
    decreases l
  {
    hide ValidLayer;
    hide ValidScaled;
    hide LayerSweep;
    hide Leads;
    hide EmbedAll;
    hide IsToken;
    if l == 0 {
      EmbedAllMeaning(m, tokens, hs);
    } else {
      var g, layer := Grid(m, tokens, l - 1), m.layers[l - 1];
      if g.Some? {
        GridMeaning(m, tokens, l - 1, g.value);
        LeadsMeaning(m, layer, g.value, hs);
      }
      forall below: Mat | |below| == |tokens| && IsGrid(m, tokens, l - 1, below)
        ensures g == Some(below)
      {
        GridMeaning(m, tokens, l - 1, below);
      }
    }
  }

  /** The engine's logits are the solution of the equations: for every token
      sequence a run succeeds with logits ys exactly when all tokens are in the
      vocabulary, the sequence fits, and ys solves the equations of the model. */
  lemma RunMeaning(m: Model, tokens: seq<int>, ys: Mat)
    requires ValidModel(m)
    ensures (SlowRun(m, tokens).Some? && SlowRun(m, tokens).value.logits == ys) <==>
      && (forall p | 0 <= p < |tokens| :: 0 <= tokens[p] < m.vocab) && |tokens| <= m.maxSeq
      && IsRun(m, tokens, ys)
  {
    hide ValidLayer;
    hide ValidScaled;
    hide SlowRun;
    hide Grid;
    hide IsGrid;
    hide HeadAll;
    hide AreLogits;
    TokenMajorIsLayerMajor(m, tokens);
    if InVocab(m, tokens) && |tokens| <= m.maxSeq {
      var g := Grid(m, tokens, |m.layers|);
      if g.Some? {
        GridMeaning(m, tokens, |m.layers|, g.value);
        HeadAllMeaning(m, g.value, ys);
      }
      forall hs: Mat | IsGrid(m, tokens, |m.layers|, hs)
        ensures g == Some(hs)
      {
        GridMeaning(m, tokens, |m.layers|, hs);
      }
    }
  }
}
