/** Rewriting a model from adjacent RoPE pairs to split halves keeps its meaning:
    same logits and same refusals at every position of every token sequence. */
module RopeRewrite {
  import opened Arithmetic
  import opened LegacyOps
  import opened LegacyModel
  import opened RopeLayouts

  predicate WholeMatrix(w: Matrix, d: nat)
    requires d > 0
  {
    |w.rows| == |w.scales| && |w.rows| % d == 0
  }

  /** The rows of Q and K form whole heads, however many: what rewriting their
      heads asks for. */
  predicate WholeHeads(m: Model)
    requires Geometry(m)
  {
    && m.HeadDim() > 0
    && forall i | 0 <= i < |m.layers| ::
         WholeMatrix(m.layers[i].wq, m.HeadDim()) && WholeMatrix(m.layers[i].wk, m.HeadDim())
  }

  lemma WholeCount(n: nat, d: nat)
    requires d > 0 && n % d == 0
    ensures n == (n / d) * d
  {
  }

  function RewrittenLayer(l: Layer, d: nat): Layer
    requires d > 0
  {
    l.(wq := PermMatrix(l.wq, d), wk := PermMatrix(l.wk, d))
  }

  /** The same model in the split-half profile, with Q and K rows permuted. */
  function Rewritten(m: Model): (r: Model)
    requires Geometry(m) && WholeHeads(m)
    ensures Geometry(r) && r.HeadDim() == m.HeadDim() && |r.layers| == |m.layers| && !r.interleaved
    ensures r.heads == m.heads && r.kvHeads == m.kvHeads && r.scale == m.scale && r.angles == m.angles
  {
    m.(interleaved := false,
       layers := seq(|m.layers|, i requires 0 <= i < |m.layers| => RewrittenLayer(m.layers[i], m.HeadDim())))
  }

  function PermKeys(k: seq<Mat>, d: nat): (r: seq<Mat>)
    requires d > 0
    ensures |r| == |k|
  {
    seq(|k|, i requires 0 <= i < |k| => PermRows(k[i], d))
  }

  /** The cache with every key row permuted; values are not touched. */
  function PermCache(c: Cache, d: nat): Cache
    requires d > 0
  {
    c.(k := PermKeys(c.k, d))
  }

  predicate WholeKeys(m: Model, c: Cache)
  {
    forall i | 0 <= i < |c.k| && i < |m.layers| :: WholeRows(c.k[i], |m.layers[i].wk.rows|)
  }

  // ---- one layer -------------------------------------------------------------

  lemma ProjectionsPerm(m: Model, i: nat, hidden: Vec)
    requires Geometry(m) && WholeHeads(m) && i < |m.layers|
    ensures var d, p := m.HeadDim(), Projections(m, m.layers[i], hidden);
      Projections(Rewritten(m), Rewritten(m).layers[i], hidden)
        == if p.None? then None else Some(Qkv(PermHeads(p.value.q, d), PermHeads(p.value.k, d), p.value.v))
    ensures var d, p := m.HeadDim(), Projections(m, m.layers[i], hidden);
      p.Some? ==> |p.value.q| == |m.layers[i].wq.rows| && |p.value.k| == |m.layers[i].wk.rows|
  {
    hide RmsNorm;
    hide MatmulRows;
    hide PermHeads;
    var l, d := m.layers[i], m.HeadDim();
    var normed := RmsNorm(hidden, l.attnNorm);
    WholeCount(|l.wq.rows|, d);
    WholeCount(|l.wk.rows|, d);
    if normed.Some? {
      MatmulPerm(l.wq.rows, l.wq.scales, |l.wq.rows| / d, d, normed.value);
      MatmulPerm(l.wk.rows, l.wk.scales, |l.wk.rows| / d, d, normed.value);
    }
  }

  lemma PreparePerm(m: Model, i: nat, hidden: Vec, pos: nat)
    requires Geometry(m) && WholeHeads(m) && m.interleaved && i < |m.layers|
    ensures var d, p := m.HeadDim(), Prepare(m, m.layers[i], hidden, pos);
      Prepare(Rewritten(m), Rewritten(m).layers[i], hidden, pos)
        == if p.None? then None else Some(Qkv(PermHeads(p.value.q, d), PermHeads(p.value.k, d), p.value.v))
    ensures var d, p := m.HeadDim(), Prepare(m, m.layers[i], hidden, pos);
      p.Some? ==> |p.value.q| == |m.layers[i].wq.rows| && |p.value.k| == |m.layers[i].wk.rows|
  {
    hide Projections;
    hide PermHeads;
    hide RopeHeads;
    hide WholeHeads;
    hide Rewritten;
    hide Geometry;
    ProjectionsPerm(m, i, hidden);
    HeadFacts(m);
    var nq, nk := LayerCounts(m, i);
    var d, p := m.HeadDim(), Projections(m, m.layers[i], hidden);
    if p.Some? {
      RopeHeadsPerm(p.value.q, nq, m.heads, d, pos, m.angles);
      RopeHeadsPerm(p.value.k, nk, m.kvHeads, d, pos, m.angles);
    }
  }

  /** How many heads the rows of Q and K form. */
  lemma LayerCounts(m: Model, i: nat) returns (nq: nat, nk: nat)
    requires Geometry(m) && WholeHeads(m) && i < |m.layers|
    ensures |m.layers[i].wq.rows| == nq * m.HeadDim() && |m.layers[i].wk.rows| == nk * m.HeadDim()
  {
    var d := m.HeadDim();
    nq, nk := |m.layers[i].wq.rows| / d, |m.layers[i].wk.rows| / d;
    WholeCount(|m.layers[i].wq.rows|, d);
    WholeCount(|m.layers[i].wk.rows|, d);
  }

  lemma SameKvHead(m: Model, head: nat)
    requires Geometry(m) && WholeHeads(m)
    ensures KvHead(Rewritten(m), head) == KvHead(m, head)
  {
    hide WholeHeads;
  }

  lemma {:induction false} AttendPerm(m: Model, q: Vec, nq: nat, keys: Mat, nk: nat, values: Mat, n: nat)
    requires Geometry(m) && WholeHeads(m)
    requires |q| == nq * m.HeadDim() && WholeRows(keys, nk * m.HeadDim())
    ensures Attend(Rewritten(m), PermHeads(q, m.HeadDim()), PermRows(keys, m.HeadDim()), values, n)
         == Attend(m, q, keys, values, n)
  {
    hide *;
    HeadFacts(m);
    var d, r := m.HeadDim(), Rewritten(m);
    var q', keys' := PermHeads(q, d), PermRows(keys, d);
    if n == 0 {
      AttendNone(m, q, keys, values);
      AttendNone(r, q', keys', values);
    } else {
      var g := KvHead(m, n - 1);
      SameKvHead(m, n - 1);
      AttendPerm(m, q, nq, keys, nk, values, n - 1);
      AttentionHeadPerm(q, nq, n - 1, keys, nk, g, HeadRows(values, g, d), d, m.scale);
      if Attend(m, q, keys, values, n - 1).Some? {
        AttendNext(m, q, keys, values, n - 1);
        AttendNext(r, q', keys', values, n - 1);
      } else {
        AttendRefused(m, q, keys, values, n - 1, n);
        AttendRefused(r, q', keys', values, n - 1, n);
      }
    }
  }

  lemma HeadFacts(m: Model)
    requires Geometry(m) && WholeHeads(m)
    ensures m.heads > 0 && m.HeadDim() > 0 && m.HeadDim() % 2 == 0
  {
  }

  lemma LayerPerm(m: Model, i: nat, hidden: Vec, c: Cache, pos: nat)
    requires Geometry(m) && WholeHeads(m) && m.interleaved && i < |m.layers| && CacheFor(m, c) && WholeKeys(m, c)
    ensures var d, o := m.HeadDim(), LayerStep(m, i, hidden, c, pos);
      && WholeKeys(m, o.cache)
      && LayerStep(Rewritten(m), i, hidden, PermCache(c, d), pos) == Outcome(PermCache(o.cache, d), o.result)
  {
    var d, r := m.HeadDim(), Rewritten(m);
    PreparePerm(m, i, hidden, pos);
    assert CacheFor(r, PermCache(c, d));
    var p := Prepare(m, m.layers[i], hidden, pos);
    if p.Some? {
      var next := Appended(c, i, p.value);
      AppendPerm(c, i, p.value, d);
      assert WholeKeys(m, next) by { AppendWhole(m, c, i, p.value); }
      assert WholeRows(next.k[i], |m.layers[i].wk.rows|);
      CompletePerm(m, i, hidden, p.value.q, next.k[i], next.v[i]);
    }
    hide Prepare;
    hide Complete;
    hide PermKeys;
    hide PermHeads;
    hide WholeKeys;
    hide WholeHeads;
    hide Geometry;
    hide Rewritten;
  }

  lemma AppendWhole(m: Model, c: Cache, i: nat, p: Qkv)
    requires CacheFor(m, c) && i < |m.layers| && WholeKeys(m, c) && |p.k| == |m.layers[i].wk.rows|
    ensures WholeKeys(m, Appended(c, i, p))
  {
    var n := |m.layers[i].wk.rows|;
    assert WholeRows(c.k[i], n);
    assert WholeRows(c.k[i] + [p.k], n);
  }

  lemma FinishSame(l: Layer, d: nat, hidden: Vec, attn: Vec)
    requires d > 0
    ensures Finish(RewrittenLayer(l, d), hidden, attn) == Finish(l, hidden, attn)
  {
    hide PermMatrix;
  }

  lemma CompletePerm(m: Model, i: nat, hidden: Vec, q: Vec, keys: Mat, values: Mat)
    requires Geometry(m) && WholeHeads(m) && i < |m.layers|
    requires |q| == |m.layers[i].wq.rows| && WholeRows(keys, |m.layers[i].wk.rows|)
    ensures var d, r := m.HeadDim(), Rewritten(m);
      Complete(r, r.layers[i], hidden, PermHeads(q, d), PermRows(keys, d), values)
        == Complete(m, m.layers[i], hidden, q, keys, values)
  {
    hide Attend;
    hide Finish;
    hide Geometry;
    hide Rewritten;
    hide WholeHeads;
    hide RewrittenLayer;
    HeadFacts(m);
    RewrittenLayerAt(m, i);
    var nq, nk := LayerCounts(m, i);
    AttendPerm(m, q, nq, keys, nk, values, m.heads);
    var attn := Attend(m, q, keys, values, m.heads);
    if attn.Some? { FinishSame(m.layers[i], m.HeadDim(), hidden, attn.value); }
  }

  lemma RewrittenLayerAt(m: Model, i: nat)
    requires Geometry(m) && WholeHeads(m) && i < |m.layers|
    ensures Rewritten(m).layers[i] == RewrittenLayer(m.layers[i], m.HeadDim())
  {
  }

  lemma AppendPerm(c: Cache, i: nat, p: Qkv, d: nat)
    requires i < |c.k| == |c.v| && d > 0
    ensures PermCache(Appended(c, i, p), d) == Appended(PermCache(c, d), i, Qkv(p.q, PermHeads(p.k, d), p.v))
    ensures PermCache(Appended(c, i, p), d).k[i] == PermRows(c.k[i] + [p.k], d)
  {
    hide PermHeads;
    assert PermRows(c.k[i] + [p.k], d) == PermRows(c.k[i], d) + [PermHeads(p.k, d)];
    assert PermKeys(c.k[i := c.k[i] + [p.k]], d) == PermKeys(c.k, d)[i := PermRows(c.k[i] + [p.k], d)];
  }

  // ---- layers, tokens, sequences ------------------------------------------------

  lemma {:induction false} RunLayersPerm(m: Model, hidden: Vec, c: Cache, start: nat, end: nat, pos: nat)
    requires Geometry(m) && WholeHeads(m) && m.interleaved && end <= |m.layers| && CacheFor(m, c) && WholeKeys(m, c)
    ensures var d, o := m.HeadDim(), RunLayers(m, hidden, c, start, end, pos);
      && WholeKeys(m, o.cache)
      && RunLayers(Rewritten(m), hidden, PermCache(c, d), start, end, pos) == Outcome(PermCache(o.cache, d), o.result)
    decreases end - start
  {
    hide LayerStep;
    hide PermKeys;
    hide WholeKeys;
    hide WholeHeads;
    hide Geometry;
    hide Rewritten;
    if start < end {
      LayerPerm(m, start, hidden, c, pos);
      var o := LayerStep(m, start, hidden, c, pos);
      if o.result.Some? { RunLayersPerm(m, o.result.value, o.cache, start + 1, end, pos); }
    }
  }

  lemma ForwardPerm(m: Model, token: int, c: Cache)
    requires Geometry(m) && WholeHeads(m) && m.interleaved && CacheFor(m, c) && WholeKeys(m, c)
    ensures var d, o := m.HeadDim(), Forward(m, token, c);
      && WholeKeys(m, o.cache)
      && Forward(Rewritten(m), token, PermCache(c, d)) == Outcome(PermCache(o.cache, d), o.result)
  {
    var d, r := m.HeadDim(), Rewritten(m);
    assert Embed(r, token) == Embed(m, token) && r.maxSeq == m.maxSeq;
    assert r.finalNorm == m.finalNorm && r.output == m.output;
    hide RunLayers;
    hide RmsNorm;
    hide MatmulRows;
    hide PermKeys;
    hide Rewritten;
    hide WholeHeads;
    hide Geometry;
    var h := Embed(m, token);
    if c.len < m.maxSeq && h.Some? {
      RunLayersPerm(m, h.value, c, 0, |m.layers|, c.len);
    }
  }

  lemma EmptyPerm(m: Model)
    requires Geometry(m) && WholeHeads(m)
    ensures EmptyCache(Rewritten(m)) == PermCache(EmptyCache(m), m.HeadDim()) && WholeKeys(m, EmptyCache(m))
  {
    var a, b := EmptyCache(Rewritten(m)), PermCache(EmptyCache(m), m.HeadDim());
    assert forall i | 0 <= i < |a.k| :: a.k[i] == b.k[i];
  }

  /** The interleaved model and its split-half rewriting, token by token. */
  lemma {:induction false} LayoutsAgree(m: Model, tokens: Vec, n: nat)
    requires Geometry(m) && WholeHeads(m) && m.interleaved && n <= |tokens|
    ensures var t, r := Sequence(m, tokens, n), Sequence(Rewritten(m), tokens, n);
      && r.logits == t.logits && r.ok == t.ok
      && r.cache == PermCache(t.cache, m.HeadDim()) && WholeKeys(m, t.cache)
  {
    hide Forward;
    hide PermKeys;
    hide Rewritten;
    hide WholeKeys;
    hide WholeHeads;
    hide Geometry;
    if n == 0 {
      EmptyPerm(m);
    } else {
      LayoutsAgree(m, tokens, n - 1);
      ForwardPerm(m, tokens[n - 1], Sequence(m, tokens, n - 1).cache);
    }
  }
}
