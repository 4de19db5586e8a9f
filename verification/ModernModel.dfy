/** A validated package as the engines see it, and what one token does to one
    layer: the projections of the token, attention over a cache, and the rest
    of the layer. */
module ModernModel {
  import opened Arithmetic
  import opened Exponential
  import opened ModernOps

  datatype Layer = Layer(rope: bool, attnNorm: Vec, ffnNorm: Vec,
                         wq: Scaled, wk: Scaled, wv: Scaled, wo: Scaled,
                         wGate: Scaled, wUp: Scaled, wDown: Scaled)

  datatype Model = Model(nHeads: nat, nKv: nat, dHead: nat, dModel: nat, dFf: nat, vocab: nat, maxSeq: nat,
                         eps: int, table: Vec, embed: Scaled, finalNorm: Vec, cos: Mat, sin: Mat,
                         layers: seq<Layer>)
  {
    /** floor(2^30 / sqrt(d)), the attention scale. */
    function Lam(): nat
      requires dHead > 0
    {
      Isqrt(0x1000_0000_0000_0000 / dHead)
    }
  }

  const DIM_LIMIT: int := 0x1000_0000_0000

  predicate ValidScaled(w: Scaled, rows: nat, cols: nat)
  {
    ScaledShape(w, rows, cols) && ScaledRanges(w)
  }

  predicate ValidGains(g: Vec, n: nat)
  {
    |g| == n && forall i | 0 <= i < n :: InI64(g[i])
  }

  predicate ValidRope(rows: Mat, n: nat, half: nat)
  {
    |rows| == n && forall p | 0 <= p < n :: |rows[p]| == half && forall i | 0 <= i < half :: InI32(rows[p][i])
  }

  predicate ValidLayer(m: Model, l: Layer)
  {
    var hq, hk := m.nHeads * m.dHead, m.nKv * m.dHead;
    && ValidGains(l.attnNorm, m.dModel) && ValidGains(l.ffnNorm, m.dModel)
    && ValidScaled(l.wq, hq, m.dModel) && ValidScaled(l.wk, hk, m.dModel) && ValidScaled(l.wv, hk, m.dModel)
    && ValidScaled(l.wo, m.dModel, hq)
    && ValidScaled(l.wGate, m.dFf, m.dModel) && ValidScaled(l.wUp, m.dFf, m.dModel)
    && ValidScaled(l.wDown, m.dModel, m.dFf)
  }

  /** What the package reader establishes. The last line is the range of
      dimensions the limb arithmetic is designed for. */
  ghost predicate ValidModel(m: Model)
  {
    && m.dHead >= 2 && m.dHead % 2 == 0 && 1 <= m.nKv <= m.nHeads && m.nHeads % m.nKv == 0
    && m.dModel == m.nHeads * m.dHead && m.dFf >= 1 && m.vocab >= 1 && m.maxSeq >= 1 && m.eps >= 1
    && ValidTable(m.table)
    && ValidScaled(m.embed, m.vocab, m.dModel) && ValidGains(m.finalNorm, m.dModel)
    && ValidRope(m.cos, m.maxSeq, m.dHead / 2) && ValidRope(m.sin, m.maxSeq, m.dHead / 2)
    && |m.layers| >= 1 && (forall i | 0 <= i < |m.layers| :: ValidLayer(m, m.layers[i]))
    && m.dModel < DIM_LIMIT && m.dFf < DIM_LIMIT && m.maxSeq < DIM_LIMIT && m.dHead < DIM_LIMIT
  }

  /** The dimensions without the tensors: all that slicing heads needs. */
  predicate Geometry(m: Model)
  {
    && m.dHead >= 2 && m.dHead % 2 == 0 && 1 <= m.nKv <= m.nHeads
    && m.dModel == m.nHeads * m.dHead
  }

  datatype Qkv = Qkv(q: Vec, k: Vec, v: Vec)

  /** Rotation of the heads of one row when the layer uses it. */
  function Rotate(m: Model, l: Layer, x: Vec, heads: nat, pos: nat): (r: Option<Vec>)
    requires heads * m.dHead == |x| && pos < |m.cos| && pos < |m.sin|
    requires m.dHead / 2 <= |m.cos[pos]| && m.dHead / 2 <= |m.sin[pos]|
    ensures r.Some? ==> |r.value| == |x|
  {
    if l.rope then RopeInt(x, heads, m.dHead, m.cos[pos], m.sin[pos]) else Some(x)
  }

  /** The query, key and value rows a hidden row produces at a position. */
  function TokenQkv(m: Model, l: Layer, pos: nat, h: Vec): (r: Option<Qkv>)
    requires ValidModel(m) && ValidLayer(m, l) && pos < m.maxSeq && |h| == m.dModel
    ensures r.Some? ==> |r.value.q| == m.nHeads * m.dHead && |r.value.k| == |r.value.v| == m.nKv * m.dHead
    ensures r.Some? ==> FitsCache(r.value.k) && FitsCache(r.value.v) && Bounded(r.value.q, LIM62)
  {
    var n :- RmsNormInt(h, l.attnNorm, m.eps);
    var q0 :- ProjectInt(n, l.wq);
    var k0 :- ProjectInt(n, l.wk);
    var v :- ProjectInt(n, l.wv);
    var q :- Rotate(m, l, q0, m.nHeads, pos);
    var k :- Rotate(m, l, k0, m.nKv, pos);
    if FitsCache(k) && FitsCache(v) then Some(Qkv(q, k, v)) else None
  }

  function KvHead(m: Model, head: nat): (kv: nat)
    requires Geometry(m) && head < m.nHeads
    ensures kv < m.nKv && kv * m.dHead + m.dHead <= m.nKv * m.dHead
  {
    KvHeadInRange(head, m.nKv, m.nHeads);
    var kv := (head * m.nKv) / m.nHeads;
    SliceInRange(kv, m.nKv, m.dHead);
    kv
  }

  lemma KvHeadInRange(head: nat, kv: nat, n: nat)
    requires head < n && kv >= 1
    ensures 0 <= (head * kv) / n < kv
  {
    MulMono(head + 1, n, kv);
    Distribute(head, 1, kv);
    MulMono(0, head, kv);
    DivRange(head * kv, 0, kv, n);
  }

  predicate CacheRows(m: Model, rows: Mat)
  {
    forall j | 0 <= j < |rows| :: |rows[j]| == m.nKv * m.dHead
  }

  function HeadRows(rows: Mat, head: nat, d: nat): Mat
    requires forall j | 0 <= j < |rows| :: head * d + d <= |rows[j]|
  {
    seq(|rows|, j requires 0 <= j < |rows| => HeadSlice(rows[j], head, d))
  }

  /** One query head of a row against a cache. */
  function AttendHead(m: Model, q: Vec, keys: Mat, values: Mat, head: nat): (r: Vec)
    requires Geometry(m) && ValidTable(m.table) && head < m.nHeads && |q| == m.nHeads * m.dHead
    requires |keys| == |values| > 0 && CacheRows(m, keys) && CacheRows(m, values)
    ensures |r| == m.dHead
  {
    var kv := KvHead(m, head);
    SliceInRange(head, m.nHeads, m.dHead);
    AttentionInt(m.table, HeadSlice(q, head, m.dHead), HeadRows(keys, kv, m.dHead),
                 HeadRows(values, kv, m.dHead), m.Lam())
  }

  lemma SliceInRange(head: nat, heads: nat, d: nat)
    requires head < heads
    ensures 0 <= head * d && head * d + d <= heads * d
  {
    MulMono(head + 1, heads, d);
    MulMono(0, head, d);
    Distribute(head, 1, d);
  }

  /** The first `heads` query heads, concatenated. */
  function Attend(m: Model, q: Vec, keys: Mat, values: Mat, heads: nat): (r: Vec)
    requires Geometry(m) && ValidTable(m.table) && heads <= m.nHeads && |q| == m.nHeads * m.dHead
    requires |keys| == |values| > 0 && CacheRows(m, keys) && CacheRows(m, values)
    ensures |r| == heads * m.dHead
  {
    if heads == 0 then []
    else
      SliceInRange(heads - 1, m.nHeads, m.dHead);
      Attend(m, q, keys, values, heads - 1) + AttendHead(m, q, keys, values, heads - 1)
  }

  /** The rest of a layer once attention is known. */
  function FinishLayer(m: Model, l: Layer, h: Vec, att: Vec): (r: Option<Vec>)
    requires ValidModel(m) && ValidLayer(m, l) && |h| == m.dModel
    ensures r.Some? ==> |r.value| == m.dModel && Bounded(r.value, LIM62)
  {
    var o :- ProjectInt(att, l.wo);
    var h1 :- ResidualInt(h, o);
    var n :- RmsNormInt(h1, l.ffnNorm, m.eps);
    var g :- ProjectInt(n, l.wGate);
    var u :- ProjectInt(n, l.wUp);
    var a :- SiluInt(m.table, g, u);
    var d :- ProjectInt(a, l.wDown);
    ResidualInt(h1, d)
  }

  function EmbedToken(m: Model, token: int): (r: Option<Vec>)
    requires ValidModel(m) && 0 <= token < m.vocab
    ensures r.Some? ==> |r.value| == m.dModel && Bounded(r.value, LIM62)
  {
    EmbedInt(m.embed.q[token], m.embed.mu[token], m.embed.k[token])
  }

  function LmHead(m: Model, h: Vec): (r: Option<Vec>)
    requires ValidModel(m) && |h| == m.dModel
    ensures r.Some? ==> |r.value| == m.vocab && Bounded(r.value, LIM62)
  {
    var n :- RmsNormInt(h, m.finalNorm, m.eps);
    ProjectInt(n, m.embed)
  }
}
