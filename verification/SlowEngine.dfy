/** The reference engine: one token at a time through all layers, with a cache
    of keys and values per layer that grows by one row per token. */
module SlowEngine {
  import opened Arithmetic
  import opened Exponential
  import opened ModernOps
  import opened ModernModel
  import SlowOps

  datatype Cache = Cache(keys: seq<Mat>, values: seq<Mat>)

  predicate ValidCache(m: Model, c: Cache)
  {
    && |c.keys| == |c.values| == |m.layers|
    && forall l | 0 <= l < |c.keys| ::
         |c.keys[l]| == |c.values[l]| && CacheRows(m, c.keys[l]) && CacheRows(m, c.values[l])
  }

  function EmptyCache(m: Model): Cache
  {
    Cache(seq(|m.layers|, _ => []), seq(|m.layers|, _ => []))
  }

  /** Rows `k` and `v` appended to the cache of one layer. */
  function Append(m: Model, c: Cache, l: nat, k: Vec, v: Vec): (r: Cache)
    requires ValidCache(m, c) && l < |c.keys| && |k| == |v| == m.nKv * m.dHead
    ensures ValidCache(m, r)
  {
    Cache(c.keys[l := c.keys[l] + [k]], c.values[l := c.values[l] + [v]])
  }

  /** Layers `l` and up. A refusal leaves the rows appended so far in place. */
  function RunLayers(m: Model, pos: nat, h: Vec, c: Cache, l: nat): (r: (Option<Vec>, Cache))
    requires ValidModel(m) && ValidCache(m, c) && pos < m.maxSeq && l <= |m.layers| && |h| == m.dModel
    ensures ValidCache(m, r.1) && (r.0.Some? ==> |r.0.value| == m.dModel)
    decreases |m.layers| - l
  {
    if l == |m.layers| then (Some(h), c)
    else
      match TokenQkv(m, m.layers[l], pos, h)
      case None => (None, c)
      case Some(t) =>
        var c' := Append(m, c, l, t.k, t.v);
        match FinishLayer(m, m.layers[l], h, Attend(m, t.q, c'.keys[l], c'.values[l], m.nHeads))
        case None => (None, c')
        case Some(h') => RunLayers(m, pos, h', c', l + 1)
  }

  function Position(c: Cache): nat { if |c.keys| == 0 then 0 else |c.keys[0]| }

  /** One forward call: the logits or a refusal, and the cache it leaves. */
  function Forward(m: Model, c: Cache, token: int): (r: (Option<Vec>, Cache))
    requires ValidModel(m) && ValidCache(m, c)
    ensures ValidCache(m, r.1)
  {
    if !(0 <= token < m.vocab) || Position(c) >= m.maxSeq then (None, c)
    else
      match EmbedToken(m, token)
      case None => (None, c)
      case Some(h) =>
        var (out, c') := RunLayers(m, Position(c), h, c, 0);
        if out.None? then (None, c') else (LmHead(m, out.value), c')
  }

  datatype Run = Run(logits: Mat, cache: Cache)

  /** All of `tokens` from an empty cache; refused as soon as one is. */
  function SlowRun(m: Model, tokens: seq<int>): (r: Option<Run>)
    requires ValidModel(m)
    ensures r.Some? ==> |r.value.logits| == |tokens| && ValidCache(m, r.value.cache)
  {
    if tokens == [] then Some(Run([], EmptyCache(m)))
    else
      var n := |tokens| - 1;
      match SlowRun(m, tokens[..n])
      case None => None
      case Some(run) =>
        var (logits, c) := Forward(m, run.cache, tokens[n]);
        if logits.None? then None else Some(Run(run.logits + [logits.value], c))
  }

  /** The engine object. */
  class Engine {
    const m: Model
    var keys: seq<Mat>
    var values: seq<Mat>

    ghost predicate Valid()
      reads this
    {
      ValidModel(m) && ValidCache(m, Cache(keys, values))
    }

    ghost function State(): Cache
      reads this
    {
      Cache(keys, values)
    }

    constructor (m: Model)
      requires ValidModel(m)
      ensures Valid() && this.m == m && State() == EmptyCache(m)
    {
      this.m := m;
      keys, values := seq(|m.layers|, _ => []), seq(|m.layers|, _ => []);
    }

    method Reset()
      requires Valid()
      modifies this
      ensures Valid() && State() == EmptyCache(m)
    {
      keys, values := seq(|m.layers|, _ => []), seq(|m.layers|, _ => []);
    }

    /** Norm, three projections, rotation where the layer has it, range check. */
    method TokenRows(l: nat, pos: nat, h: Vec) returns (r: Option<Qkv>)
      requires Valid() && l < |m.layers| && pos < m.maxSeq && |h| == m.dModel
      ensures r == TokenQkv(m, m.layers[l], pos, h)
    {
      hide RmsNormInt;
      hide ProjectInt;
      hide RopeInt;
      hide FitsCache;
      hide ValidScaled;
      hide ValidTable;
      var layer := m.layers[l];
      LayerShapes(m, l);
      var n := SlowOps.RmsNorm(h, layer.attnNorm, m.eps);
      if n.None? {
        return None;
      }
      var q := SlowOps.Project(n.value, layer.wq);
      if q.None? {
        return None;
      }
      var k := SlowOps.Project(n.value, layer.wk);
      if k.None? {
        return None;
      }
      var v := SlowOps.Project(n.value, layer.wv);
      if v.None? {
        return None;
      }
      if layer.rope {
        q := SlowOps.RopeRow(q.value, m.nHeads, m.dHead, m.cos[pos], m.sin[pos]);
        if q.None? {
          return None;
        }
        k := SlowOps.RopeRow(k.value, m.nKv, m.dHead, m.cos[pos], m.sin[pos]);
        if k.None? {
          return None;
        }
      }
      var kFits := SlowOps.CheckI32(k.value);
      var vFits := SlowOps.CheckI32(v.value);
      if !kFits || !vFits {
        return None;
      }
      r := Some(Qkv(q.value, k.value, v.value));
    }

    /** Query head after query head against the cache of one layer. */
    method AttendRow(q: Vec, l: nat) returns (att: Vec)
      requires Valid() && l < |m.layers| && |q| == m.nHeads * m.dHead && |keys[l]| > 0
      ensures att == Attend(m, q, keys[l], values[l], m.nHeads)
    {
      hide AttentionInt;
      hide ValidLayer;
      hide ValidScaled;
      hide ValidTable;
      att := [];
      for hd := 0 to m.nHeads
        invariant att == Attend(m, q, keys[l], values[l], hd)
      {
        var kv := KvHead(m, hd);
        SliceInRange(hd, m.nHeads, m.dHead);
        att := att + AttentionInt(m.table, HeadSlice(q, hd, m.dHead), HeadRows(keys[l], kv, m.dHead),
                                  HeadRows(values[l], kv, m.dHead), m.Lam());
      }
    }

    /** Output projection, feed-forward and the two residual sums. */
    method FinishRow(l: nat, h: Vec, att: Vec) returns (r: Option<Vec>)
      requires Valid() && l < |m.layers| && |h| == m.dModel
      ensures r == FinishLayer(m, m.layers[l], h, att)
    {
      hide RmsNormInt;
      hide ProjectInt;
      hide SiluInt;
      hide ResidualInt;
      hide ValidScaled;
      hide ValidTable;
      var layer := m.layers[l];
      LayerShapes(m, l);
      var o := SlowOps.Project(att, layer.wo);
      if o.None? {
        return None;
      }
      var mid := ResidualInt(h, o.value);
      if mid.None? {
        return None;
      }
      var n := SlowOps.RmsNorm(mid.value, layer.ffnNorm, m.eps);
      if n.None? {
        return None;
      }
      var g := SlowOps.Project(n.value, layer.wGate);
      if g.None? {
        return None;
      }
      var u := SlowOps.Project(n.value, layer.wUp);
      if u.None? {
        return None;
      }
      var a := SiluInt(m.table, g.value, u.value);
      if a.None? {
        return None;
      }
      var d := SlowOps.Project(a.value, layer.wDown);
      if d.None? {
        return None;
      }
      r := ResidualInt(mid.value, d.value);
    }

    /** Refuses or returns the logits; in both cases the cache is what the
        per-token rule says, partial appends included. */
    method ForwardToken(token: int) returns (r: Option<Vec>)
      requires Valid()
      modifies this
      ensures Valid()
      ensures (r, State()) == Forward(m, old(State()), token)
    {
      hide TokenQkv;
      hide FinishLayer;
      hide Attend;
      hide EmbedInt;
      hide RmsNormInt;
      hide ProjectInt;
      hide ValidLayer;
      hide ValidScaled;
      hide ValidRope;
      hide ValidTable;
      var pos := if |keys| == 0 then 0 else |keys[0]|;
      if !(0 <= token < m.vocab) || pos >= m.maxSeq {
        return None;
      }
      HeadShapes(m);
      var e := EmbedInt(m.embed.q[token], m.embed.mu[token], m.embed.k[token]);
      if e.None? {
        return None;
      }
      var h := e.value;
      assert e == EmbedToken(m, token);
      for l := 0 to |m.layers|
        invariant Valid() && |h| == m.dModel
        invariant RunLayers(m, pos, e.value, old(State()), 0) == RunLayers(m, pos, h, State(), l)
      {
        var t := TokenRows(l, pos, h);
        if t.None? {
          return None;
        }
        keys := keys[l := keys[l] + [t.value.k]];
        values := values[l := values[l] + [t.value.v]];
        var att := AttendRow(t.value.q, l);
        var next := FinishRow(l, h, att);
        if next.None? {
          return None;
        }
        h := next.value;
      }
      var n := SlowOps.RmsNorm(h, m.finalNorm, m.eps);
      if n.None? {
        return None;
      }
      r := SlowOps.Project(n.value, m.embed);
    }
  }

  lemma LayerShapes(m: Model, l: nat)
    requires ValidModel(m) && l < |m.layers|
    ensures var x := m.layers[l];
      && m.eps >= 1 && m.dModel > 0 && ValidTable(m.table)
      && |x.wq.q| == |x.wq.mu| == |x.wq.k| && |x.wk.q| == |x.wk.mu| == |x.wk.k| && |x.wv.q| == |x.wv.mu| == |x.wv.k|
      && |x.wo.q| == |x.wo.mu| == |x.wo.k| == m.dModel && |x.wGate.q| == |x.wGate.mu| == |x.wGate.k|
      && |x.wUp.q| == |x.wUp.mu| == |x.wUp.k| && |x.wDown.q| == |x.wDown.mu| == |x.wDown.k|
      && |x.wq.q| == m.nHeads * m.dHead && |x.wk.q| == m.nKv * m.dHead
  {
  }

  lemma HeadShapes(m: Model)
    requires ValidModel(m)
    ensures |m.embed.q| == |m.embed.mu| == |m.embed.k| == m.vocab && m.eps >= 1 && m.dModel > 0
    ensures forall i | 0 <= i < m.vocab :: m.embed.k[i] >= 16 && |m.embed.q[i]| == m.dModel
  {
  }
}
