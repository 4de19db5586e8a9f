/** The legacy model: layers that append to a key/value cache. A refusal part
    way through a token leaves the cache as far as it got. */
module LegacyModel {
  import opened Arithmetic
  import opened LegacyAttention
  import opened LegacyOps

  datatype Layer = Layer(wq: Matrix, wk: Matrix, wv: Matrix, wo: Matrix,
                         gate: Matrix, up: Matrix, down: Matrix, attnNorm: Vec, ffnNorm: Vec)

  datatype Model = Model(interleaved: bool, dModel: nat, heads: nat, kvHeads: nat, vocab: nat, maxSeq: nat,
                         scale: int, angles: Angles, embedding: Vec, layers: seq<Layer>, finalNorm: Vec, output: Matrix)
  {
    function HeadDim(): nat
      requires heads > 0
    {
      dModel / heads
    }
  }

  /** The head geometry the constructor accepts. */
  predicate Geometry(m: Model)
  {
    m.heads > 0 && m.kvHeads > 0 && m.dModel % m.heads == 0 && m.heads % m.kvHeads == 0 && m.HeadDim() % 2 == 0
  }

  datatype Cache = Cache(k: seq<Mat>, v: seq<Mat>, len: nat)

  predicate CacheFor(m: Model, c: Cache) { |c.k| == |c.v| == |m.layers| }

  function EmptyCache(m: Model): (c: Cache)
    ensures CacheFor(m, c)
  {
    Cache(seq(|m.layers|, _ => []), seq(|m.layers|, _ => []), 0)
  }

  datatype Outcome = Outcome(cache: Cache, result: Option<Vec>)

  // ---- one layer ------------------------------------------------------------

  /** Each head rotated, the rest of the vector as it was. */
  function RopeHeads(interleaved: bool, x: Vec, heads: nat, d: nat, pos: nat, t: Angles): (r: Option<Vec>)
    ensures r.Some? ==> |r.value| == |x|
    decreases heads
  {
    if heads == 0 then Some(x)
    else
      var cut := Min(d, |x|);
      var head :- Rope(interleaved, x[..cut], pos, t);
      var rest :- RopeHeads(interleaved, x[cut..], heads - 1, d, pos, t);
      Some(head + rest)
  }

  datatype Qkv = Qkv(q: Vec, k: Vec, v: Vec)

  function Projections(m: Model, l: Layer, hidden: Vec): Option<Qkv>
  {
    var normed :- RmsNorm(hidden, l.attnNorm);
    var q :- MatmulRows(l.wq, normed);
    var k :- MatmulRows(l.wk, normed);
    var v :- MatmulRows(l.wv, normed);
    Some(Qkv(q, k, v))
  }

  /** Everything a layer does before it appends to the cache. */
  function Prepare(m: Model, l: Layer, hidden: Vec, pos: nat): Option<Qkv>
    requires Geometry(m)
  {
    var p :- Projections(m, l, hidden);
    var q :- RopeHeads(m.interleaved, p.q, m.heads, m.HeadDim(), pos, m.angles);
    var k :- RopeHeads(m.interleaved, p.k, m.kvHeads, m.HeadDim(), pos, m.angles);
    Some(Qkv(q, k, p.v))
  }

  /** Consecutive query heads share one key/value head. */
  function KvHead(m: Model, head: nat): nat
    requires Geometry(m)
  {
    head * m.kvHeads / m.heads
  }

  function HeadOf(x: Vec, head: nat, d: nat): Vec { Slice(x, head * d, head * d + d) }

  function HeadRows(rows: Mat, head: nat, d: nat): (r: Mat)
    ensures |r| == |rows|
  {
    seq(|rows|, j requires 0 <= j < |rows| => HeadOf(rows[j], head, d))
  }

  /** The first `n` heads, concatenated. */
  function Attend(m: Model, q: Vec, keys: Mat, values: Mat, n: nat): Option<Vec>
    requires Geometry(m)
  {
    if n == 0 then Some([])
    else
      var done :- Attend(m, q, keys, values, n - 1);
      var d, g := m.HeadDim(), KvHead(m, n - 1);
      var out :- AttentionHead(HeadOf(q, n - 1, d), HeadRows(keys, g, d), HeadRows(values, g, d), m.scale);
      Some(done + out)
  }

  /** The feed-forward half and both residual additions. */
  function Finish(l: Layer, hidden: Vec, attn: Vec): Option<Vec>
  {
    var projected :- MatmulRows(l.wo, attn);
    var mid :- Residual(hidden, projected);
    var normed :- RmsNorm(mid, l.ffnNorm);
    var gate :- MatmulRows(l.gate, normed);
    var up :- MatmulRows(l.up, normed);
    var act :- SiluGate(gate, up);
    var ff :- MatmulRows(l.down, act);
    Residual(mid, ff)
  }

  function Complete(m: Model, l: Layer, hidden: Vec, q: Vec, keys: Mat, values: Mat): Option<Vec>
    requires Geometry(m)
  {
    var attn :- Attend(m, q, keys, values, m.heads);
    Finish(l, hidden, attn)
  }

  function Appended(c: Cache, i: nat, p: Qkv): Cache
    requires i < |c.k| == |c.v|
  {
    Cache(c.k[i := c.k[i] + [p.k]], c.v[i := c.v[i] + [p.v]], c.len)
  }

  function LayerStep(m: Model, i: nat, hidden: Vec, c: Cache, pos: nat): (o: Outcome)
    requires Geometry(m) && CacheFor(m, c) && i < |m.layers|
    ensures CacheFor(m, o.cache)
  {
    match Prepare(m, m.layers[i], hidden, pos)
    case None => Outcome(c, None)
    case Some(p) =>
      var next := Appended(c, i, p);
      Outcome(next, Complete(m, m.layers[i], hidden, p.q, next.k[i], next.v[i]))
  }

  // ---- layers and tokens ------------------------------------------------------

  function RunLayers(m: Model, hidden: Vec, c: Cache, start: nat, end: nat, pos: nat): (o: Outcome)
    requires Geometry(m) && CacheFor(m, c) && end <= |m.layers|
    ensures CacheFor(m, o.cache)
    decreases end - start
  {
    if start >= end then Outcome(c, Some(hidden))
    else
      var o := LayerStep(m, start, hidden, c, pos);
      if o.result.None? then o else RunLayers(m, o.result.value, o.cache, start + 1, end, pos)
  }

  function Embed(m: Model, token: int): Option<Vec>
  {
    if 0 <= token < m.vocab then Some(Slice(m.embedding, token * m.dModel, token * m.dModel + m.dModel)) else None
  }

  function Logits(m: Model, hidden: Vec): Option<Vec>
  {
    var normed :- RmsNorm(hidden, m.finalNorm);
    MatmulRows(m.output, normed)
  }

  function Forward(m: Model, token: int, c: Cache): (o: Outcome)
    requires Geometry(m) && CacheFor(m, c)
    ensures CacheFor(m, o.cache)
  {
    if c.len >= m.maxSeq then Outcome(c, None)
    else
      match Embed(m, token)
      case None => Outcome(c, None)
      case Some(h) => Concluded(m, RunLayers(m, h, c, 0, |m.layers|, c.len), c.len)
  }

  function Concluded(m: Model, o: Outcome, pos: nat): Outcome
  {
    if o.result.None? then o else Outcome(o.cache.(len := pos + 1), Logits(m, o.result.value))
  }

  /** What a run over tokens leaves behind: it stops at the first refusal. */
  datatype Trace = Trace(cache: Cache, logits: seq<Vec>, ok: bool)

  function Sequence(m: Model, tokens: Vec, n: nat): (t: Trace)
    requires Geometry(m) && n <= |tokens|
    ensures CacheFor(m, t.cache)
  {
    if n == 0 then Trace(EmptyCache(m), [], true)
    else
      var t := Sequence(m, tokens, n - 1);
      if !t.ok then t
      else
        var o := Forward(m, tokens[n - 1], t.cache);
        if o.result.None? then Trace(o.cache, t.logits, false) else Trace(o.cache, t.logits + [o.result.value], true)
  }

  /** The loop over query heads. */
  method AttendAll(m: Model, q: Vec, keys: Mat, values: Mat) returns (r: Option<Vec>)
    requires Geometry(m)
    ensures r == Attend(m, q, keys, values, m.heads)
  {
    hide *;
    AttendNone(m, q, keys, values);
    var d := m.HeadDim();
    var out: Vec := [];
    for h := 0 to m.heads
      invariant Attend(m, q, keys, values, h) == Some(out)
    {
      var g := KvHead(m, h);
      var head := OnlineAttention(HeadOf(q, h, d), HeadRows(keys, g, d), HeadRows(values, g, d), m.scale);
      AttendNext(m, q, keys, values, h);
      if head.None? {
        AttendRefused(m, q, keys, values, h + 1, m.heads);
        return None;
      }
      out := out + head.value;
    }
    r := Some(out);
  }

  lemma AttendNone(m: Model, q: Vec, keys: Mat, values: Mat)
    requires Geometry(m)
    ensures m.heads > 0 && Attend(m, q, keys, values, 0) == Some([])
  {
  }

  // ---- the executor ------------------------------------------------------------

  class Executor {
    const m: Model
    var k: seq<Mat>
    var v: seq<Mat>
    var len: nat

    ghost predicate Valid()
      reads this
    {
      Geometry(m) && |k| == |v| == |m.layers|
    }

    ghost function State(): Cache
      reads this
    {
      Cache(k, v, len)
    }

    constructor (model: Model)
      requires Geometry(model)
      ensures Valid() && m == model && State() == EmptyCache(model)
    {
      m := model;
      k := EmptyCache(model).k;
      v := EmptyCache(model).v;
      len := 0;
    }

    /** Rotates head after head: copy out, turn in place, copy back. */
    method RotateHeads(x: Vec, heads: nat, pos: nat) returns (r: Option<Vec>)
      requires Valid()
      ensures r == RopeHeads(m.interleaved, x, heads, m.HeadDim(), pos, m.angles)
    {
      hide Rope;
      var d := m.HeadDim();
      var done: Vec, rest: Vec := [], x;
      ghost var all := RopeHeads(m.interleaved, x, heads, d, pos, m.angles);
      assert all.Some? ==> [] + all.value == all.value;
      for h := 0 to heads
        invariant all == Joined(done, RopeHeads(m.interleaved, rest, heads - h, d, pos, m.angles))
      {
        var cut := Min(d, |rest|);
        var head := new int[cut](i requires 0 <= i < cut => rest[i]);
        assert head[..] == rest[..cut];
        var ok;
        if m.interleaved {
          ok := RopeInterleaved(head, pos, m.angles);
        } else {
          ok := RopeSplitHalf(head, pos, m.angles);
        }
        if !ok {
          return None;
        }
        JoinedAgain(done, head[..], RopeHeads(m.interleaved, rest[cut..], heads - h - 1, d, pos, m.angles));
        done, rest := done + head[..], rest[cut..];
      }
      r := Some(done + rest);
    }

    /** Norm and the three projections. */
    method ProjectRows(l: Layer, hidden: Vec) returns (r: Option<Qkv>)
      ensures r == Projections(m, l, hidden)
    {
      hide RmsNorm;
      hide MatmulRows;
      var normed := NormRow(hidden, l.attnNorm);
      if normed.None? {
        return None;
      }
      var q := Apply(l.wq, normed.value);
      if q.None? {
        return None;
      }
      var key := Apply(l.wk, normed.value);
      if key.None? {
        return None;
      }
      var value := Apply(l.wv, normed.value);
      if value.None? {
        return None;
      }
      r := Some(Qkv(q.value, key.value, value.value));
    }

    /** Output projection, feed-forward and the two residual sums. */
    method FinishRow(l: Layer, hidden: Vec, attn: Vec) returns (r: Option<Vec>)
      ensures r == Finish(l, hidden, attn)
    {
      hide RmsNorm;
      hide MatmulRows;
      hide SiluGate;
      hide Residual;
      var projected := Apply(l.wo, attn);
      if projected.None? {
        return None;
      }
      var mid := Residual(hidden, projected.value);
      if mid.None? {
        return None;
      }
      var normed := NormRow(mid.value, l.ffnNorm);
      if normed.None? {
        return None;
      }
      var gate := Apply(l.gate, normed.value);
      if gate.None? {
        return None;
      }
      var up := Apply(l.up, normed.value);
      if up.None? {
        return None;
      }
      var act := SiluGate(gate.value, up.value);
      if act.None? {
        return None;
      }
      var ff := Apply(l.down, act.value);
      if ff.None? {
        return None;
      }
      r := Residual(mid.value, ff.value);
    }

    method StepLayer(i: nat, hidden: Vec, pos: nat) returns (r: Option<Vec>)
      requires Valid() && i < |m.layers|
      modifies this
      ensures Valid()
      ensures Outcome(State(), r) == LayerStep(m, i, hidden, old(State()), pos)
    {
      hide Projections;
      hide RopeHeads;
      hide Attend;
      hide Finish;
      var p := ProjectRows(m.layers[i], hidden);
      if p.None? {
        return None;
      }
      var q := RotateHeads(p.value.q, m.heads, pos);
      if q.None? {
        return None;
      }
      var key := RotateHeads(p.value.k, m.kvHeads, pos);
      if key.None? {
        return None;
      }
      k := k[i := k[i] + [key.value]];
      v := v[i := v[i] + [p.value.v]];
      var attn := AttendAll(m, q.value, k[i], v[i]);
      if attn.None? {
        return None;
      }
      r := FinishRow(m.layers[i], hidden, attn.value);
    }

    method RunRange(hidden: Vec, start: nat, end: nat, pos: nat) returns (r: Option<Vec>)
      requires Valid() && end <= |m.layers|
      modifies this
      ensures Valid()
      ensures Outcome(State(), r) == RunLayers(m, hidden, old(State()), start, end, pos)
    {
      hide LayerStep;
      var h := hidden;
      var i := start;
      ghost var whole := RunLayers(m, hidden, State(), start, end, pos);
      while i < end
        invariant Valid()
        invariant whole == RunLayers(m, h, State(), i, end, pos)
      {
        var next := StepLayer(i, h, pos);
        if next.None? {
          return None;
        }
        h, i := next.value, i + 1;
      }
      r := Some(h);
    }

    method ForwardToken(token: int) returns (r: Option<Vec>)
      requires Valid()
      modifies this
      ensures Valid()
      ensures Outcome(State(), r) == Forward(m, token, old(State()))
    {
      hide RunLayers;
      hide RmsNorm;
      hide MatmulRows;
      var pos := len;
      if pos >= m.maxSeq {
        return None;
      }
      var h := Embed(m, token);
      if h.None? {
        return None;
      }
      var out := RunRange(h.value, 0, |m.layers|, pos);
      if out.None? {
        return None;
      }
      len := pos + 1;
      var normed := NormRow(out.value, m.finalNorm);
      if normed.None? {
        return None;
      }
      r := Apply(m.output, normed.value);
    }

    /** A whole known-answer sequence from an empty cache. */
    method RunSequence(tokens: Vec) returns (logits: seq<Vec>, ok: bool)
      requires Valid() && State() == EmptyCache(m)
      modifies this
      ensures Valid()
      ensures Trace(State(), logits, ok) == Sequence(m, tokens, |tokens|)
    {
      hide Forward;
      logits := [];
      for i := 0 to |tokens|
        invariant Valid()
        invariant Trace(State(), logits, true) == Sequence(m, tokens, i)
      {
        var next := ForwardToken(tokens[i]);
        if next.None? {
          SequenceStopped(m, tokens, i + 1, |tokens|);
          return logits, false;
        }
        logits := logits + [next.value];
      }
      ok := true;
    }
  }

  function Joined(done: Vec, rest: Option<Vec>): Option<Vec>
  {
    if rest.None? then None else Some(done + rest.value)
  }

  lemma JoinedAgain(a: Vec, b: Vec, r: Option<Vec>)
    ensures Joined(a, Joined(b, r)) == Joined(a + b, r)
  {
    if r.Some? { assert a + (b + r.value) == a + b + r.value; }
  }

  lemma AttendNext(m: Model, q: Vec, keys: Mat, values: Mat, n: nat)
    requires Geometry(m) && Attend(m, q, keys, values, n).Some?
    ensures var d, g := m.HeadDim(), KvHead(m, n);
      var head := AttentionHead(HeadOf(q, n, d), HeadRows(keys, g, d), HeadRows(values, g, d), m.scale);
      Attend(m, q, keys, values, n + 1)
        == if head.None? then None else Some(Attend(m, q, keys, values, n).value + head.value)
  {
    hide AttentionHead;
    hide HeadOf;
    hide HeadRows;
    hide KvHead;
  }

  lemma {:induction false} AttendRefused(m: Model, q: Vec, keys: Mat, values: Mat, h: nat, n: nat)
    requires Geometry(m) && h <= n && Attend(m, q, keys, values, h).None?
    ensures Attend(m, q, keys, values, n).None?
  {
    hide AttentionHead;
    hide HeadOf;
    hide HeadRows;
    hide KvHead;
    hide Geometry;
    if h < n { AttendRefused(m, q, keys, values, h, n - 1); }
  }

  lemma {:induction false} SequenceStopped(m: Model, tokens: Vec, i: nat, n: nat)
    requires Geometry(m) && i <= n <= |tokens| && !Sequence(m, tokens, i).ok
    ensures Sequence(m, tokens, n) == Sequence(m, tokens, i)
  {
    hide Forward;
    if i < n { SequenceStopped(m, tokens, i, n - 1); }
  }
}
