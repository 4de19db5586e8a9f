/** What the legacy executor computes, as equations between rows and caches
    built from the meaning of its operators. */
module LegacyEngineMeaning {
  import opened Arithmetic
  import opened Rounding
  import opened LegacyOps
  import opened LegacyAttention
  import opened LegacyModel
  import opened LegacyMeaning

  // ---- one head --------------------------------------------------------------------

  /** The state of the online softmax after n positions. */
  ghost predicate IsOnline(q: Vec, keys: Mat, values: Mat, scale: int, n: nat, o: Online)
    requires n <= |keys| && n <= |values|
  {
    if n == 0 then
      o.top == -0x4000_0000_0000_0000 && o.total == 0 && |o.acc| == |q| && forall i | 0 <= i < |q| :: o.acc[i] == 0
    else
      var k: nat, key, value := n - 1, keys[n - 1], values[n - 1];
      exists p: Online :: IsOnline(q, keys, values, scale, k, p) && IsAbsorbed(p, q, key, value, scale, o)
  }

  lemma {:induction false} OnlineIs(q: Vec, keys: Mat, values: Mat, scale: int, n: nat, o: Online)
    requires n <= |keys| && n <= |values|
    ensures OnlineRun(q, keys, values, scale, n) == Some(o) <==> IsOnline(q, keys, values, scale, n, o)
    decreases n
  {
    hide Absorb;
    hide IsAbsorbed;
    if n == 0 {
      assert o == Online(o.top, o.total, o.acc);
      if IsOnline(q, keys, values, scale, 0, o) { assert o.acc == Zeros(|q|); }
    } else {
      var r := OnlineRun(q, keys, values, scale, n - 1);
      if r.Some? {
        OnlineIs(q, keys, values, scale, n - 1, r.value);
        AbsorbIs(r.value, q, keys[n - 1], values[n - 1], scale, o);
      }
      if IsOnline(q, keys, values, scale, n, o) {
        var p: Online :|
          IsOnline(q, keys, values, scale, n - 1, p) && IsAbsorbed(p, q, keys[n - 1], values[n - 1], scale, o);
        OnlineIs(q, keys, values, scale, n - 1, p);
      }
    }
  }

  /** The output: accumulator over sum, truncated. */
  predicate IsOutput(o: Online, y: Vec)
  {
    if o.total <= 0 then y == o.acc
    else |y| == |o.acc| && forall i | 0 <= i < |y| :: IsQuotient(o.acc[i], o.total, y[i])
  }

  predicate IsQuotient(a: int, total: int, y: int)
  {
    InI64(a * 0x1_0000) && IsTruncation(y, a * 0x1_0000, total)
  }

  lemma OutputIs(o: Online, y: Vec)
    ensures Finished(o) == Some(y) <==> IsOutput(o, y)
  {
    hide IsTruncation;
    hide TDiv;
    if o.total > 0 {
      forall i | 0 <= i < |y| && i < |o.acc|
        ensures IsQuotient(o.acc[i], o.total, y[i]) <==> InI64(o.acc[i] * ONE) && y[i] == TDiv(o.acc[i] * ONE, o.total)
      {
        TDivIsTruncation(o.acc[i] * ONE, o.total, y[i]);
      }
      hide IsQuotient;
      if IsOutput(o, y) {
        forall i | 0 <= i < |o.acc| ensures InI64(o.acc[i] * ONE) { assert i < |y|; }
        assert y == Divided(o.acc, o.total);
      }
    }
  }

  ghost predicate IsHeadOut(q: Vec, keys: Mat, values: Mat, scale: int, y: Vec)
  {
    var n := Min(|keys|, |values|);
    exists o: Online :: IsOnline(q, keys, values, scale, n, o) && IsOutput(o, y)
  }

  lemma HeadOutMeaning(q: Vec, keys: Mat, values: Mat, scale: int, y: Vec)
    ensures AttentionHead(q, keys, values, scale) == Some(y) <==> IsHeadOut(q, keys, values, scale, y)
  {
    hide OnlineRun;
    hide IsOnline;
    hide Finished;
    hide IsOutput;
    var n := Min(|keys|, |values|);
    var r := OnlineRun(q, keys, values, scale, n);
    if r.Some? {
      OnlineIs(q, keys, values, scale, n, r.value);
      OutputIs(r.value, y);
    }
    forall o: Online | IsOnline(q, keys, values, scale, n, o)
      ensures r == Some(o)
    {
      OnlineIs(q, keys, values, scale, n, o);
    }
  }

  // ---- all heads -------------------------------------------------------------------

  /** Consecutive query heads share one key/value head. */
  lemma KvHeadGroups(m: Model, head: nat, kv: nat)
    requires Geometry(m)
    ensures KvHead(m, head) == kv <==> InGroup(head, kv, m.heads / m.kvHeads)
  {
    GroupOf(head, m.kvHeads, m.heads, kv);
  }

  /** u is coordinates a to b of x, as far as x goes. */
  predicate IsPart(x: Vec, a: nat, b: nat, u: Vec)
  {
    && |u| == Max(0, Min(b, |x|) - a)
    && forall i | 0 <= i < |u| :: u[i] == x[a + i]
  }

  predicate AreParts(rows: Mat, a: nat, b: nat, us: Mat)
  {
    |us| == |rows| && forall j | 0 <= j < |rows| :: IsPart(rows[j], a, b, us[j])
  }

  lemma PartIs(x: Vec, a: nat, b: nat, u: Vec)
    ensures IsPart(x, a, b, u) <==> u == Slice(x, a, b)
  {
    var v := Slice(x, a, b);
    assert IsPart(x, a, b, v);
    if IsPart(x, a, b, u) { assert u == v; }
  }

  /** Head h of a row attends to the key/value head of its group. */
  ghost predicate IsHead(m: Model, q: Vec, keys: Mat, values: Mat, h: nat, y: Vec)
    requires Geometry(m)
  {
    forall kv: nat | InGroup(h, kv, m.heads / m.kvHeads) :: IsHeadOf(m, q, keys, values, h, kv, y)
  }

  ghost predicate IsHeadOf(m: Model, q: Vec, keys: Mat, values: Mat, h: nat, kv: nat, y: Vec)
    requires Geometry(m)
  {
    var d := m.dModel / m.heads;
    var a, b := h * d, kv * d;
    exists u: Vec, ks: Mat, vs: Mat ::
      && IsPart(q, a, a + d, u) && AreParts(keys, b, b + d, ks) && AreParts(values, b, b + d, vs)
      && IsHeadOut(u, ks, vs, m.scale, y)
  }

  lemma PartsAre(rows: Mat, h: nat, d: nat, us: Mat)
    ensures AreParts(rows, h * d, h * d + d, us) <==> us == HeadRows(rows, h, d)
  {
    hide IsPart;
    hide Slice;
    if |us| == |rows| {
      forall j | 0 <= j < |rows|
        ensures IsPart(rows[j], h * d, h * d + d, us[j]) <==> us[j] == HeadOf(rows[j], h, d)
      {
        PartIs(rows[j], h * d, h * d + d, us[j]);
      }
    }
  }

  lemma HeadIs(m: Model, q: Vec, keys: Mat, values: Mat, h: nat, y: Vec)
    requires Geometry(m)
    ensures var d, g := m.HeadDim(), KvHead(m, h);
      AttentionHead(HeadOf(q, h, d), HeadRows(keys, g, d), HeadRows(values, g, d), m.scale) == Some(y)
      <==> IsHead(m, q, keys, values, h, y)
  {
    var d, g := m.HeadDim(), KvHead(m, h);
    KvHeadGroups(m, h, g);
    forall kv: nat | InGroup(h, kv, m.heads / m.kvHeads) ensures kv == g { KvHeadGroups(m, h, kv); }
    hide InGroup;
    hide KvHead;
    HeadOfIs(m, q, keys, values, h, g, y);
    hide IsHeadOf;
    hide AttentionHead;
  }

  lemma HeadOfIs(m: Model, q: Vec, keys: Mat, values: Mat, h: nat, g: nat, y: Vec)
    requires Geometry(m)
    ensures var d := m.HeadDim();
      AttentionHead(HeadOf(q, h, d), HeadRows(keys, g, d), HeadRows(values, g, d), m.scale) == Some(y)
      <==> IsHeadOf(m, q, keys, values, h, g, y)
  {
    hide AttentionHead;
    hide IsHeadOut;
    hide IsPart;
    hide AreParts;
    hide Slice;
    var d := m.HeadDim();
    var a, b := h * d, g * d;
    var u, ks, vs := HeadOf(q, h, d), HeadRows(keys, g, d), HeadRows(values, g, d);
    HeadOutMeaning(u, ks, vs, m.scale, y);
    PartIs(q, a, a + d, u);
    PartsAre(keys, g, d, ks);
    PartsAre(values, g, d, vs);
    if IsHeadOf(m, q, keys, values, h, g, y) {
      var u': Vec, ks': Mat, vs': Mat :|
        && IsPart(q, a, a + d, u') && AreParts(keys, b, b + d, ks') && AreParts(values, b, b + d, vs')
        && IsHeadOut(u', ks', vs', m.scale, y);
      PartIs(q, a, a + d, u');
      PartsAre(keys, g, d, ks');
      PartsAre(values, g, d, vs');
    }
  }

  /** The heads of an attention row, one after the other. */
  ghost predicate IsAttended(m: Model, q: Vec, keys: Mat, values: Mat, n: nat, y: Vec)
    requires Geometry(m)
  {
    if n == 0 then y == []
    else
      var k: nat := n - 1;
      exists done: Vec, out: Vec ::
        IsAttended(m, q, keys, values, k, done) && IsHead(m, q, keys, values, k, out) && y == done + out
  }

  lemma {:induction false} AttendMeaning(m: Model, q: Vec, keys: Mat, values: Mat, n: nat, y: Vec)
    requires Geometry(m)
    ensures Attend(m, q, keys, values, n) == Some(y) <==> IsAttended(m, q, keys, values, n, y)
    decreases n
  {
    hide Attend;
    hide AttentionHead;
    hide IsHead;
    hide HeadRows;
    hide HeadOf;
    hide KvHead;
    AttendNone(m, q, keys, values);
    if n > 0 {
      if Attend(m, q, keys, values, n - 1).Some? {
        AttendNext(m, q, keys, values, n - 1);
      } else {
        AttendRefused(m, q, keys, values, n - 1, n);
      }
      var done := Attend(m, q, keys, values, n - 1);
      var d, g := m.HeadDim(), KvHead(m, n - 1);
      var out := AttentionHead(HeadOf(q, n - 1, d), HeadRows(keys, g, d), HeadRows(values, g, d), m.scale);
      if Attend(m, q, keys, values, n) == Some(y) {
        AttendMeaning(m, q, keys, values, n - 1, done.value);
        HeadIs(m, q, keys, values, n - 1, out.value);
      }
      if IsAttended(m, q, keys, values, n, y) {
        var e: Vec, o: Vec :|
          IsAttended(m, q, keys, values, n - 1, e) && IsHead(m, q, keys, values, n - 1, o) && y == e + o;
        AttendMeaning(m, q, keys, values, n - 1, e);
        HeadIs(m, q, keys, values, n - 1, o);
      }
    }
  }

  // ---- one layer -------------------------------------------------------------------

  /** The three projections of the normalised hidden row. */
  ghost predicate AreProjections(l: Layer, hidden: Vec, p: Qkv)
  {
    exists n: Vec ::
      IsNorm(hidden, l.attnNorm, n) && IsMatmul(l.wq, n, p.q) && IsMatmul(l.wk, n, p.k) && IsMatmul(l.wv, n, p.v)
  }

  lemma ProjectionsMeaning(m: Model, l: Layer, hidden: Vec, p: Qkv)
    ensures Projections(m, l, hidden) == Some(p) <==> AreProjections(l, hidden, p)
  {
    hide RmsNorm;
    hide MatmulRows;
    hide IsNorm;
    hide IsMatmul;
    var n := RmsNorm(hidden, l.attnNorm);
    if n.Some? {
      NormMeaning(hidden, l.attnNorm, n.value);
      MatmulMeaning(l.wq, n.value, p.q);
      MatmulMeaning(l.wk, n.value, p.k);
      MatmulMeaning(l.wv, n.value, p.v);
    }
    forall n': Vec | IsNorm(hidden, l.attnNorm, n') ensures n == Some(n') { NormMeaning(hidden, l.attnNorm, n'); }
  }

  /** The first heads of a row turned one by one, the rest as it was. */
  ghost predicate AreTurned(interleaved: bool, x: Vec, heads: nat, d: nat, pos: nat, t: Angles, y: Vec)
    decreases heads
  {
    if heads == 0 then y == x
    else
      var cut, k: nat := Min(d, |x|), heads - 1;
      var front, back := x[..cut], x[cut..];
      exists u: Vec, v: Vec ::
        IsRope(interleaved, front, pos, t, u) && AreTurned(interleaved, back, k, d, pos, t, v) && y == u + v
  }

  lemma {:induction false} TurnedMeaning(interleaved: bool, x: Vec, heads: nat, d: nat, pos: nat, t: Angles, y: Vec)
    ensures RopeHeads(interleaved, x, heads, d, pos, t) == Some(y)
      <==> AreTurned(interleaved, x, heads, d, pos, t, y)
    decreases heads
  {
    hide Rope;
    hide IsRope;
    if heads > 0 {
      var cut := Min(d, |x|);
      var u := Rope(interleaved, x[..cut], pos, t);
      var v := RopeHeads(interleaved, x[cut..], heads - 1, d, pos, t);
      if u.Some? && v.Some? {
        RopeMeaning(interleaved, x[..cut], pos, t, u.value);
        TurnedMeaning(interleaved, x[cut..], heads - 1, d, pos, t, v.value);
      }
      if AreTurned(interleaved, x, heads, d, pos, t, y) {
        var u': Vec, v': Vec :|
          IsRope(interleaved, x[..cut], pos, t, u') && AreTurned(interleaved, x[cut..], heads - 1, d, pos, t, v')
          && y == u' + v';
        RopeMeaning(interleaved, x[..cut], pos, t, u');
        TurnedMeaning(interleaved, x[cut..], heads - 1, d, pos, t, v');
      }
    }
  }

  /** What a layer appends to the cache, and its query: queries and keys are
      turned, values are not. */
  ghost predicate IsPrepared(m: Model, l: Layer, hidden: Vec, pos: nat, p: Qkv)
    requires m.heads > 0
  {
    var d := m.dModel / m.heads;
    exists r: Qkv ::
      && AreProjections(l, hidden, r) && p.v == r.v
      && AreTurned(m.interleaved, r.q, m.heads, d, pos, m.angles, p.q)
      && AreTurned(m.interleaved, r.k, m.kvHeads, d, pos, m.angles, p.k)
  }

  lemma PrepareMeaning(m: Model, l: Layer, hidden: Vec, pos: nat, p: Qkv)
    requires Geometry(m)
    ensures Prepare(m, l, hidden, pos) == Some(p) <==> IsPrepared(m, l, hidden, pos, p)
  {
    hide Projections;
    hide AreProjections;
    hide RopeHeads;
    hide AreTurned;
    var r := Projections(m, l, hidden);
    if r.Some? {
      ProjectionsMeaning(m, l, hidden, r.value);
      TurnedMeaning(m.interleaved, r.value.q, m.heads, m.HeadDim(), pos, m.angles, p.q);
      TurnedMeaning(m.interleaved, r.value.k, m.kvHeads, m.HeadDim(), pos, m.angles, p.k);
    }
    forall r': Qkv | AreProjections(l, hidden, r') ensures r == Some(r') { ProjectionsMeaning(m, l, hidden, r'); }
  }

  /** The rest of a layer: attention projected and added, then the gated
      feed-forward of the normalised sum, added to that sum. */
  ghost predicate IsMiddle(l: Layer, hidden: Vec, attn: Vec, mid: Vec, n: Vec)
  {
    exists o: Vec :: IsMatmul(l.wo, attn, o) && IsSum(hidden, o, mid) && IsNorm(mid, l.ffnNorm, n)
  }

  ghost predicate IsForwarded(l: Layer, mid: Vec, n: Vec, y: Vec)
  {
    exists g: Vec, u: Vec, a: Vec, f: Vec ::
      && IsMatmul(l.gate, n, g) && IsMatmul(l.up, n, u) && IsSilu(g, u, a)
      && IsMatmul(l.down, a, f) && IsSum(mid, f, y)
  }

  ghost predicate IsFinished(l: Layer, hidden: Vec, attn: Vec, y: Vec)
  {
    exists mid: Vec, n: Vec :: IsMiddle(l, hidden, attn, mid, n) && IsForwarded(l, mid, n, y)
  }

  lemma FinishFound(l: Layer, hidden: Vec, attn: Vec, y: Vec)
    requires Finish(l, hidden, attn) == Some(y)
    ensures IsFinished(l, hidden, attn, y)
  {
    hide RmsNorm;
    hide MatmulRows;
    hide SiluGate;
    hide Residual;
    hide IsNorm;
    hide IsMatmul;
    hide IsSilu;
    hide IsSum;
    var o := MatmulRows(l.wo, attn).value;
    var mid := Residual(hidden, o).value;
    var n := RmsNorm(mid, l.ffnNorm).value;
    var g, u := MatmulRows(l.gate, n).value, MatmulRows(l.up, n).value;
    var a := SiluGate(g, u).value;
    var f := MatmulRows(l.down, a).value;
    MatmulMeaning(l.wo, attn, o);
    ResidualMeaning(hidden, o, mid);
    NormMeaning(mid, l.ffnNorm, n);
    MatmulMeaning(l.gate, n, g);
    MatmulMeaning(l.up, n, u);
    SiluMeaning(g, u, a);
    MatmulMeaning(l.down, a, f);
    ResidualMeaning(mid, f, y);
    assert IsMiddle(l, hidden, attn, mid, n);
    assert IsForwarded(l, mid, n, y);
  }

  lemma FinishGiven(l: Layer, hidden: Vec, attn: Vec, y: Vec)
    requires IsFinished(l, hidden, attn, y)
    ensures Finish(l, hidden, attn) == Some(y)
  {
    hide RmsNorm;
    hide MatmulRows;
    hide SiluGate;
    hide Residual;
    hide IsNorm;
    hide IsMatmul;
    hide IsSilu;
    hide IsSum;
    var mid: Vec, n: Vec :| IsMiddle(l, hidden, attn, mid, n) && IsForwarded(l, mid, n, y);
    var o: Vec :| IsMatmul(l.wo, attn, o) && IsSum(hidden, o, mid) && IsNorm(mid, l.ffnNorm, n);
    MatmulMeaning(l.wo, attn, o);
    ResidualMeaning(hidden, o, mid);
    NormMeaning(mid, l.ffnNorm, n);
    var g: Vec, u: Vec, a: Vec, f: Vec :|
      && IsMatmul(l.gate, n, g) && IsMatmul(l.up, n, u) && IsSilu(g, u, a)
      && IsMatmul(l.down, a, f) && IsSum(mid, f, y);
    MatmulMeaning(l.gate, n, g);
    MatmulMeaning(l.up, n, u);
    SiluMeaning(g, u, a);
    MatmulMeaning(l.down, a, f);
    ResidualMeaning(mid, f, y);
  }

  lemma FinishMeaning(l: Layer, hidden: Vec, attn: Vec, y: Vec)
    ensures Finish(l, hidden, attn) == Some(y) <==> IsFinished(l, hidden, attn, y)
  {
    hide Finish;
    hide IsFinished;
    if Finish(l, hidden, attn) == Some(y) { FinishFound(l, hidden, attn, y); }
    if IsFinished(l, hidden, attn, y) { FinishGiven(l, hidden, attn, y); }
  }

  /** Layer i on a hidden row: it appends one key and one value row to its own
      cache, attends over that cache and leaves the others alone. */
  ghost predicate IsLayer(m: Model, i: nat, hidden: Vec, c: Cache, pos: nat, y: Vec, r: Cache)
    requires Geometry(m) && i < |m.layers| == |c.k| == |c.v|
  {
    exists p: Qkv, attn: Vec ::
      && IsPrepared(m, m.layers[i], hidden, pos, p) && IsGrown(c, i, p, r)
      && IsAttended(m, p.q, r.k[i], r.v[i], m.heads, attn) && IsFinished(m.layers[i], hidden, attn, y)
  }

  predicate IsGrown(c: Cache, i: nat, p: Qkv, r: Cache)
    requires i < |c.k| == |c.v|
  {
    && |r.k| == |c.k| && |r.v| == |c.v| && r.len == c.len
    && r.k[i] == c.k[i] + [p.k] && r.v[i] == c.v[i] + [p.v]
    && forall j | 0 <= j < |c.k| && j != i :: r.k[j] == c.k[j] && r.v[j] == c.v[j]
  }

  lemma GrownIs(c: Cache, i: nat, p: Qkv, r: Cache)
    requires i < |c.k| == |c.v|
    ensures IsGrown(c, i, p, r) <==> r == Appended(c, i, p)
  {
    if IsGrown(c, i, p, r) {
      assert r.k == Appended(c, i, p).k && r.v == Appended(c, i, p).v;
    }
  }

  lemma LayerMeaning(m: Model, i: nat, hidden: Vec, c: Cache, pos: nat, y: Vec, r: Cache)
    requires Geometry(m) && CacheFor(m, c) && i < |m.layers|
    ensures LayerStep(m, i, hidden, c, pos) == Outcome(r, Some(y)) <==> IsLayer(m, i, hidden, c, pos, y, r)
  {
    hide Prepare;
    hide IsPrepared;
    hide Attend;
    hide IsAttended;
    hide Finish;
    hide IsFinished;
    var l := m.layers[i];
    var p := Prepare(m, l, hidden, pos);
    if p.Some? {
      PrepareMeaning(m, l, hidden, pos, p.value);
      GrownIs(c, i, p.value, r);
      var next := Appended(c, i, p.value);
      var attn := Attend(m, p.value.q, next.k[i], next.v[i], m.heads);
      if attn.Some? {
        AttendMeaning(m, p.value.q, next.k[i], next.v[i], m.heads, attn.value);
        FinishMeaning(l, hidden, attn.value, y);
      }
      hide IsGrown;
      hide Appended;
    }
    if IsLayer(m, i, hidden, c, pos, y, r) {
      var p': Qkv, attn: Vec :|
        && IsPrepared(m, l, hidden, pos, p') && IsGrown(c, i, p', r)
        && IsAttended(m, p'.q, r.k[i], r.v[i], m.heads, attn) && IsFinished(l, hidden, attn, y);
      PrepareMeaning(m, l, hidden, pos, p');
      GrownIs(c, i, p', r);
      AttendMeaning(m, p'.q, r.k[i], r.v[i], m.heads, attn);
      FinishMeaning(l, hidden, attn, y);
    }
  }

  // ---- tokens ----------------------------------------------------------------------

  /** Layers start to end, one after the other. */
  ghost predicate AreLayers(m: Model, h: Vec, c: Cache, start: nat, end: nat, pos: nat, y: Vec, r: Cache)
    requires Geometry(m) && CacheFor(m, c) && end <= |m.layers|
    decreases end - start
  {
    if start >= end then y == h && r == c
    else
      exists x: Vec, d: Cache ::
        CacheFor(m, d) && IsLayer(m, start, h, c, pos, x, d) && AreLayers(m, x, d, start + 1, end, pos, y, r)
  }

  lemma {:induction false} LayersMeaning(m: Model, h: Vec, c: Cache, start: nat, end: nat, pos: nat, y: Vec, r: Cache)
    requires Geometry(m) && CacheFor(m, c) && end <= |m.layers|
    ensures RunLayers(m, h, c, start, end, pos) == Outcome(r, Some(y)) <==> AreLayers(m, h, c, start, end, pos, y, r)
    decreases end - start
  {
    hide LayerStep;
    hide IsLayer;
    if start < end {
      var o := LayerStep(m, start, h, c, pos);
      if o.result.Some? {
        LayerMeaning(m, start, h, c, pos, o.result.value, o.cache);
        LayersMeaning(m, o.result.value, o.cache, start + 1, end, pos, y, r);
        assert o == Outcome(o.cache, Some(o.result.value));
      }
      if AreLayers(m, h, c, start, end, pos, y, r) {
        var x: Vec, d: Cache :|
          CacheFor(m, d) && IsLayer(m, start, h, c, pos, x, d) && AreLayers(m, x, d, start + 1, end, pos, y, r);
        LayerMeaning(m, start, h, c, pos, x, d);
        LayersMeaning(m, x, d, start + 1, end, pos, y, r);
      }
    }
  }

  /** The logits of the last hidden row. */
  ghost predicate AreLogits(m: Model, h: Vec, y: Vec)
  {
    exists n: Vec :: IsNorm(h, m.finalNorm, n) && IsMatmul(m.output, n, y)
  }

  lemma LogitsMeaning(m: Model, h: Vec, y: Vec)
    ensures Logits(m, h) == Some(y) <==> AreLogits(m, h, y)
  {
    hide RmsNorm;
    hide MatmulRows;
    hide IsNorm;
    hide IsMatmul;
    var n := RmsNorm(h, m.finalNorm);
    if n.Some? {
      NormMeaning(h, m.finalNorm, n.value);
      MatmulMeaning(m.output, n.value, y);
    }
    forall n': Vec | IsNorm(h, m.finalNorm, n') ensures n == Some(n') { NormMeaning(h, m.finalNorm, n'); }
  }

  /** One forward call: the token's part of the embedding through all layers,
      and a cache one position longer. */
  ghost predicate IsForward(m: Model, token: int, c: Cache, y: Vec, r: Cache)
    requires Geometry(m) && CacheFor(m, c)
  {
    && 0 <= token < m.vocab && c.len < m.maxSeq && r.len == c.len + 1
    && var a, b, mid := token * m.dModel, token * m.dModel + m.dModel, Cache(r.k, r.v, c.len);
       exists h: Vec, x: Vec ::
         IsPart(m.embedding, a, b, h) && AreLayers(m, h, c, 0, |m.layers|, c.len, x, mid) && AreLogits(m, x, y)
  }

  lemma {:induction false} LayersKeepLength(m: Model, h: Vec, c: Cache, start: nat, end: nat, pos: nat)
    requires Geometry(m) && CacheFor(m, c) && end <= |m.layers|
    ensures RunLayers(m, h, c, start, end, pos).cache.len == c.len
    decreases end - start
  {
    hide Prepare;
    hide Complete;
    if start < end {
      var o := LayerStep(m, start, h, c, pos);
      if o.result.Some? { LayersKeepLength(m, o.result.value, o.cache, start + 1, end, pos); }
    }
  }

  lemma ForwardMeaning(m: Model, token: int, c: Cache, y: Vec, r: Cache)
    requires Geometry(m) && CacheFor(m, c)
    ensures Forward(m, token, c) == Outcome(r, Some(y)) <==> IsForward(m, token, c, y, r)
  {
    hide RunLayers;
    hide AreLayers;
    hide Logits;
    hide AreLogits;
    hide IsPart;
    hide Slice;
    if 0 <= token < m.vocab && c.len < m.maxSeq {
      var a, b := token * m.dModel, token * m.dModel + m.dModel;
      var h := Slice(m.embedding, a, b);
      PartIs(m.embedding, a, b, h);
      forall u: Vec | IsPart(m.embedding, a, b, u) ensures u == h { PartIs(m.embedding, a, b, u); }
      var o := RunLayers(m, h, c, 0, |m.layers|, c.len);
      LayersKeepLength(m, h, c, 0, |m.layers|, c.len);
      if o.result.Some? {
        assert o == Outcome(o.cache, Some(o.result.value)) && o.cache == Cache(o.cache.k, o.cache.v, c.len);
        LayersMeaning(m, h, c, 0, |m.layers|, c.len, o.result.value, o.cache);
        LogitsMeaning(m, o.result.value, y);
      }
      var mid := Cache(r.k, r.v, c.len);
      forall x: Vec | AreLayers(m, h, c, 0, |m.layers|, c.len, x, mid)
        ensures o == Outcome(mid, Some(x))
      {
        LayersMeaning(m, h, c, 0, |m.layers|, c.len, x, mid);
      }
    }
  }

  /** The first n tokens from empty caches: their logits and what they leave. */
  ghost predicate IsSequence(m: Model, tokens: Vec, n: nat, c: Cache, ys: seq<Vec>)
    requires Geometry(m) && n <= |tokens|
  {
    if n == 0 then
      && ys == [] && c.len == 0 && |c.k| == |c.v| == |m.layers|
      && forall i | 0 <= i < |m.layers| :: c.k[i] == [] && c.v[i] == []
    else
      var k: nat, t := n - 1, tokens[n - 1];
      exists d: Cache, y: Vec, before: seq<Vec> ::
        && CacheFor(m, d) && IsSequence(m, tokens, k, d, before) && IsForward(m, t, d, y, c)
        && ys == before + [y]
  }

  /** For every token sequence the executor succeeds with logits ys and cache c
      exactly when these solve the equations of the model. */
  lemma {:induction false} SequenceMeaning(m: Model, tokens: Vec, n: nat, c: Cache, ys: seq<Vec>)
    requires Geometry(m) && n <= |tokens|
    ensures Sequence(m, tokens, n) == Trace(c, ys, true) <==> IsSequence(m, tokens, n, c, ys)
    decreases n
  {
    hide Forward;
    hide IsForward;
    if n == 0 {
      if IsSequence(m, tokens, 0, c, ys) {
        assert c == Cache(c.k, c.v, c.len) && c.k == EmptyCache(m).k && c.v == EmptyCache(m).v;
      }
    } else {
      var t := Sequence(m, tokens, n - 1);
      if t.ok {
        assert t == Trace(t.cache, t.logits, true);
        SequenceMeaning(m, tokens, n - 1, t.cache, t.logits);
        var o := Forward(m, tokens[n - 1], t.cache);
        if o.result.Some? {
          assert o == Outcome(o.cache, Some(o.result.value));
          ForwardMeaning(m, tokens[n - 1], t.cache, o.result.value, o.cache);
        }
      }
      if IsSequence(m, tokens, n, c, ys) {
        var d: Cache, y: Vec, before: seq<Vec> :|
          && CacheFor(m, d) && IsSequence(m, tokens, n - 1, d, before) && IsForward(m, tokens[n - 1], d, y, c)
          && ys == before + [y];
        SequenceMeaning(m, tokens, n - 1, d, before);
        ForwardMeaning(m, tokens[n - 1], d, y, c);
      }
    }
  }
}
