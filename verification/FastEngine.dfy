/** The batched engine: all positions of all sequences are stacked and pushed
    through the layers together. */
module FastEngine {
  import opened Arithmetic
  import opened Exponential
  import opened Float64
  import opened ExactMatmul
  import opened ModernOps
  import opened ModernModel
  import opened FastOps
  import opened FastNorm
  import opened FastPointwise
  import opened FastAttention
  import opened Stacking
  import opened LoopInterchange
  import opened BatchSweep

  datatype Stacked = Stacked(q: Mat, k: Mat, v: Mat)

  lemma LamSmall(m: Model)
    requires m.dHead > 0
    ensures m.Lam() < TWO31
  {
    var n := 0x1000_0000_0000_0000 / m.dHead;
    assert n <= 0x1000_0000_0000_0000 by { DivRange(0x1000_0000_0000_0000, 0, 0x1000_0000_0000_0001, m.dHead); }
    var r := m.Lam();
    if r >= TWO31 { MulMono(TWO31, r, TWO31); MulMono(TWO31, r, r); }
  }

  class Engine {
    const m: Model
    const fpu: Fpu
    /** How often each operator fell back to wide integers. */
    var fallbacks: map<string, nat>

    ghost predicate Valid() { ValidModel(m) && ValidFpu(fpu) }

    constructor (m: Model, fpu: Fpu)
      requires ValidModel(m) && ValidFpu(fpu)
      ensures Valid() && this.m == m && this.fpu == fpu && fallbacks == map[]
    {
      this.m, this.fpu, fallbacks := m, fpu, map[];
    }

    method Note(what: string, slow: bool)
      modifies this
      ensures fallbacks == if slow
                           then old(fallbacks)[what := (if what in old(fallbacks) then old(fallbacks)[what] else 0) + 1]
                           else old(fallbacks)
    {
      if slow {
        fallbacks := fallbacks[what := (if what in fallbacks then fallbacks[what] else 0) + 1];
      }
    }

    method NormRows(xs: Mat, g: Vec) returns (r: Option<Mat>)
      requires Valid() && Wide(xs, m.dModel) && MatBounded(xs, LIM62) && ValidGains(g, m.dModel)
      modifies this
      ensures r.None? ==> exists i :: 0 <= i < |xs| && xs[i] != [] && RmsNormInt(xs[i], g, m.eps).None?
      ensures r.Some? ==> |r.value| == |xs| && Wide(r.value, m.dModel) && MatBounded(r.value, LIM62)
      ensures r.Some? ==> forall i | 0 <= i < |xs| :: xs[i] != [] && RmsNormInt(xs[i], g, m.eps) == Some(r.value[i])
    {
      hide RmsNormInt;
      var slow;
      DimensionsPositive(m);
      r, slow := RmsNorm(xs, g, m.dModel, m.eps);
      Note("rmsnorm", slow);
      var opts := NormAll(xs, g, m.eps);
      if r.None? {
        ghost var i :| 0 <= i < |opts| && opts[i].None?;
        assert xs[i] != [] && RmsNormInt(xs[i], g, m.eps).None?;
      } else {
        assert forall i | 0 <= i < |xs| :: opts[i] == RmsNormInt(xs[i], g, m.eps);
      }
    }

    method ProjectRows(xs: Mat, w: Scaled, rows: nat, cols: nat) returns (r: Option<Mat>)
      requires Valid() && ValidScaled(w, rows, cols) && cols < DIM_LIMIT && Wide(xs, cols) && MatBounded(xs, LIM62)
      modifies this
      ensures r.None? ==> exists i :: 0 <= i < |xs| && ProjectInt(xs[i], w).None?
      ensures r.Some? ==> |r.value| == |xs| && Wide(r.value, rows) && MatBounded(r.value, LIM62)
      ensures r.Some? ==> forall i | 0 <= i < |xs| :: ProjectInt(xs[i], w) == Some(r.value[i])
    {
      hide ProjectInt;
      var slow;
      r, slow := Project(fpu, xs, w, cols);
      Note("projection epilogue", slow);
      var opts := ProjectAll(xs, w);
      if r.None? {
        ghost var i :| 0 <= i < |opts| && opts[i].None?;
        assert ProjectInt(xs[i], w).None?;
      } else {
        assert forall i | 0 <= i < |xs| :: opts[i] == ProjectInt(xs[i], w);
      }
    }

    method RotateRows(l: Layer, xs: Mat, heads: nat, positions: seq<nat>) returns (r: Option<Mat>)
      requires Valid() && Wide(xs, heads * m.dHead) && MatBounded(xs, LIM62)
      requires |positions| == |xs| && forall i | 0 <= i < |xs| :: positions[i] < m.maxSeq
      modifies this
      ensures r.None? ==> exists i :: 0 <= i < |xs| && Rotate(m, l, xs[i], heads, positions[i]).None?
      ensures r.Some? ==> |r.value| == |xs| && Wide(r.value, heads * m.dHead) && MatBounded(r.value, LIM62)
      ensures r.Some? ==> forall i | 0 <= i < |xs| :: Rotate(m, l, xs[i], heads, positions[i]) == Some(r.value[i])
    {
      hide ValidLayer;
      hide ValidScaled;
      hide ValidTable;
      hide RopeInt;
      if !l.rope {
        return Some(xs);
      }
      var cos := seq(|xs|, i requires 0 <= i < |xs| => m.cos[positions[i]]);
      var sin := seq(|xs|, i requires 0 <= i < |xs| => m.sin[positions[i]]);
      var slow;
      r, slow := Rope(xs, heads, m.dHead, cos, sin);
      Note("rope", slow);
      var opts := RopeAll(xs, heads, m.dHead, cos, sin);
      if r.None? {
        ghost var i :| 0 <= i < |opts| && opts[i].None?;
        assert Rotate(m, l, xs[i], heads, positions[i]).None?;
      } else {
        assert forall i | 0 <= i < |xs| :: opts[i] == Rotate(m, l, xs[i], heads, positions[i]);
      }
    }

    /** Queries, keys and values of all rows. */
    method StackQkv(l: Layer, h: Mat, positions: seq<nat>) returns (r: Option<Stacked>)
      requires Valid() && ValidLayer(m, l) && Wide(h, m.dModel) && MatBounded(h, LIM62)
      requires |positions| == |h| && forall i | 0 <= i < |h| :: positions[i] < m.maxSeq
      modifies this
      ensures r.None? ==> exists i :: 0 <= i < |h| && TokenQkv(m, l, positions[i], h[i]).None?
      ensures r.Some? ==> |r.value.q| == |r.value.k| == |r.value.v| == |h|
      ensures r.Some? ==> forall i | 0 <= i < |h| ::
        TokenQkv(m, l, positions[i], h[i]) == Some(Qkv(r.value.q[i], r.value.k[i], r.value.v[i]))
    {
      hide RmsNormInt;
      hide ProjectInt;
      hide Rotate;
      hide ValidScaled;
      hide ValidTable;
      var hq, hk := m.nHeads * m.dHead, m.nKv * m.dHead;
      var n := NormRows(h, l.attnNorm);
      if n.None? {
        return None;
      }
      var q0 := ProjectRows(n.value, l.wq, hq, m.dModel);
      if q0.None? {
        return None;
      }
      var k0 := ProjectRows(n.value, l.wk, hk, m.dModel);
      if k0.None? {
        return None;
      }
      var v := ProjectRows(n.value, l.wv, hk, m.dModel);
      if v.None? {
        return None;
      }
      var q := RotateRows(l, q0.value, m.nHeads, positions);
      if q.None? {
        return None;
      }
      var k := RotateRows(l, k0.value, m.nKv, positions);
      if k.None? {
        return None;
      }
      if exists i | 0 <= i < |h| :: !FitsCache(k.value[i]) || !FitsCache(v.value[i]) {
        return None;
      }
      r := Some(Stacked(q.value, k.value, v.value));
    }

    method ResidualRows(hs: Mat, ys: Mat) returns (r: Option<Mat>)
      requires |hs| == |ys| && Wide(hs, m.dModel) && Wide(ys, m.dModel)
      modifies this
      ensures r.None? ==> exists i :: 0 <= i < |hs| && ResidualInt(hs[i], ys[i]).None?
      ensures r.Some? ==> |r.value| == |hs| && Wide(r.value, m.dModel) && MatBounded(r.value, LIM62)
      ensures r.Some? ==> forall i | 0 <= i < |hs| :: ResidualInt(hs[i], ys[i]) == Some(r.value[i])
    {
      hide ResidualInt;
      var slow;
      r, slow := Residual(hs, ys);
      Note("residual", slow);
      var opts := ResidualAll(hs, ys);
      if r.None? {
        ghost var i :| 0 <= i < |opts| && opts[i].None?;
        assert ResidualInt(hs[i], ys[i]).None?;
      } else {
        assert forall i | 0 <= i < |hs| :: opts[i] == ResidualInt(hs[i], ys[i]);
      }
    }

    method SiluRows(gs: Mat, us: Mat) returns (r: Option<Mat>)
      requires Valid() && |gs| == |us| && Wide(gs, m.dFf) && Wide(us, m.dFf) && MatBounded(us, LIM62)
      modifies this
      ensures r.None? ==> exists i :: 0 <= i < |gs| && SiluInt(m.table, gs[i], us[i]).None?
      ensures r.Some? ==> |r.value| == |gs| && Wide(r.value, m.dFf) && MatBounded(r.value, LIM62)
      ensures r.Some? ==> forall i | 0 <= i < |gs| :: SiluInt(m.table, gs[i], us[i]) == Some(r.value[i])
    {
      hide SiluInt;
      hide ValidTable;
      var slow;
      r, slow := Silu(m.table, gs, us);
      Note("silu", slow);
      var opts := SiluAll(m.table, gs, us);
      if r.None? {
        ghost var i :| 0 <= i < |opts| && opts[i].None?;
        assert SiluInt(m.table, gs[i], us[i]).None?;
      } else {
        assert forall i | 0 <= i < |gs| :: opts[i] == SiluInt(m.table, gs[i], us[i]);
      }
    }

    /** The rest of a layer on all rows. */
    method StackFinish(l: Layer, h: Mat, att: Mat) returns (r: Option<Mat>)
      requires Valid() && ValidLayer(m, l) && Wide(h, m.dModel)
      requires |att| == |h| && Wide(att, m.nHeads * m.dHead) && MatBounded(att, LIM62)
      modifies this
      ensures r.None? ==> exists i :: 0 <= i < |h| && FinishLayer(m, l, h[i], att[i]).None?
      ensures r.Some? ==> |r.value| == |h| && Wide(r.value, m.dModel) && MatBounded(r.value, LIM62)
      ensures r.Some? ==> forall i | 0 <= i < |h| :: FinishLayer(m, l, h[i], att[i]) == Some(r.value[i])
    {
      hide RmsNormInt;
      hide ProjectInt;
      hide SiluInt;
      hide ResidualInt;
      hide ValidScaled;
      hide ValidTable;
      var o := ProjectRows(att, l.wo, m.dModel, m.nHeads * m.dHead);
      if o.None? {
        return None;
      }
      var h1 := ResidualRows(h, o.value);
      if h1.None? {
        return None;
      }
      var n := NormRows(h1.value, l.ffnNorm);
      if n.None? {
        return None;
      }
      var g := ProjectRows(n.value, l.wGate, m.dFf, m.dModel);
      if g.None? {
        return None;
      }
      var u := ProjectRows(n.value, l.wUp, m.dFf, m.dModel);
      if u.None? {
        return None;
      }
      var a := SiluRows(g.value, u.value);
      if a.None? {
        return None;
      }
      var d := ProjectRows(a.value, l.wDown, m.dModel, m.dFf);
      if d.None? {
        return None;
      }
      r := ResidualRows(h1.value, d.value);
    }

    /** Causal attention of one sequence. */
    method AttendBlock(q: Mat, k: Mat, v: Mat) returns (att: Mat)
      requires Valid() && |q| == |k| == |v| && 0 < |q| <= m.maxSeq
      requires Wide(q, m.nHeads * m.dHead) && CacheRows(m, k) && CacheRows(m, v) && MatBounded(q, LIM62)
      requires forall i | 0 <= i < |k| :: FitsCache(k[i]) && FitsCache(v[i])
      modifies this
      ensures |att| == |q| && Wide(att, m.nHeads * m.dHead) && MatBounded(att, LIM62)
      ensures forall i | 0 <= i < |q| :: att[i] == Attend(m, q[i], k[..i + 1], v[..i + 1], m.nHeads)
    {
      hide ValidLayer;
      hide ValidScaled;
      hide ValidTable;
      hide Attend;
      hide IsCausalAttention;
      hide JoinHeads;
      var q3, k3, v3 := QueryHeads(m, q), CacheHeads(m, k), CacheHeads(m, v);
      HeadsBounded(m, q, k, v);
      LamSmall(m);
      var r, slow := CausalAttention(fpu, m.table, q3, k3, v3, m.Lam(), |q|, m.dHead);
      Note("attention", slow);
      AttentionShape(r, m.table, q3, k3, v3, m.Lam(), |q|, m.dHead);
      att := seq(|q|, i requires 0 <= i < |q| => JoinHeads(r, i, m.nHeads));
      forall i | 0 <= i < |q|
        ensures att[i] == Attend(m, q[i], k[..i + 1], v[..i + 1], m.nHeads)
        ensures Bounded(att[i], LIM62)
      {
        JoinIsAttend(m, q, k, v, r, i, m.nHeads);
        AttendFits(m, q[i], k[..i + 1], v[..i + 1], m.nHeads);
      }
    }

    /** Attention of all sequences, one block of rows after the other. */
    method StackAttention(st: Stacked, lengths: seq<nat>) returns (att: Mat)
      requires Valid() && ValidStack(m, st, lengths)
      modifies this
      ensures |att| == |st.q| && Wide(att, m.nHeads * m.dHead) && MatBounded(att, LIM62)
      ensures forall s, p | 0 <= s < |lengths| && 0 <= p < lengths[s] ::
        att[RowOf(lengths, s, p)] == BlockAttend(m, st, lengths, s, p)
    {
      hide ValidModel;
      hide ValidFpu;
      hide BlockAttend;
      hide RowOf;
      hide Start;
      att := [];
      StartZero(lengths);
      for s := 0 to |lengths|
        invariant Wide(att, m.nHeads * m.dHead) && MatBounded(att, LIM62) && Attended(m, st, lengths, att, s)
      {
        var block := AttendBlockOf(st, lengths, s);
        AttendedNext(m, st, lengths, att, block, s);
        att := att + block;
      }
    }

    method AttendBlockOf(st: Stacked, lengths: seq<nat>, s: nat) returns (block: Mat)
      requires Valid() && ValidStack(m, st, lengths) && s < |lengths|
      modifies this
      ensures |block| == lengths[s] && Wide(block, m.nHeads * m.dHead) && MatBounded(block, LIM62)
      ensures forall p | 0 <= p < lengths[s] :: block[p] == BlockAttend(m, st, lengths, s, p)
    {
      hide ValidModel;
      hide ValidFpu;
      hide Attend;
      BlockShapes(m, st, lengths, s);
      block := AttendBlock(Block(st.q, lengths, s), Block(st.k, lengths, s), Block(st.v, lengths, s));
    }

    /** One layer on all rows of all sequences: refused exactly when the sweep
        of some sequence is, and otherwise every block is its sweep. */
    method LayerStacked(l: Layer, h: Mat, positions: seq<nat>, lengths: seq<nat>) returns (r: Option<Mat>)
      requires Valid() && ValidLayer(m, l) && ValidBatch(m, h, positions, lengths)
      modifies this
      ensures r.None? ==> exists s :: 0 <= s < |lengths| && LayerSweep(m, l, Block(h, lengths, s)).None?
      ensures r.Some? ==> ValidBatch(m, r.value, positions, lengths)
      ensures r.Some? ==> forall s | 0 <= s < |lengths| ::
        LayerSweep(m, l, Block(h, lengths, s)).Some?
        && LayerSweep(m, l, Block(h, lengths, s)).value.hidden == Block(r.value, lengths, s)
    {
      hide ValidModel;
      hide ValidLayer;
      hide ValidFpu;
      hide TokenQkv;
      hide FinishLayer;
      hide LayerSweep;
      hide BlockAttend;
      PositionsInRange(m, h, positions, lengths);
      var st := StackQkv(l, h, positions);
      if st.None? {
        ghost var i :| 0 <= i < |h| && TokenQkv(m, l, positions[i], h[i]).None?;
        ghost var s, p := OwnerOf(lengths, |lengths|, i);
        SweepRefused(m, l, Block(h, lengths, s), p);
        return None;
      }
      ProjectedStack(m, l, h, positions, lengths, st.value);
      var att := StackAttention(st.value, lengths);
      r := StackFinish(l, h, att);
      if r.None? {
        ghost var i :| 0 <= i < |h| && FinishLayer(m, l, h[i], att[i]).None?;
        ghost var s, p := OwnerOf(lengths, |lengths|, i);
        BlockProjected(m, l, h, positions, lengths, st.value, s);
        BlockOutputIs(m, l, h, positions, lengths, st.value, s, p);
        SweepRefusedLate(m, l, Block(h, lengths, s), BlockQkv(st.value, lengths, s), p);
      } else {
        forall s | 0 <= s < |lengths|
          ensures LayerSweep(m, l, Block(h, lengths, s)).Some?
          ensures LayerSweep(m, l, Block(h, lengths, s)).value.hidden == Block(r.value, lengths, s)
        {
          BlockProjected(m, l, h, positions, lengths, st.value, s);
          forall p | 0 <= p < lengths[s]
            ensures RowOutput(m, l, Block(h, lengths, s), BlockQkv(st.value, lengths, s), p)
                 == Some(Block(r.value, lengths, s)[p])
          {
            BlockOutputIs(m, l, h, positions, lengths, st.value, s, p);
          }
          SweepFromRows(m, l, Block(h, lengths, s), BlockQkv(st.value, lengths, s), Block(r.value, lengths, s));
        }
      }
    }
  }

  /** Hidden rows of stacked sequences with the position of every row. */
  ghost predicate ValidBatch(m: Model, h: Mat, positions: seq<nat>, lengths: seq<nat>)
  {
    && |h| == |positions| == Start(lengths, |lengths|)
    && Wide(h, m.dModel) && MatBounded(h, LIM62)
    && (forall s | 0 <= s < |lengths| :: 0 < lengths[s] <= m.maxSeq)
    && (forall s, p | 0 <= s < |lengths| && 0 <= p < lengths[s] :: positions[RowOf(lengths, s, p)] == p)
  }

  lemma PositionsInRange(m: Model, h: Mat, positions: seq<nat>, lengths: seq<nat>)
    requires ValidBatch(m, h, positions, lengths)
    ensures forall i | 0 <= i < |h| :: positions[i] < m.maxSeq
    ensures forall s | 0 <= s < |lengths| :: HiddenRows(m, Block(h, lengths, s))
  {
    forall i | 0 <= i < |h|
      ensures positions[i] < m.maxSeq
    {
      var s, p := OwnerOf(lengths, |lengths|, i);
    }
  }

  /** `st` holds the projections of all rows of `h`. */
  ghost predicate Projected(m: Model, l: Layer, h: Mat, positions: seq<nat>, st: Stacked)
    requires ValidModel(m) && ValidLayer(m, l) && Wide(h, m.dModel) && |positions| == |h|
    requires forall i | 0 <= i < |h| :: positions[i] < m.maxSeq
  {
    && |st.q| == |st.k| == |st.v| == |h|
    && forall i | 0 <= i < |h| :: TokenQkv(m, l, positions[i], h[i]) == Some(Qkv(st.q[i], st.k[i], st.v[i]))
  }

  ghost function BlockQkv(st: Stacked, lengths: seq<nat>, s: nat): (r: seq<Qkv>)
    requires s < |lengths| && |st.q| == |st.k| == |st.v| == Start(lengths, |lengths|)
    ensures |r| == lengths[s]
  {
    var q, k, v := Block(st.q, lengths, s), Block(st.k, lengths, s), Block(st.v, lengths, s);
    seq(lengths[s], p requires 0 <= p < lengths[s] => Qkv(q[p], k[p], v[p]))
  }

  lemma ProjectedStack(m: Model, l: Layer, h: Mat, positions: seq<nat>, lengths: seq<nat>, st: Stacked)
    requires ValidModel(m) && ValidLayer(m, l) && ValidBatch(m, h, positions, lengths)
    requires forall i | 0 <= i < |h| :: positions[i] < m.maxSeq
    requires Projected(m, l, h, positions, st)
    ensures ValidStack(m, st, lengths)
  {
    hide TokenQkv;
    hide ValidLayer;
    forall i | 0 <= i < |h|
      ensures |st.q[i]| == m.nHeads * m.dHead && |st.k[i]| == |st.v[i]| == m.nKv * m.dHead
      ensures FitsCache(st.k[i]) && FitsCache(st.v[i]) && Bounded(st.q[i], LIM62)
    {
      var t := TokenQkv(m, l, positions[i], h[i]);
    }
  }

  lemma BlockProjected(m: Model, l: Layer, h: Mat, positions: seq<nat>, lengths: seq<nat>, st: Stacked, s: nat)
    requires ValidModel(m) && ValidLayer(m, l) && ValidBatch(m, h, positions, lengths) && s < |lengths|
    requires forall i | 0 <= i < |h| :: positions[i] < m.maxSeq
    requires Projected(m, l, h, positions, st)
    ensures HiddenRows(m, Block(h, lengths, s))
    ensures RowsProjected(m, l, Block(h, lengths, s), BlockQkv(st, lengths, s))
  {
    hide ValidModel;
    hide ValidLayer;
    hide TokenQkv;
    var hs, ts := Block(h, lengths, s), BlockQkv(st, lengths, s);
    forall p | 0 <= p < lengths[s]
      ensures |hs[p]| == m.dModel && TokenQkv(m, l, p, hs[p]) == Some(ts[p])
    {
      assert positions[RowOf(lengths, s, p)] == p;
    }
  }

  lemma BlockOutputIs(m: Model, l: Layer, h: Mat, positions: seq<nat>, lengths: seq<nat>, st: Stacked, s: nat, p: nat)
    requires ValidModel(m) && ValidLayer(m, l) && ValidBatch(m, h, positions, lengths)
    requires s < |lengths| && p < lengths[s]
    requires forall i | 0 <= i < |h| :: positions[i] < m.maxSeq
    requires Projected(m, l, h, positions, st) && ValidStack(m, st, lengths)
    requires HiddenRows(m, Block(h, lengths, s)) && QkvShaped(m, BlockQkv(st, lengths, s))
    ensures RowOutput(m, l, Block(h, lengths, s), BlockQkv(st, lengths, s), p)
         == FinishLayer(m, l, h[RowOf(lengths, s, p)], BlockAttend(m, st, lengths, s, p))
  {
    hide ValidModel;
    hide ValidLayer;
    hide Attend;
    hide FinishLayer;
    var ts := BlockQkv(st, lengths, s);
    assert Keys(ts) == Block(st.k, lengths, s) && Vals(ts) == Block(st.v, lengths, s);
  }

  /** Stacked projections of sequences of the given lengths. */
  ghost predicate ValidStack(m: Model, st: Stacked, lengths: seq<nat>)
  {
    && Geometry(m) && ValidTable(m.table)
    && |st.q| == |st.k| == |st.v| == Start(lengths, |lengths|)
    && (forall s | 0 <= s < |lengths| :: 0 < lengths[s] <= m.maxSeq)
    && Wide(st.q, m.nHeads * m.dHead) && CacheRows(m, st.k) && CacheRows(m, st.v) && MatBounded(st.q, LIM62)
    && forall i | 0 <= i < |st.k| :: FitsCache(st.k[i]) && FitsCache(st.v[i])
  }

  lemma BlockShapes(m: Model, st: Stacked, lengths: seq<nat>, s: nat)
    requires ValidStack(m, st, lengths) && s < |lengths|
    ensures var q, k, v := Block(st.q, lengths, s), Block(st.k, lengths, s), Block(st.v, lengths, s);
      && Wide(q, m.nHeads * m.dHead) && CacheRows(m, k) && CacheRows(m, v) && MatBounded(q, LIM62)
      && forall i | 0 <= i < |k| :: FitsCache(k[i]) && FitsCache(v[i])
  {
    BlockInRange(lengths, s);
  }

  /** Attention of row `p` of sequence `s` over its own sequence up to it. */
  ghost function BlockAttend(m: Model, st: Stacked, lengths: seq<nat>, s: nat, p: nat): Vec
    requires ValidStack(m, st, lengths) && s < |lengths| && p < lengths[s]
  {
    BlockShapes(m, st, lengths, s);
    Attend(m, Block(st.q, lengths, s)[p], Block(st.k, lengths, s)[..p + 1], Block(st.v, lengths, s)[..p + 1], m.nHeads)
  }

  /** The rows of the first `s` sequences. */
  ghost predicate Attended(m: Model, st: Stacked, lengths: seq<nat>, att: Mat, s: nat)
    requires ValidStack(m, st, lengths) && s <= |lengths|
  {
    && |att| == Start(lengths, s)
    && forall t, p | 0 <= t < s && 0 <= p < lengths[t] ::
         RowOf(lengths, t, p) < |att| && att[RowOf(lengths, t, p)] == BlockAttend(m, st, lengths, t, p)
  }

  lemma AttendedNext(m: Model, st: Stacked, lengths: seq<nat>, att: Mat, block: Mat, s: nat)
    requires ValidStack(m, st, lengths) && s < |lengths| && Attended(m, st, lengths, att, s)
    requires |block| == lengths[s] && forall p | 0 <= p < lengths[s] :: block[p] == BlockAttend(m, st, lengths, s, p)
    ensures Attended(m, st, lengths, att + block, s + 1)
  {
    hide ValidStack;
    hide BlockAttend;
    forall t, p | 0 <= t < s + 1 && 0 <= p < lengths[t]
      ensures RowOf(lengths, t, p) < |att + block|
      ensures (att + block)[RowOf(lengths, t, p)] == BlockAttend(m, st, lengths, t, p)
    {
      if t == s { assert (att + block)[Start(lengths, s) + p] == block[p]; }
    }
  }

  lemma StartZero(lengths: seq<nat>)
    ensures Start(lengths, 0) == 0
  {
  }

  lemma AttentionShape(r: Ten, t: Vec, q: Ten, k: Ten, v: Ten, lam: int, p: nat, d: nat)
    requires ValidTable(t) && |q| == |k| == |v| && HeadStack(q, p, d) && HeadStack(k, p, d) && HeadStack(v, p, d)
    requires IsCausalAttention(r, t, q, k, v, lam, p, d)
    ensures |r| == |q| && HeadStack(r, p, d)
  {
  }

  lemma HeadsBounded(m: Model, q: Mat, k: Mat, v: Mat)
    requires Geometry(m) && Wide(q, m.nHeads * m.dHead) && CacheRows(m, k) && CacheRows(m, v) && MatBounded(q, LIM62)
    requires |q| == |k| == |v| && forall i | 0 <= i < |k| :: FitsCache(k[i]) && FitsCache(v[i])
    ensures TenBounded(QueryHeads(m, q), LIM62)
    ensures TenBounded(CacheHeads(m, k), LIM62) && TenBounded(CacheHeads(m, v), LIM62)
  {
    forall h | 0 <= h < m.nHeads
      ensures forall j | 0 <= j < |q| ::
        Bounded(QueryHeads(m, q)[h][j], LIM62) && Bounded(CacheHeads(m, k)[h][j], LIM62)
        && Bounded(CacheHeads(m, v)[h][j], LIM62)
    {
      SliceInRange(h, m.nHeads, m.dHead);
      HeadRowsBounded(q, h, m.dHead, LIM62);
      HeadRowsBounded(k, KvHead(m, h), m.dHead, LIM62);
      HeadRowsBounded(v, KvHead(m, h), m.dHead, LIM62);
    }
  }

  lemma DimensionsPositive(m: Model)
    requires ValidModel(m)
    ensures m.dModel >= 2 && m.nKv * m.dHead >= 2 && m.nHeads * m.dHead >= 2
  {
    MulMono(1, m.nHeads, m.dHead);
    MulMono(1, m.nKv, m.dHead);
  }
}
