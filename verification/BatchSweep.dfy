/** A layer sweep seen row by row: what a left-to-right pass over one layer
    gives is what independent rows give once all keys and values are known. */
module BatchSweep {
  import opened Arithmetic
  import opened ModernModel
  import opened LoopInterchange

  function Keys(ts: seq<Qkv>): Mat { seq(|ts|, p requires 0 <= p < |ts| => ts[p].k) }

  function Vals(ts: seq<Qkv>): Mat { seq(|ts|, p requires 0 <= p < |ts| => ts[p].v) }

  predicate QkvShaped(m: Model, ts: seq<Qkv>)
  {
    forall p | 0 <= p < |ts| ::
      |ts[p].q| == m.nHeads * m.dHead && |ts[p].k| == |ts[p].v| == m.nKv * m.dHead
  }

  /** Row `p` of a batch: its own hidden row, all keys and values up to it. */
  function RowOutput(m: Model, l: Layer, hs: Mat, ts: seq<Qkv>, p: nat): (r: Option<Vec>)
    requires ValidModel(m) && ValidLayer(m, l) && HiddenRows(m, hs) && |ts| == |hs| && p < |hs| && QkvShaped(m, ts)
    ensures r.Some? ==> |r.value| == m.dModel
  {
    FinishLayer(m, l, hs[p], Attend(m, ts[p].q, Keys(ts)[..p + 1], Vals(ts)[..p + 1], m.nHeads))
  }

  /** `ts` are the projections of all rows. */
  ghost predicate RowsProjected(m: Model, l: Layer, hs: Mat, ts: seq<Qkv>)
    requires ValidModel(m) && ValidLayer(m, l) && |hs| <= m.maxSeq && HiddenRows(m, hs)
  {
    && |ts| == |hs| && QkvShaped(m, ts)
    && forall p | 0 <= p < |hs| :: TokenQkv(m, l, p, hs[p]) == Some(ts[p])
  }

  lemma SweepEmpty(m: Model, l: Layer)
    requires ValidModel(m) && ValidLayer(m, l)
    ensures LayerSweep(m, l, []) == Some(Sweep([], [], []))
  {
  }

  /** When the rows all succeed, the sweep succeeds with the same rows. */
  lemma {:induction false} SweepFromRows(m: Model, l: Layer, hs: Mat, ts: seq<Qkv>, outs: Mat)
    requires ValidModel(m) && ValidLayer(m, l) && |hs| <= m.maxSeq && HiddenRows(m, hs)
    requires RowsProjected(m, l, hs, ts) && |outs| == |hs|
    requires forall p | 0 <= p < |hs| :: RowOutput(m, l, hs, ts, p) == Some(outs[p])
    ensures LayerSweep(m, l, hs) == Some(Sweep(outs, Keys(ts), Vals(ts)))
  {
    hide ValidModel;
    hide ValidLayer;
    hide LayerSweep;
    hide TokenQkv;
    hide FinishLayer;
    hide Attend;
    if hs == [] {
      SweepEmpty(m, l);
    } else {
      var n := |hs| - 1;
      forall p | 0 <= p < n
        ensures RowOutput(m, l, hs[..n], ts[..n], p) == Some(outs[..n][p])
      {
        RowOutputPrefix(m, l, hs, ts, n, p);
      }
      SweepFromRows(m, l, hs[..n], ts[..n], outs[..n]);
      var keys, values := Keys(ts[..n]), Vals(ts[..n]);
      assert Keys(ts)[..n + 1] == Keys(ts) == keys + [ts[n].k] && Vals(ts)[..n + 1] == Vals(ts) == values + [ts[n].v];
      assert RowOutput(m, l, hs, ts, n) == Some(outs[n]);
      assert Cell(m, l, n, hs[n], keys, values) == Some(Sweep([outs[n]], [ts[n].k], [ts[n].v]));
      assert outs == outs[..n] + [outs[n]] && hs == hs[..n] + [hs[n]];
      SweepExtends(m, l, hs[..n], hs[n]);
    }
  }

  /** A row output does not depend on later rows. */
  lemma RowOutputPrefix(m: Model, l: Layer, hs: Mat, ts: seq<Qkv>, n: nat, p: nat)
    requires ValidModel(m) && ValidLayer(m, l) && HiddenRows(m, hs) && |ts| == |hs| && p < n <= |hs| && QkvShaped(m, ts)
    ensures RowOutput(m, l, hs[..n], ts[..n], p) == RowOutput(m, l, hs, ts, p)
  {
    hide ValidModel;
    hide ValidLayer;
    assert Keys(ts[..n])[..p + 1] == Keys(ts)[..p + 1];
    assert Vals(ts[..n])[..p + 1] == Vals(ts)[..p + 1];
  }

  /** A successful sweep projects every row and finishes every row. */
  lemma {:induction false} SweepGivesRows(m: Model, l: Layer, hs: Mat) returns (ts: seq<Qkv>)
    requires ValidModel(m) && ValidLayer(m, l) && |hs| <= m.maxSeq && HiddenRows(m, hs)
    requires LayerSweep(m, l, hs).Some?
    ensures RowsProjected(m, l, hs, ts)
    ensures forall p | 0 <= p < |hs| :: RowOutput(m, l, hs, ts, p).Some?
    ensures LayerSweep(m, l, hs).value.keys == Keys(ts) && LayerSweep(m, l, hs).value.values == Vals(ts)
  {
    hide ValidModel;
    hide ValidLayer;
    hide TokenQkv;
    hide FinishLayer;
    hide Attend;
    if hs == [] {
      ts := [];
    } else {
      var n := |hs| - 1;
      var ts' := SweepGivesRows(m, l, hs[..n]);
      ts := ts' + [TokenQkv(m, l, n, hs[n]).value];
      assert ts[..n] == ts';
      assert Keys(ts) == Keys(ts') + [ts[n].k] && Vals(ts) == Vals(ts') + [ts[n].v];
      assert Keys(ts)[..n + 1] == Keys(ts) && Vals(ts)[..n + 1] == Vals(ts);
      forall p | 0 <= p < n
        ensures RowOutput(m, l, hs, ts, p).Some? && TokenQkv(m, l, p, hs[p]) == Some(ts[p])
      {
        RowOutputPrefix(m, l, hs, ts, n, p);
        assert TokenQkv(m, l, p, hs[..n][p]) == Some(ts'[p]);
      }
    }
  }

  /** A row that is refused anywhere refuses the sweep. */
  lemma SweepRefused(m: Model, l: Layer, hs: Mat, p: nat)
    requires ValidModel(m) && ValidLayer(m, l) && |hs| <= m.maxSeq && HiddenRows(m, hs) && p < |hs|
    requires TokenQkv(m, l, p, hs[p]).None?
    ensures LayerSweep(m, l, hs).None?
  {
    hide ValidModel;
    hide ValidLayer;
    hide TokenQkv;
    hide LayerSweep;
    if LayerSweep(m, l, hs).Some? {
      var ts := SweepGivesRows(m, l, hs);
    }
  }

  lemma SweepRefusedLate(m: Model, l: Layer, hs: Mat, ts: seq<Qkv>, p: nat)
    requires ValidModel(m) && ValidLayer(m, l) && |hs| <= m.maxSeq && HiddenRows(m, hs) && p < |hs|
    requires RowsProjected(m, l, hs, ts) && RowOutput(m, l, hs, ts, p).None?
    ensures LayerSweep(m, l, hs).None?
  {
    hide ValidModel;
    hide ValidLayer;
    hide TokenQkv;
    hide LayerSweep;
    if LayerSweep(m, l, hs).Some? {
      var ts' := SweepGivesRows(m, l, hs);
      forall i | 0 <= i < |hs| ensures ts'[i] == ts[i] { assert TokenQkv(m, l, i, hs[i]) == Some(ts[i]); }
      assert ts' == ts;
    }
  }
}
