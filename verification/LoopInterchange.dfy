/** Token by token through all layers, or layer by layer through all tokens:
    the two orders visit the same grid of cells. A cell (layer, position)
    needs the cell below it and the keys and values to its left. */
module LoopInterchange {
  import opened Arithmetic
  import opened ModernModel
  import opened SlowEngine

  datatype Sweep = Sweep(hidden: Mat, keys: Mat, values: Mat)

  predicate OneColumn(m: Model, s: Sweep)
  {
    && |s.hidden| == |s.keys| == |s.values| == 1
    && |s.hidden[0]| == m.dModel && |s.keys[0]| == |s.values[0]| == m.nKv * m.dHead
  }

  predicate HiddenRows(m: Model, hs: Mat)
  {
    forall p | 0 <= p < |hs| :: |hs[p]| == m.dModel
  }

  /** One cell: a hidden row meets the keys and values to its left. */
  function Cell(m: Model, l: Layer, pos: nat, h: Vec, keys: Mat, values: Mat): (r: Option<Sweep>)
    requires ValidModel(m) && ValidLayer(m, l) && pos < m.maxSeq && |h| == m.dModel
    requires |keys| == |values| && CacheRows(m, keys) && CacheRows(m, values)
    ensures r.Some? ==> OneColumn(m, r.value)
  {
    match TokenQkv(m, l, pos, h)
    case None => None
    case Some(t) =>
      match FinishLayer(m, l, h, Attend(m, t.q, keys + [t.k], values + [t.v], m.nHeads))
      case None => None
      case Some(out) => Some(Sweep([out], [t.k], [t.v]))
  }

  /** One layer over all positions of a sequence, left to right. */
  function LayerSweep(m: Model, l: Layer, hs: Mat): (r: Option<Sweep>)
    requires ValidModel(m) && ValidLayer(m, l) && |hs| <= m.maxSeq && HiddenRows(m, hs)
    ensures r.Some? ==> |r.value.hidden| == |r.value.keys| == |r.value.values| == |hs|
    ensures r.Some? ==> HiddenRows(m, r.value.hidden) && CacheRows(m, r.value.keys) && CacheRows(m, r.value.values)
  {
    if hs == [] then Some(Sweep([], [], []))
    else
      var n := |hs| - 1;
      match LayerSweep(m, l, hs[..n])
      case None => None
      case Some(s) =>
        match Cell(m, l, n, hs[n], s.keys, s.values)
        case None => None
        case Some(c) => Some(Sweep(s.hidden + c.hidden, s.keys + c.keys, s.values + c.values))
  }

  predicate InVocab(m: Model, tokens: seq<int>)
  {
    forall p | 0 <= p < |tokens| :: 0 <= tokens[p] < m.vocab
  }

  function EmbedAll(m: Model, tokens: seq<int>): (r: Option<Mat>)
    requires ValidModel(m) && InVocab(m, tokens)
    ensures r.Some? ==> |r.value| == |tokens| && HiddenRows(m, r.value)
  {
    if tokens == [] then Some([])
    else
      var n := |tokens| - 1;
      match (EmbedAll(m, tokens[..n]), EmbedToken(m, tokens[n]))
      case (Some(hs), Some(h)) => Some(hs + [h])
      case _ => None
  }

  /** The hidden rows of a sequence after its first `l` layers, layer-major. */
  function Grid(m: Model, tokens: seq<int>, l: nat): (r: Option<Mat>)
    requires ValidModel(m) && InVocab(m, tokens) && |tokens| <= m.maxSeq && l <= |m.layers|
    ensures r.Some? ==> |r.value| == |tokens| && HiddenRows(m, r.value)
    decreases l
  {
    if l == 0 then EmbedAll(m, tokens)
    else
      match Grid(m, tokens, l - 1)
      case None => None
      case Some(hs) =>
        var s := LayerSweep(m, m.layers[l - 1], hs);
        if s.None? then None else Some(s.value.hidden)
  }

  /** The sweep of layer `l`, when all layers up to it are defined. */
  function GridSweep(m: Model, tokens: seq<int>, l: nat): (r: Option<Sweep>)
    requires ValidModel(m) && InVocab(m, tokens) && |tokens| <= m.maxSeq && l < |m.layers|
    ensures r.Some? ==> |r.value.hidden| == |r.value.keys| == |r.value.values| == |tokens|
    ensures r.Some? ==> HiddenRows(m, r.value.hidden) && CacheRows(m, r.value.keys) && CacheRows(m, r.value.values)
  {
    match Grid(m, tokens, l)
    case None => None
    case Some(hs) => LayerSweep(m, m.layers[l], hs)
  }

  /** The column of one more token beside the grid of `tokens`. */
  function Climb(m: Model, tokens: seq<int>, t: int, l: nat): (r: Option<Vec>)
    requires ValidModel(m) && InVocab(m, tokens) && |tokens| < m.maxSeq && l <= |m.layers| && 0 <= t < m.vocab
    ensures r.Some? ==> |r.value| == m.dModel
    decreases l
  {
    if l == 0 then EmbedToken(m, t)
    else
      match (Climb(m, tokens, t, l - 1), GridSweep(m, tokens, l - 1))
      case (Some(h), Some(s)) =>
        var c := Cell(m, m.layers[l - 1], |tokens|, h, s.keys, s.values);
        if c.None? then None else Some(c.value.hidden[0])
      case _ => None
  }

  lemma SweepExtends(m: Model, l: Layer, hs: Mat, h: Vec)
    requires ValidModel(m) && ValidLayer(m, l) && |hs| < m.maxSeq && HiddenRows(m, hs) && |h| == m.dModel
    ensures var s, s' := LayerSweep(m, l, hs), LayerSweep(m, l, hs + [h]);
      if s.Some? && Cell(m, l, |hs|, h, s.value.keys, s.value.values).Some?
      then var c := Cell(m, l, |hs|, h, s.value.keys, s.value.values).value;
           s' == Some(Sweep(s.value.hidden + c.hidden, s.value.keys + c.keys, s.value.values + c.values))
      else s'.None?
  {
    hide ValidModel;
    hide ValidLayer;
    hide Cell;
    assert (hs + [h])[..|hs|] == hs;
  }

  /** A grid with one more column is the old grid beside the new column; it is
      refused when either is. */
  lemma {:induction false} GridExtends(m: Model, tokens: seq<int>, t: int, l: nat)
    requires ValidModel(m) && InVocab(m, tokens) && |tokens| < m.maxSeq && l <= |m.layers| && 0 <= t < m.vocab
    ensures var old', new', col := Grid(m, tokens, l), Grid(m, tokens + [t], l), Climb(m, tokens, t, l);
      if old'.Some? && col.Some? then new' == Some(old'.value + [col.value]) else new'.None?
  {
    hide ValidLayer;
    hide ValidScaled;
    hide LayerSweep;
    hide Cell;
    hide EmbedToken;
    if l == 0 {
      assert (tokens + [t])[..|tokens|] == tokens;
    } else {
      GridExtends(m, tokens, t, l - 1);
      var hs, h := Grid(m, tokens, l - 1), Climb(m, tokens, t, l - 1);
      if hs.Some? && h.Some? {
        SweepExtends(m, m.layers[l - 1], hs.value, h.value);
        var c := LayerSweep(m, m.layers[l - 1], hs.value);
        if c.Some? {
          var d := Cell(m, m.layers[l - 1], |tokens|, h.value, c.value.keys, c.value.values);
          if d.Some? { assert d.value.hidden == [d.value.hidden[0]]; }
        }
      }
    }
  }

  /** The cache of a running engine holds the keys and values of the grid. */
  ghost predicate CacheIsGrid(m: Model, c: Cache, tokens: seq<int>, from: nat)
    requires ValidModel(m) && InVocab(m, tokens) && |tokens| <= m.maxSeq
  {
    && ValidCache(m, c)
    && forall l | from <= l < |m.layers| ::
         GridSweep(m, tokens, l).Some?
         && c.keys[l] == GridSweep(m, tokens, l).value.keys
         && c.values[l] == GridSweep(m, tokens, l).value.values
  }

  lemma {:induction false} ClimbStaysRefused(m: Model, tokens: seq<int>, t: int, l: nat, top: nat)
    requires ValidModel(m) && InVocab(m, tokens) && |tokens| < m.maxSeq && 0 <= t < m.vocab
    requires l <= top <= |m.layers| && Climb(m, tokens, t, l).None?
    ensures Climb(m, tokens, t, top).None?
    decreases top
  {
    hide ValidModel;
    hide GridSweep;
    hide Cell;
    hide EmbedToken;
    if l < top { ClimbStaysRefused(m, tokens, t, l, top - 1); }
  }

  lemma {:induction false} GridStaysRefused(m: Model, tokens: seq<int>, l: nat, top: nat)
    requires ValidModel(m) && InVocab(m, tokens) && |tokens| <= m.maxSeq
    requires l <= top <= |m.layers| && Grid(m, tokens, l).None?
    ensures Grid(m, tokens, top).None?
    decreases top
  {
    hide ValidModel;
    hide LayerSweep;
    hide EmbedAll;
    if l < top { GridStaysRefused(m, tokens, l, top - 1); }
  }

  /** `s'` is the sweep `s` with the column `c` added, or refused with it. */
  predicate SweepGrows(s: Sweep, c: Option<Sweep>, s': Option<Sweep>)
  {
    match c
    case None => s' == None
    case Some(k) => s' == Some(Sweep(s.hidden + k.hidden, s.keys + k.keys, s.values + k.values))
  }

  /** What layer `l` makes of one more token beside the sweep of `tokens`. */
  ghost predicate SweepFollows(m: Model, longer: seq<int>, l: nat, h: Vec, s: Sweep)
    requires ValidModel(m) && InVocab(m, longer) && 0 < |longer| <= m.maxSeq && l < |m.layers| && |h| == m.dModel
    requires |s.keys| == |s.values| && CacheRows(m, s.keys) && CacheRows(m, s.values)
  {
    SweepGrows(s, Cell(m, m.layers[l], |longer| - 1, h, s.keys, s.values), GridSweep(m, longer, l))
  }

  lemma GridSweepExtends(m: Model, tokens: seq<int>, t: int, l: nat, h: Vec, s: Sweep)
    requires ValidModel(m) && InVocab(m, tokens) && |tokens| < m.maxSeq && l < |m.layers| && 0 <= t < m.vocab
    requires GridSweep(m, tokens, l) == Some(s) && Climb(m, tokens, t, l) == Some(h)
    ensures InVocab(m, tokens + [t]) && SweepFollows(m, tokens + [t], l, h, s)
  {
    hide ValidLayer;
    hide ValidScaled;
    hide LayerSweep;
    hide Cell;
    hide Climb;
    hide Grid;
    GridExtends(m, tokens, t, l);
    SweepExtends(m, m.layers[l], Grid(m, tokens, l).value, h);
  }

  /** What running layers `l` and up on token `t` must give: the top of the
      token's column, and a cache that holds the extended grid. */
  ghost predicate Climbed(m: Model, tokens: seq<int>, t: int, c: Cache, l: nat, out: Option<Vec>, c': Cache)
    requires ValidModel(m) && InVocab(m, tokens) && |tokens| < m.maxSeq && 0 <= t < m.vocab
    requires l <= |m.layers| && ValidCache(m, c) && ValidCache(m, c')
  {
    && out == Climb(m, tokens, t, |m.layers|)
    && (out.Some? ==>
          && CacheIsGrid(m, c', tokens + [t], l)
          && c'.keys[..l] == c.keys[..l] && c'.values[..l] == c.values[..l])
  }

  /** Running the layers on a new token climbs its column, and leaves behind
      the keys and values of the extended grid. */
  lemma {:induction false} RunLayersClimbs(m: Model, tokens: seq<int>, t: int, h: Vec, c: Cache, l: nat)
    requires ValidModel(m) && InVocab(m, tokens) && |tokens| < m.maxSeq && 0 <= t < m.vocab
    requires l <= |m.layers| && ValidCache(m, c) && CacheIsGrid(m, c, tokens, l)
    requires |h| == m.dModel && Climb(m, tokens, t, l) == Some(h)
    ensures var r := RunLayers(m, |tokens|, h, c, l); Climbed(m, tokens, t, c, l, r.0, r.1)
    decreases |m.layers| - l
  {
    hide ValidLayer;
    hide ValidScaled;
    hide Climb;
    hide GridSweep;
    hide TokenQkv;
    hide FinishLayer;
    hide Attend;
    if l < |m.layers| {
      CellIsLayerStep(m, tokens, t, h, c, l);
      var layer := m.layers[l];
      var s := GridSweep(m, tokens, l).value;
      var cell := Cell(m, layer, |tokens|, h, s.keys, s.values);
      if cell.None? {
        ClimbStaysRefused(m, tokens, t, l + 1, |m.layers|);
      } else {
        var k, v := cell.value.keys[0], cell.value.values[0];
        var c1 := Append(m, c, l, k, v);
        RunLayersClimbs(m, tokens, t, cell.value.hidden[0], c1, l + 1);
        GridSweepExtends(m, tokens, t, l, h, s);
        var (out, c') := RunLayers(m, |tokens|, cell.value.hidden[0], c1, l + 1);
        if out.Some? {
          assert c'.keys[l] == c'.keys[..l + 1][l] == c1.keys[l] == s.keys + [k];
          assert c'.values[l] == c'.values[..l + 1][l] == c1.values[l] == s.values + [v];
          assert cell.value.keys == [k] && cell.value.values == [v];
          assert c'.keys[..l] == c'.keys[..l + 1][..l] && c'.values[..l] == c'.values[..l + 1][..l];
        }
      }
    }
  }

  /** One layer of the engine is one cell of the grid. */
  lemma CellIsLayerStep(m: Model, tokens: seq<int>, t: int, h: Vec, c: Cache, l: nat)
    requires ValidModel(m) && InVocab(m, tokens) && |tokens| < m.maxSeq && 0 <= t < m.vocab
    requires l < |m.layers| && ValidCache(m, c) && CacheIsGrid(m, c, tokens, l)
    requires |h| == m.dModel && Climb(m, tokens, t, l) == Some(h)
    ensures StepsTo(m, |tokens|, h, c, l, Climb(m, tokens, t, l + 1),
                    Cell(m, m.layers[l], |tokens|, h, c.keys[l], c.values[l]))
    ensures Some(Sweep(GridSweep(m, tokens, l).value.hidden, c.keys[l], c.values[l])) == GridSweep(m, tokens, l)
  {
    hide ValidLayer;
    hide ValidScaled;
    hide GridSweep;
    hide TokenQkv;
    hide FinishLayer;
    hide Attend;
  }

  ghost predicate StepsTo(m: Model, pos: nat, h: Vec, c: Cache, l: nat, next: Option<Vec>, cell: Option<Sweep>)
    requires ValidModel(m) && ValidCache(m, c) && pos < m.maxSeq && l < |m.layers| && |h| == m.dModel
    requires cell.Some? ==> OneColumn(m, cell.value)
  {
    match cell
    case None => next == None && RunLayers(m, pos, h, c, l).0 == None
    case Some(s) =>
      && next == Some(s.hidden[0])
      && RunLayers(m, pos, h, c, l)
         == RunLayers(m, pos, s.hidden[0], Append(m, c, l, s.keys[0], s.values[0]), l + 1)
  }

  function HeadAll(m: Model, hs: Mat): (r: Option<Mat>)
    requires ValidModel(m) && HiddenRows(m, hs)
    ensures r.Some? ==> |r.value| == |hs|
  {
    if hs == [] then Some([])
    else
      var n := |hs| - 1;
      match (HeadAll(m, hs[..n]), LmHead(m, hs[n]))
      case (Some(ys), Some(y)) => Some(ys + [y])
      case _ => None
  }

  /** The logits of a whole sequence computed layer by layer; None is a
      refusal anywhere in the grid or in the head. */
  function LayerMajor(m: Model, tokens: seq<int>): (r: Option<Mat>)
    requires ValidModel(m)
    ensures r.Some? ==> |r.value| == |tokens|
  {
    if !InVocab(m, tokens) || |tokens| > m.maxSeq then None
    else
      match Grid(m, tokens, |m.layers|)
      case None => None
      case Some(hs) => HeadAll(m, hs)
  }

  lemma LayerMajorExtends(m: Model, tokens: seq<int>, t: int)
    requires ValidModel(m) && InVocab(m, tokens) && |tokens| < m.maxSeq && 0 <= t < m.vocab
    ensures var old', new', col := LayerMajor(m, tokens), LayerMajor(m, tokens + [t]), Climb(m, tokens, t, |m.layers|);
      if old'.Some? && col.Some? && LmHead(m, col.value).Some?
      then new' == Some(old'.value + [LmHead(m, col.value).value])
      else new'.None?
  {
    hide ValidLayer;
    hide ValidScaled;
    hide Grid;
    hide Climb;
    hide LmHead;
    GridExtends(m, tokens, t, |m.layers|);
    var hs, h := Grid(m, tokens, |m.layers|), Climb(m, tokens, t, |m.layers|);
    if hs.Some? && h.Some? {
      assert (hs.value + [h.value])[..|tokens|] == hs.value;
    }
  }

  /** A longer sequence is refused when a prefix is. */
  lemma LayerMajorStaysRefused(m: Model, tokens: seq<int>, t: int)
    requires ValidModel(m) && LayerMajor(m, tokens).None?
    ensures LayerMajor(m, tokens + [t]).None?
  {
    hide LmHead;
    hide Grid;
    hide HeadAll;
    hide ValidLayer;
    hide ValidScaled;
    if InVocab(m, tokens + [t]) && |tokens + [t]| <= m.maxSeq {
      assert forall p | 0 <= p < |tokens| :: tokens[p] == (tokens + [t])[p];
      assert t == (tokens + [t])[|tokens|];
      LayerMajorExtends(m, tokens, t);
    }
  }

  ghost predicate RunIsGrid(m: Model, tokens: seq<int>, run: Option<Run>)
    requires ValidModel(m)
  {
    match run
    case None => LayerMajor(m, tokens) == None
    case Some(r) =>
      && LayerMajor(m, tokens) == Some(r.logits)
      && InVocab(m, tokens) && |tokens| <= m.maxSeq
      && CacheIsGrid(m, r.cache, tokens, 0)
  }

  /** For every sequence of tokens the engine with its growing cache gives the
      layer-major logits, refuses exactly when the layer-major computation
      does, and is left with the keys and values of the grid. */
  lemma {:induction false} TokenMajorIsLayerMajor(m: Model, tokens: seq<int>)
    requires ValidModel(m)
    ensures RunIsGrid(m, tokens, SlowRun(m, tokens))
  {
    hide ValidLayer;
    hide ValidScaled;
    hide Forward;
    if tokens == [] {
      EmptyGrid(m, |m.layers|);
    } else {
      var n := |tokens| - 1;
      var ts, t := tokens[..n], tokens[n];
      assert tokens == ts + [t];
      TokenMajorIsLayerMajor(m, ts);
      match SlowRun(m, ts)
      case None =>
        LayerMajorStaysRefused(m, ts, t);
      case Some(run) =>
        ForwardExtends(m, ts, t, run);
    }
  }

  lemma {:induction false} EmptyGrid(m: Model, l: nat)
    requires ValidModel(m) && l <= |m.layers|
    ensures Grid(m, [], l) == Some([])
    ensures LayerMajor(m, []) == Some([]) || l < |m.layers|
    ensures forall i | 0 <= i < l :: GridSweep(m, [], i) == Some(Sweep([], [], []))
  {
    hide ValidLayer;
    hide ValidScaled;
    if l > 0 { EmptyGrid(m, l - 1); }
  }

  lemma ForwardExtends(m: Model, tokens: seq<int>, t: int, run: Run)
    requires ValidModel(m) && ValidCache(m, run.cache) && RunIsGrid(m, tokens, Some(run))
    ensures var f := Forward(m, run.cache, t);
      RunIsGrid(m, tokens + [t], if f.0.None? then None else Some(Run(run.logits + [f.0.value], f.1)))
  {
    hide ValidLayer;
    hide ValidScaled;
    hide LmHead;
    hide LayerMajor;
    hide RunLayers;
    hide GridSweep;
    hide EmbedToken;
    hide Grid;
    hide Climb;
    hide InVocab;
    CachePosition(m, tokens, run.cache);
    if 0 <= t < m.vocab && |tokens| < m.maxSeq {
      InVocabExtends(m, tokens, t);
      LayerMajorExtends(m, tokens, t);
      ClimbStart(m, tokens, t);
      if EmbedToken(m, t).Some? {
        RunLayersClimbs(m, tokens, t, EmbedToken(m, t).value, run.cache, 0);
      } else {
        ClimbStaysRefused(m, tokens, t, 0, |m.layers|);
      }
    } else {
      OutsideRefused(m, tokens, t);
    }
  }

  lemma InVocabExtends(m: Model, tokens: seq<int>, t: int)
    requires InVocab(m, tokens) && 0 <= t < m.vocab
    ensures InVocab(m, tokens + [t])
  {
  }

  lemma CachePosition(m: Model, tokens: seq<int>, c: Cache)
    requires ValidModel(m) && InVocab(m, tokens) && |tokens| <= m.maxSeq && CacheIsGrid(m, c, tokens, 0)
    ensures Position(c) == |tokens|
  {
    hide ValidLayer;
    hide ValidScaled;
    hide GridSweep;
    assert GridSweep(m, tokens, 0).Some?;
  }

  lemma ClimbStart(m: Model, tokens: seq<int>, t: int)
    requires ValidModel(m) && InVocab(m, tokens) && |tokens| < m.maxSeq && 0 <= t < m.vocab
    ensures Climb(m, tokens, t, 0) == EmbedToken(m, t)
  {
  }

  lemma OutsideRefused(m: Model, tokens: seq<int>, t: int)
    requires ValidModel(m) && !(0 <= t < m.vocab && |tokens| < m.maxSeq)
    ensures LayerMajor(m, tokens + [t]).None?
  {
    assert (tokens + [t])[|tokens|] == t;
  }
}
