/** Teacher forcing: every position of every sequence through the fast engine,
    proved equal to feeding each sequence token by token to the slow one. */
module TeacherForcing {
  import opened Arithmetic
  import opened Int64Lanes
  import opened Float64
  import opened ModernOps
  import opened ModernModel
  import opened SlowEngine
  import opened LoopInterchange
  import opened FastOps
  import opened Stacking
  import Fast = FastEngine

  // ---- embedding -------------------------------------------------------------

  lemma EmbedLaneFits(q: int, mu: int, k: nat)
    requires -127 <= q <= 127 && 0 <= mu < TWO31 && 16 <= k
    ensures Abs(q * mu) <= 127 * TWO31 && Abs(Shr(q * mu, k - 16)) <= 127 * TWO31
  {
    MulBound(q, mu, 127, TWO31);
    var d := Pow2(k - 16);
    MulMono(1, d, 127 * TWO31);
    MulMono(1, d, 127 * TWO31 + 1);
    DivRange(q * mu, -(127 * TWO31), 127 * TWO31 + 1, d);
  }

  function LaneShift(q: int, mu: int, k: nat): (r: int)
    requires -127 <= q <= 127 && 0 <= mu < TWO31 && 16 <= k
    ensures r == Shr(q * mu, k - 16) && -LIM62 <= r <= LIM62
  {
    hide Shr;
    EmbedLaneFits(q, mu, k);
    Shr(Fit(q * mu), k - 16)
  }

  /** The unchecked embedding row of the fast path: it never needs the check. */
  function LaneEmbed(row: Vec, mu: int, k: nat): (r: Vec)
    requires Bounded(row, 127) && 0 <= mu < TWO31 && 16 <= k
    ensures EmbedInt(row, mu, k) == Some(r)
  {
    hide Shr;
    var r := seq(|row|, j requires 0 <= j < |row| => LaneShift(row[j], mu, k));
    assert r == seq(|row|, j requires 0 <= j < |row| => Shr(row[j] * mu, k - 16));
    r
  }

  lemma {:induction false} EmbedAllRows(m: Model, tokens: seq<int>, hs: Mat)
    requires ValidModel(m) && InVocab(m, tokens) && |hs| == |tokens|
    requires forall p | 0 <= p < |tokens| :: EmbedToken(m, tokens[p]) == Some(hs[p])
    ensures EmbedAll(m, tokens) == Some(hs)
  {
    hide ValidModel;
    hide EmbedToken;
    if tokens != [] {
      var n := |tokens| - 1;
      EmbedAllRows(m, tokens[..n], hs[..n]);
      assert hs == hs[..n] + [hs[n]];
    }
  }

  // ---- head ------------------------------------------------------------------

  lemma {:induction false} HeadAllRows(m: Model, hs: Mat, ys: Mat)
    requires ValidModel(m) && HiddenRows(m, hs) && |ys| == |hs|
    requires forall p | 0 <= p < |hs| :: LmHead(m, hs[p]) == Some(ys[p])
    ensures HeadAll(m, hs) == Some(ys)
  {
    hide ValidModel;
    hide LmHead;
    if hs != [] {
      var n := |hs| - 1;
      HeadAllRows(m, hs[..n], ys[..n]);
      assert ys == ys[..n] + [ys[n]];
    }
  }

  lemma {:induction false} HeadAllRefused(m: Model, hs: Mat, p: nat)
    requires ValidModel(m) && HiddenRows(m, hs) && p < |hs| && LmHead(m, hs[p]).None?
    ensures HeadAll(m, hs).None?
  {
    hide ValidModel;
    hide LmHead;
    if p < |hs| - 1 { HeadAllRefused(m, hs[..|hs| - 1], p); }
  }

  /** Rows `lo` up to `hi` of a scaled matrix. */
  function SliceRows(w: Scaled, lo: nat, hi: nat): Scaled
    requires lo <= hi <= |w.q| == |w.mu| == |w.k|
  {
    Scaled(w.q[lo..hi], w.mu[lo..hi], w.k[lo..hi])
  }

  lemma ProjectSlice(x: Vec, w: Scaled, lo: nat, hi: nat)
    requires lo <= hi <= |w.q| == |w.mu| == |w.k|
    ensures ProjectValues(x, w)[..hi] == ProjectValues(x, w)[..lo] + ProjectValues(x, SliceRows(w, lo, hi))
  {
    hide Dot;
    hide Shr;
  }

  /** The logits of a group of rows, one chunk of the vocabulary at a time. */
  method HeadGroup(f: Fpu, ng: Mat, w: Scaled, width: nat, vocab: nat, chunk: nat) returns (r: Option<Mat>)
    requires ValidFpu(f) && ValidScaled(w, vocab, width) && width < DIM_LIMIT && chunk >= 1
    requires Wide(ng, width) && MatBounded(ng, LIM62) && forall i | 0 <= i < |ng| :: ProjectInputOk(ng[i])
    ensures r.None? ==> exists i :: 0 <= i < |ng| && ProjectInt(ng[i], w).None?
    ensures r.Some? ==> |r.value| == |ng| && forall i | 0 <= i < |ng| :: ProjectInt(ng[i], w) == Some(r.value[i])
  {
    hide ValidFpu;
    hide ProjectValues;
    hide ProjectInputOk;
    hide EpilogueRow;
    var logits: Mat := seq(|ng|, _ => []);
    var r0 := 0;
    while r0 < vocab
      invariant 0 <= r0 <= vocab && |logits| == |ng|
      invariant forall i | 0 <= i < |ng| :: logits[i] == ProjectValues(ng[i], w)[..r0] && Bounded(logits[i], LIM62)
    {
      var r1 := if r0 + chunk < vocab then r0 + chunk else vocab;
      var part := SliceRows(w, r0, r1);
      var acc := Accumulate(f, ng, part.q, width);
      var y, slow := Epilogue(acc, part);
      forall i | 0 <= i < |ng|
        ensures EpilogueRow(acc[i], part) == ProjectValues(ng[i], part)
        ensures ProjectValues(ng[i], w)[..r1] == ProjectValues(ng[i], w)[..r0] + ProjectValues(ng[i], part)
      {
        EpilogueIsProjection(ng[i], acc[i], part);
        ProjectSlice(ng[i], w, r0, r1);
      }
      if y.None? {
        ghost var i :| 0 <= i < |acc| && !Bounded(EpilogueRow(acc[i], part), LIM62);
        PrefixUnbounded(ProjectValues(ng[i], w), ProjectValues(ng[i], w)[..r0], ProjectValues(ng[i], part), r1);
        assert ProjectInt(ng[i], w).None?;
        return None;
      }
      logits := seq(|ng|, i requires 0 <= i < |ng| => logits[i] + y.value[i]);
      r0 := r1;
    }
    forall i | 0 <= i < |ng|
      ensures ProjectInt(ng[i], w) == Some(logits[i])
    {
      assert logits[i] == ProjectValues(ng[i], w);
    }
    r := Some(logits);
  }

  lemma PrefixUnbounded(v: Vec, a: Vec, b: Vec, n: nat)
    requires n <= |v| && v[..n] == a + b && !Bounded(b, LIM62)
    ensures !Bounded(v, LIM62)
  {
    var i :| 0 <= i < |b| && !(-LIM62 <= b[i] <= LIM62);
    assert b[i] == (a + b)[|a| + i] == v[..n][|a| + i] == v[|a| + i];
  }

  /** Groups of rows, so that the logits of one group fit in memory. */
  method HeadStacked(f: Fpu, n: Mat, w: Scaled, width: nat, vocab: nat) returns (r: Option<Mat>)
    requires ValidFpu(f) && ValidScaled(w, vocab, width) && 0 < width < DIM_LIMIT && vocab > 0
    requires Wide(n, width) && MatBounded(n, LIM62)
    ensures r.None? ==> exists i :: 0 <= i < |n| && ProjectInt(n[i], w).None?
    ensures r.Some? ==> |r.value| == |n| && forall i | 0 <= i < |n| :: ProjectInt(n[i], w) == Some(r.value[i])
  {
    hide ValidFpu;
    hide ProjectInt;
    var ok := CheckProjectionInput(f, n);
    if !ok {
      ghost var i :| 0 <= i < |n| && !ProjectInputOk(n[i]);
      InputRefused(n[i], w);
      return None;
    }
    var group := Max(1, Min(|n|, 0x200_0000 / vocab));
    var chunk := Max(1, 0x100_0000 / width);
    var out: Mat := [];
    var g0 := 0;
    while g0 < |n|
      invariant 0 <= g0 <= |n| && |out| == g0
      invariant forall i | 0 <= i < g0 :: ProjectInt(n[i], w) == Some(out[i])
    {
      var g1 := if g0 + group < |n| then g0 + group else |n|;
      var ng := n[g0..g1];
      var logits := HeadGroup(f, ng, w, width, vocab, chunk);
      if logits.None? {
        ghost var i :| 0 <= i < |ng| && ProjectInt(ng[i], w).None?;
        assert n[g0 + i] == ng[i];
        return None;
      }
      forall i | 0 <= i < |ng| ensures ProjectInt(n[g0 + i], w) == Some(logits.value[i]) { assert n[g0 + i] == ng[i]; }
      out := out + logits.value;
      g0 := g1;
    }
    r := Some(out);
  }

  lemma InputRefused(x: Vec, w: Scaled)
    requires |w.q| == |w.mu| == |w.k| && !ProjectInputOk(x)
    ensures ProjectInt(x, w).None?
  {
  }

  // ---- the engine --------------------------------------------------------------

  /** One call of the logits callback. */
  datatype Emit = Emit(sequence: nat, position: nat, logits: Vec)

  function Lengths(sequences: seq<seq<int>>): (r: seq<nat>)
    ensures |r| == |sequences|
  {
    seq(|sequences|, s requires 0 <= s < |sequences| => |sequences[s]|)
  }

  predicate Admissible(m: Model, sequences: seq<seq<int>>)
  {
    && sequences != []
    && forall s | 0 <= s < |sequences| ::
         0 < |sequences[s]| <= m.maxSeq && InVocab(m, sequences[s])
  }

  /** Tokens, positions and owners of all rows. */
  datatype Rows = Rows(tokens: seq<int>, positions: seq<nat>, owners: seq<nat>)

  ghost predicate RowsMatch(rows: Rows, sequences: seq<seq<int>>, n: nat)
    requires n <= |sequences|
  {
    var lengths := Lengths(sequences);
    && |rows.tokens| == |rows.positions| == |rows.owners| == Start(lengths, n)
    && forall s, p | 0 <= s < n && 0 <= p < lengths[s] ::
         var r := RowOf(lengths, s, p);
         r < |rows.tokens| && rows.tokens[r] == sequences[s][p] && rows.positions[r] == p && rows.owners[r] == s
  }

  method StackRows(sequences: seq<seq<int>>) returns (rows: Rows)
    ensures RowsMatch(rows, sequences, |sequences|)
  {
    var tokens: seq<int>, positions: seq<nat>, owners: seq<nat> := [], [], [];
    ghost var lengths := Lengths(sequences);
    for s := 0 to |sequences|
      invariant RowsMatch(Rows(tokens, positions, owners), sequences, s)
    {
      var n := |sequences[s]|;
      ghost var before := |tokens|;
      tokens := tokens + sequences[s];
      positions := positions + seq(n, p => p);
      owners := owners + seq(n, _ => s);
      forall t, p | 0 <= t < s + 1 && 0 <= p < lengths[t]
        ensures var r := RowOf(lengths, t, p);
          r < |tokens| && tokens[r] == sequences[t][p] && positions[r] == p && owners[r] == t
      {
        if t == s { assert RowOf(lengths, t, p) == before + p; }
      }
    }
    rows := Rows(tokens, positions, owners);
  }

  /** The stacked rows `h` are the grids of all sequences after `l` layers. */
  ghost predicate StackIsGrid(m: Model, h: Mat, sequences: seq<seq<int>>, l: nat)
    requires ValidModel(m) && Admissible(m, sequences) && l <= |m.layers|
  {
    var lengths := Lengths(sequences);
    && |h| == Start(lengths, |lengths|)
    && forall s | 0 <= s < |sequences| :: Grid(m, sequences[s], l) == Some(Block(h, lengths, s))
  }

  /** All sequences stand before layer `l`. */
  ghost predicate Reached(m: Model, h: Mat, rows: Rows, sequences: seq<seq<int>>, l: nat)
  {
    && ValidModel(m) && Admissible(m, sequences) && l <= |m.layers|
    && Fast.ValidBatch(m, h, rows.positions, Lengths(sequences)) && StackIsGrid(m, h, sequences, l)
  }

  method EmbedStacked(m: Model, rows: Rows, sequences: seq<seq<int>>) returns (h: Mat)
    requires ValidModel(m) && Admissible(m, sequences) && RowsMatch(rows, sequences, |sequences|)
    ensures Reached(m, h, rows, sequences, 0)
  {
    hide ValidModel;
    hide EmbedToken;
    hide StackIsGrid;
    var lengths := Lengths(sequences);
    forall i | 0 <= i < |rows.tokens|
      ensures 0 <= rows.tokens[i] < m.vocab
    {
      var s, p := OwnerOf(lengths, |lengths|, i);
    }
    h := seq(|rows.tokens|, i requires 0 <= i < |rows.tokens| => LaneEmbedToken(m, rows.tokens[i]));
    EmbedIsGrid(m, rows, h, sequences);
  }

  lemma EmbedIsGrid(m: Model, rows: Rows, h: Mat, sequences: seq<seq<int>>)
    requires ValidModel(m) && Admissible(m, sequences) && RowsMatch(rows, sequences, |sequences|)
    requires |h| == |rows.tokens| && forall i | 0 <= i < |h| :: 0 <= rows.tokens[i] < m.vocab
    requires forall i | 0 <= i < |h| :: EmbedToken(m, rows.tokens[i]) == Some(h[i])
    ensures StackIsGrid(m, h, sequences, 0)
  {
    hide ValidModel;
    hide EmbedToken;
    hide Grid;
    var lengths := Lengths(sequences);
    forall s | 0 <= s < |sequences|
      ensures Grid(m, sequences[s], 0) == Some(Block(h, lengths, s))
    {
      EmbedAllRows(m, sequences[s], Block(h, lengths, s));
      GridStart(m, sequences[s]);
    }
  }

  function LaneEmbedToken(m: Model, token: int): (r: Vec)
    requires ValidModel(m) && 0 <= token < m.vocab
    ensures EmbedToken(m, token) == Some(r) && |r| == m.dModel && Bounded(r, LIM62)
  {
    hide LaneEmbed;
    hide EmbedInt;
    LaneEmbed(m.embed.q[token], m.embed.mu[token], m.embed.k[token])
  }

  lemma GridStart(m: Model, tokens: seq<int>)
    requires ValidModel(m) && InVocab(m, tokens) && |tokens| <= m.maxSeq
    ensures Grid(m, tokens, 0) == EmbedAll(m, tokens)
  {
  }

  /** A refused layer refuses a sequence. */
  lemma GridRefused(m: Model, tokens: seq<int>, l: nat, hs: Mat)
    requires ValidModel(m) && InVocab(m, tokens) && |tokens| <= m.maxSeq && l < |m.layers|
    requires Grid(m, tokens, l) == Some(hs) && LayerSweep(m, m.layers[l], hs).None?
    ensures LayerMajor(m, tokens).None?
  {
    hide LayerSweep;
    hide ValidLayer;
    hide ValidScaled;
    GridStaysRefused(m, tokens, l + 1, |m.layers|);
  }

  lemma GridNext(m: Model, tokens: seq<int>, l: nat, hs: Mat)
    requires ValidModel(m) && InVocab(m, tokens) && |tokens| <= m.maxSeq && l < |m.layers|
    requires Grid(m, tokens, l) == Some(hs) && LayerSweep(m, m.layers[l], hs).Some?
    ensures Grid(m, tokens, l + 1) == Some(LayerSweep(m, m.layers[l], hs).value.hidden)
  {
    hide LayerSweep;
    hide ValidLayer;
    hide ValidScaled;
  }

  lemma HeadOfRow(m: Model, h: Vec, n: Option<Vec>)
    requires ValidModel(m) && |h| == m.dModel && h != [] && RmsNormInt(h, m.finalNorm, m.eps) == n
    ensures LmHead(m, h) == if n.None? then None else ProjectInt(n.value, m.embed)
  {
    hide RmsNormInt;
    hide ProjectInt;
  }

  lemma HeadDimensions(m: Model)
    requires ValidModel(m)
    ensures ValidScaled(m.embed, m.vocab, m.dModel) && ValidGains(m.finalNorm, m.dModel)
    ensures 0 < m.dModel < DIM_LIMIT && m.vocab > 0 && m.eps >= 1
  {
    Fast.DimensionsPositive(m);
  }

  /** Blocks that are the sweeps of the blocks of `h` are the next grid. */
  lemma StackAdvances(m: Model, h: Mat, h': Mat, sequences: seq<seq<int>>, l: nat)
    requires ValidModel(m) && Admissible(m, sequences) && l < |m.layers| && StackIsGrid(m, h, sequences, l)
    requires ValidLayer(m, m.layers[l]) && |h'| == |h|
    requires forall s | 0 <= s < |sequences| ::
      LayerSweep(m, m.layers[l], Block(h, Lengths(sequences), s)).Some?
      && LayerSweep(m, m.layers[l], Block(h, Lengths(sequences), s)).value.hidden == Block(h', Lengths(sequences), s)
    ensures StackIsGrid(m, h', sequences, l + 1)
  {
    hide ValidModel;
    hide ValidLayer;
    hide LayerSweep;
    hide Grid;
    forall s | 0 <= s < |sequences|
      ensures Grid(m, sequences[s], l + 1) == Some(Block(h', Lengths(sequences), s))
    {
      GridNext(m, sequences[s], l, Block(h, Lengths(sequences), s));
    }
  }

  lemma LayersValid(m: Model)
    requires ValidModel(m)
    ensures forall l | 0 <= l < |m.layers| :: ValidLayer(m, m.layers[l])
  {
  }

  /** All layers on all rows. */
  method LayersStacked(engine: Fast.Engine, h0: Mat, rows: Rows, sequences: seq<seq<int>>) returns (r: Option<Mat>)
    requires engine.Valid() && Reached(engine.m, h0, rows, sequences, 0)
    modifies engine
    ensures r.None? ==> exists s :: 0 <= s < |sequences| && LayerMajor(engine.m, sequences[s]).None?
    ensures r.Some? ==> Reached(engine.m, r.value, rows, sequences, |engine.m.layers|)
  {
    hide *;
    var h := h0;
    for l := 0 to |engine.m.layers|
      invariant Reached(engine.m, h, rows, sequences, l)
    {
      var next := AdvanceLayer(engine, l, h, rows, sequences);
      if next.None? {
        return None;
      }
      h := next.value;
    }
    r := Some(h);
  }

  method AdvanceLayer(engine: Fast.Engine, l: nat, h: Mat, rows: Rows, sequences: seq<seq<int>>)
    returns (r: Option<Mat>)
    requires engine.Valid() && l < |engine.m.layers| && Reached(engine.m, h, rows, sequences, l)
    modifies engine
    ensures r.None? ==> exists s :: 0 <= s < |sequences| && LayerMajor(engine.m, sequences[s]).None?
    ensures r.Some? ==> Reached(engine.m, r.value, rows, sequences, l + 1)
  {
    LayersValid(engine.m);
    hide ValidModel;
    hide ValidLayer;
    hide ValidFpu;
    hide LayerSweep;
    hide LayerMajor;
    hide Grid;
    hide Fast.ValidBatch;
    var m := engine.m;
    r := engine.LayerStacked(m.layers[l], h, rows.positions, Lengths(sequences));
    if r.None? {
      ghost var s :| 0 <= s < |sequences| && LayerSweep(m, m.layers[l], Block(h, Lengths(sequences), s)).None?;
      GridRefused(m, sequences[s], l, Block(h, Lengths(sequences), s));
    } else {
      BatchShape(m, r.value, rows.positions, Lengths(sequences));
      StackAdvances(m, h, r.value, sequences, l);
    }
  }

  /** Final norm and head on all rows. */
  method HeadRows(engine: Fast.Engine, h: Mat, sequences: seq<seq<int>>) returns (r: Option<Mat>)
    requires engine.Valid() && Admissible(engine.m, sequences)
    requires |h| == Start(Lengths(sequences), |sequences|) && Wide(h, engine.m.dModel) && MatBounded(h, LIM62)
    requires StackIsGrid(engine.m, h, sequences, |engine.m.layers|)
    modifies engine
    ensures r.None? ==> exists s :: 0 <= s < |sequences| && LayerMajor(engine.m, sequences[s]).None?
    ensures r.Some? ==> |r.value| == |h| && forall s | 0 <= s < |sequences| ::
      LayerMajor(engine.m, sequences[s]) == Some(Block(r.value, Lengths(sequences), s))
  {
    HeadDimensions(engine.m);
    hide ValidModel;
    hide ValidFpu;
    hide RmsNormInt;
    hide ProjectInt;
    hide LmHead;
    hide StackIsGrid;
    hide LayerMajor;
    var m := engine.m;
    var n := engine.NormRows(h, m.finalNorm);
    if n.None? {
      ghost var i :| 0 <= i < |h| && h[i] != [] && RmsNormInt(h[i], m.finalNorm, m.eps).None?;
      HeadOfRow(m, h[i], None);
      HeadRefusedAt(m, h, sequences, i);
      return None;
    }
    r := HeadStacked(engine.fpu, n.value, m.embed, m.dModel, m.vocab);
    forall i | 0 <= i < |h|
      ensures LmHead(m, h[i]) == ProjectInt(n.value[i], m.embed)
    {
      HeadOfRow(m, h[i], Some(n.value[i]));
    }
    if r.None? {
      ghost var i :| 0 <= i < |h| && ProjectInt(n.value[i], m.embed).None?;
      HeadRefusedAt(m, h, sequences, i);
      return None;
    }
    HeadDone(m, h, r.value, sequences);
  }

  lemma HeadRefusedAt(m: Model, h: Mat, sequences: seq<seq<int>>, i: nat)
    requires ValidModel(m) && Admissible(m, sequences) && Wide(h, m.dModel) && i < |h|
    requires StackIsGrid(m, h, sequences, |m.layers|) && LmHead(m, h[i]).None?
    ensures exists s :: 0 <= s < |sequences| && LayerMajor(m, sequences[s]).None?
  {
    hide ValidModel;
    hide LmHead;
    hide Grid;
    var lengths := Lengths(sequences);
    var s, p := OwnerOf(lengths, |lengths|, i);
    HeadAllRefused(m, Block(h, lengths, s), p);
    assert LayerMajor(m, sequences[s]).None?;
  }

  lemma HeadDone(m: Model, h: Mat, ys: Mat, sequences: seq<seq<int>>)
    requires ValidModel(m) && Admissible(m, sequences) && Wide(h, m.dModel) && |ys| == |h|
    requires StackIsGrid(m, h, sequences, |m.layers|) && forall i | 0 <= i < |h| :: LmHead(m, h[i]) == Some(ys[i])
    ensures forall s | 0 <= s < |sequences| ::
      LayerMajor(m, sequences[s]) == Some(Block(ys, Lengths(sequences), s))
  {
    hide ValidModel;
    hide LmHead;
    hide Grid;
    var lengths := Lengths(sequences);
    forall s | 0 <= s < |sequences|
      ensures LayerMajor(m, sequences[s]) == Some(Block(ys, lengths, s))
    {
      HeadAllRows(m, Block(h, lengths, s), Block(ys, lengths, s));
    }
  }

  method ForceAdmissible(engine: Fast.Engine, sequences: seq<seq<int>>) returns (r: Option<seq<Emit>>)
    requires engine.Valid() && Admissible(engine.m, sequences)
    modifies engine
    ensures r.None? ==> exists s :: 0 <= s < |sequences| && LayerMajor(engine.m, sequences[s]).None?
    ensures r.Some? ==> |r.value| == Start(Lengths(sequences), |sequences|)
    ensures r.Some? ==> forall s | 0 <= s < |sequences| :: LayerMajor(engine.m, sequences[s]).Some?
    ensures r.Some? ==> forall s, p | 0 <= s < |sequences| && 0 <= p < |sequences[s]| ::
      r.value[RowOf(Lengths(sequences), s, p)] == Emit(s, p, LayerMajor(engine.m, sequences[s]).value[p])
  {
    hide ValidModel;
    hide ValidFpu;
    hide LayerMajor;
    hide Reached;
    hide StackIsGrid;
    var rows := StackRows(sequences);
    var h0 := EmbedStacked(engine.m, rows, sequences);
    var h := LayersStacked(engine, h0, rows, sequences);
    if h.None? {
      return None;
    }
    ReachedShape(engine.m, h.value, rows, sequences, |engine.m.layers|);
    var logits := HeadRows(engine, h.value, sequences);
    if logits.None? {
      return None;
    }
    var emits := seq(|logits.value|, i requires 0 <= i < |logits.value| =>
      Emit(rows.owners[i], rows.positions[i], logits.value[i]));
    forall s, p | 0 <= s < |sequences| && 0 <= p < |sequences[s]|
      ensures emits[RowOf(Lengths(sequences), s, p)] == Emit(s, p, LayerMajor(engine.m, sequences[s]).value[p])
    {
      assert LayerMajor(engine.m, sequences[s]).value[p] == Block(logits.value, Lengths(sequences), s)[p];
    }
    r := Some(emits);
  }

  lemma BatchShape(m: Model, h: Mat, positions: seq<nat>, lengths: seq<nat>)
    requires Fast.ValidBatch(m, h, positions, lengths)
    ensures |h| == Start(lengths, |lengths|) && Wide(h, m.dModel) && MatBounded(h, LIM62)
  {
  }

  lemma ReachedShape(m: Model, h: Mat, rows: Rows, sequences: seq<seq<int>>, l: nat)
    requires Reached(m, h, rows, sequences, l)
    ensures Admissible(m, sequences) && |h| == Start(Lengths(sequences), |sequences|)
    ensures Wide(h, m.dModel) && MatBounded(h, LIM62)
    ensures ValidModel(m) && l <= |m.layers| && StackIsGrid(m, h, sequences, l)
  {
  }

  /** Sequences the fast engine turns away at once are refused one by one. */
  lemma InadmissibleRefused(m: Model, sequences: seq<seq<int>>)
    requires ValidModel(m) && !Admissible(m, sequences) && sequences != []
    ensures exists s :: 0 <= s < |sequences| && (sequences[s] == [] || SlowRun(m, sequences[s]).None?)
  {
    hide ValidModel;
    hide SlowRun;
    var s :| 0 <= s < |sequences| && !(0 < |sequences[s]| <= m.maxSeq && InVocab(m, sequences[s]));
    TokenMajorIsLayerMajor(m, sequences[s]);
  }

  /** Every position of every sequence, refused exactly when the slow engine
      refuses a sequence (or one is empty), with its logits otherwise. */
  method TeacherForced(engine: Fast.Engine, sequences: seq<seq<int>>) returns (r: Option<seq<Emit>>)
    requires engine.Valid()
    modifies engine
    ensures r.None? <==>
      sequences == [] || exists s | 0 <= s < |sequences| :: sequences[s] == [] || SlowRun(engine.m, sequences[s]).None?
    ensures r.Some? ==> |r.value| == Start(Lengths(sequences), |sequences|)
    ensures r.Some? ==> forall s, p | 0 <= s < |sequences| && 0 <= p < |sequences[s]| ::
      r.value[RowOf(Lengths(sequences), s, p)] == Emit(s, p, SlowRun(engine.m, sequences[s]).value.logits[p])
  {
    hide ValidModel;
    hide ValidFpu;
    hide SlowRun;
    hide LayerMajor;
    var m := engine.m;
    if !Admissible(m, sequences) {
      if sequences != [] { InadmissibleRefused(m, sequences); }
      return None;
    }
    r := ForceAdmissible(engine, sequences);
    forall s | 0 <= s < |sequences|
      ensures RunIsGrid(m, sequences[s], SlowRun(m, sequences[s]))
    {
      TokenMajorIsLayerMajor(m, sequences[s]);
    }
  }
}
