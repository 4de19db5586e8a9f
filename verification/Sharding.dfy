/** Layer-range sharding: any consecutive cuts of the layers compute what one
    whole pass computes, cache and refusals included. */
module Sharding {
  import opened Arithmetic
  import opened LegacyModel
  import opened LegacyOps

  /** Cut points of the layers: non-decreasing, ending at the layer count. */
  ghost predicate Partition(m: Model, cuts: seq<nat>)
  {
    && cuts != [] && cuts[|cuts| - 1] == |m.layers|
    && forall i, j | 0 <= i <= j < |cuts| :: cuts[i] <= cuts[j]
  }

  function CutAt(cuts: seq<nat>, j: nat): nat
    requires j <= |cuts|
  {
    if j == 0 then 0 else cuts[j - 1]
  }

  /** The hidden state at every boundary reached, and where the pass stands. */
  datatype Shards = Shards(cache: Cache, hiddens: seq<Vec>, result: Option<Vec>)

  function ShardsUpTo(m: Model, hidden: Vec, c: Cache, cuts: seq<nat>, j: nat, pos: nat): (s: Shards)
    requires Geometry(m) && CacheFor(m, c) && j <= |cuts|
    requires forall i | 0 <= i < |cuts| :: cuts[i] <= |m.layers|
    ensures CacheFor(m, s.cache)
  {
    if j == 0 then Shards(c, [], Some(hidden))
    else
      var s := ShardsUpTo(m, hidden, c, cuts, j - 1, pos);
      if s.result.None? then s
      else
        var o := RunLayers(m, s.result.value, s.cache, CutAt(cuts, j - 1), cuts[j - 1], pos);
        Shards(o.cache, if o.result.None? then s.hiddens else s.hiddens + [o.result.value], o.result)
  }

  /** Running on from layer `b` with what the first part left behind. */
  lemma {:induction false} RunLayersSplit(m: Model, hidden: Vec, c: Cache, a: nat, b: nat, e: nat, pos: nat)
    requires Geometry(m) && CacheFor(m, c) && a <= b <= e <= |m.layers|
    ensures var o := RunLayers(m, hidden, c, a, b, pos);
      RunLayers(m, hidden, c, a, e, pos)
        == if o.result.None? then o else RunLayers(m, o.result.value, o.cache, b, e, pos)
    decreases b - a
  {
    hide LayerStep;
    hide Geometry;
    if a < b {
      var o := LayerStep(m, a, hidden, c, pos);
      if o.result.Some? { RunLayersSplit(m, o.result.value, o.cache, a + 1, b, e, pos); }
    }
  }

  /** After `j` shards: cache and outcome of one pass over the first cuts[j-1]
      layers, with every boundary state on the way. */
  lemma {:induction false} ShardsAreWhole(m: Model, hidden: Vec, c: Cache, cuts: seq<nat>, j: nat, pos: nat)
    requires Geometry(m) && CacheFor(m, c) && Partition(m, cuts) && j <= |cuts|
    ensures var s := ShardsUpTo(m, hidden, c, cuts, j, pos);
      && Outcome(s.cache, s.result) == RunLayers(m, hidden, c, 0, CutAt(cuts, j), pos)
      && |s.hiddens| <= j && (s.result.Some? ==> |s.hiddens| == j)
      && forall i | 0 <= i < |s.hiddens| :: RunLayers(m, hidden, c, 0, cuts[i], pos).result == Some(s.hiddens[i])
  {
    hide RunLayers;
    hide Geometry;
    if j == 0 {
      RunNoLayers(m, hidden, c, pos);
    } else {
      ShardsAreWhole(m, hidden, c, cuts, j - 1, pos);
      assert CutAt(cuts, j - 1) <= cuts[j - 1] <= |m.layers|;
      RunLayersSplit(m, hidden, c, 0, CutAt(cuts, j - 1), cuts[j - 1], pos);
    }
  }

  lemma RunNoLayers(m: Model, hidden: Vec, c: Cache, pos: nat)
    requires Geometry(m) && CacheFor(m, c)
    ensures RunLayers(m, hidden, c, 0, 0, pos) == Outcome(c, Some(hidden))
  {
  }

  // ---- a token through the shards --------------------------------------------------

  /** Forward with the layers run shard by shard. */
  function ShardedForward(m: Model, token: int, c: Cache, cuts: seq<nat>): (o: Outcome)
    requires Geometry(m) && CacheFor(m, c) && forall i | 0 <= i < |cuts| :: cuts[i] <= |m.layers|
    ensures CacheFor(m, o.cache)
  {
    if c.len >= m.maxSeq then Outcome(c, None)
    else
      match Embed(m, token)
      case None => Outcome(c, None)
      case Some(h) =>
        var s := ShardsUpTo(m, h, c, cuts, |cuts|, c.len);
        Concluded(m, Outcome(s.cache, s.result), c.len)
  }

  function ShardedSequence(m: Model, tokens: Vec, cuts: seq<nat>, n: nat): (t: Trace)
    requires Geometry(m) && n <= |tokens| && forall i | 0 <= i < |cuts| :: cuts[i] <= |m.layers|
    ensures CacheFor(m, t.cache)
  {
    if n == 0 then Trace(EmptyCache(m), [], true)
    else
      var t := ShardedSequence(m, tokens, cuts, n - 1);
      if !t.ok then t
      else
        var o := ShardedForward(m, tokens[n - 1], t.cache, cuts);
        if o.result.None? then Trace(o.cache, t.logits, false) else Trace(o.cache, t.logits + [o.result.value], true)
  }

  lemma ShardedForwardIsForward(m: Model, token: int, c: Cache, cuts: seq<nat>)
    requires Geometry(m) && CacheFor(m, c) && Partition(m, cuts)
    ensures ShardedForward(m, token, c, cuts) == Forward(m, token, c)
  {
    hide RunLayers;
    hide ShardsUpTo;
    hide Geometry;
    if c.len < m.maxSeq && Embed(m, token).Some? {
      ShardsAreWhole(m, Embed(m, token).value, c, cuts, |cuts|, c.len);
    }
  }

  /** Every partition, every token sequence: same logits, same cache, and a
      refusal at the same position. */
  lemma {:induction false} ShardedSequenceIsSequence(m: Model, tokens: Vec, cuts: seq<nat>, n: nat)
    requires Geometry(m) && Partition(m, cuts) && n <= |tokens|
    ensures ShardedSequence(m, tokens, cuts, n) == Sequence(m, tokens, n)
  {
    hide Forward;
    hide ShardedForward;
    hide Geometry;
    if n > 0 {
      ShardedSequenceIsSequence(m, tokens, cuts, n - 1);
      ShardedForwardIsForward(m, tokens[n - 1], Sequence(m, tokens, n - 1).cache, cuts);
    }
  }

  // ---- the known-answer split run ---------------------------------------------------

  /** The split run keeps the boundary states and computes no logits, and it
      does not look at the sequence limit. */
  datatype SplitTrace = SplitTrace(cache: Cache, hiddens: seq<seq<Vec>>, ok: bool)

  function SplitStep(m: Model, token: int, c: Cache, cuts: seq<nat>, pos: nat): (s: Shards)
    requires Geometry(m) && CacheFor(m, c) && forall i | 0 <= i < |cuts| :: cuts[i] <= |m.layers|
    ensures CacheFor(m, s.cache)
  {
    match Embed(m, token)
    case None => Shards(c, [], None)
    case Some(h) => ShardsUpTo(m, h, c, cuts, |cuts|, pos)
  }

  function SplitSequence(m: Model, tokens: Vec, cuts: seq<nat>, n: nat): (t: SplitTrace)
    requires Geometry(m) && n <= |tokens| && forall i | 0 <= i < |cuts| :: cuts[i] <= |m.layers|
    ensures CacheFor(m, t.cache)
  {
    if n == 0 then SplitTrace(EmptyCache(m), [], true)
    else
      var t := SplitSequence(m, tokens, cuts, n - 1);
      if !t.ok then t
      else
        var s := SplitStep(m, tokens[n - 1], t.cache, cuts, n - 1);
        if s.result.None? then SplitTrace(s.cache, t.hiddens + [s.hiddens], false)
        else SplitTrace(s.cache.(len := n), t.hiddens + [s.hiddens], true)
  }

  /** The logits the last boundary state of position `i` would give. */
  function SplitLogits(m: Model, t: SplitTrace, i: nat): Option<Vec>
    requires i < |t.hiddens|
  {
    var h := t.hiddens[i];
    if h == [] then None else Logits(m, h[|h| - 1])
  }

  ghost predicate HeadsFollow(m: Model, t: SplitTrace, logits: seq<Vec>)
  {
    |t.hiddens| == |logits| && forall i | 0 <= i < |logits| :: SplitLogits(m, t, i) == Some(logits[i])
  }

  /** The whole run succeeds just when the split one does, no position is past
      the limit and every final state has logits; then the caches agree and the
      logits follow. */
  ghost predicate Matching(m: Model, w: Trace, s: SplitTrace, n: nat)
  {
    && (w.ok <==> s.ok && n <= m.maxSeq && |s.hiddens| == n && forall i | 0 <= i < n :: SplitLogits(m, s, i).Some?)
    && (w.ok ==> s.cache == w.cache && w.cache.len == n && HeadsFollow(m, s, w.logits))
    && (s.ok ==> |s.hiddens| == n && s.cache.len == n)
  }

  lemma {:induction false} SplitMatchesWhole(m: Model, tokens: Vec, cuts: seq<nat>, n: nat)
    requires Geometry(m) && Partition(m, cuts) && n <= |tokens|
    ensures Matching(m, Sequence(m, tokens, n), SplitSequence(m, tokens, cuts, n), n)
  {
    hide Geometry;
    hide Forward;
    hide SplitStep;
    if n > 0 {
      var w, s := Sequence(m, tokens, n - 1), SplitSequence(m, tokens, cuts, n - 1);
      SplitMatchesWhole(m, tokens, cuts, n - 1);
      if w.ok { SplitForward(m, tokens[n - 1], w.cache, cuts); }
      if s.ok { MatchingNext(m, w, Sequence(m, tokens, n), s, SplitSequence(m, tokens, cuts, n), n); }
    }
  }

  lemma MatchingNext(m: Model, w: Trace, w': Trace, s: SplitTrace, s': SplitTrace, n: nat)
    requires n > 0 && Matching(m, w, s, n - 1) && s.ok
    requires |s'.hiddens| == n && s'.hiddens[..n - 1] == s.hiddens && (s'.ok ==> s'.cache.len == n)
    requires !w.ok ==> !w'.ok
    requires w.ok ==> (w'.ok <==> s'.ok && n <= m.maxSeq && SplitLogits(m, s', n - 1).Some?)
    requires w.ok && w'.ok ==>
      && s'.cache == w'.cache && |w'.logits| == n && w'.logits[..n - 1] == w.logits
      && SplitLogits(m, s', n - 1) == Some(w'.logits[n - 1])
    ensures Matching(m, w', s', n)
  {
    hide Logits;
    forall i | 0 <= i < n - 1
      ensures SplitLogits(m, s', i) == SplitLogits(m, s, i)
    {
      assert s'.hiddens[..n - 1][i] == s.hiddens[i];
    }
    if w.ok && w'.ok {
      forall i | 0 <= i < n - 1
        ensures w'.logits[i] == w.logits[i]
      {
        assert w'.logits[..n - 1][i] == w.logits[i];
      }
    }
  }

  lemma SplitForward(m: Model, token: int, c: Cache, cuts: seq<nat>)
    requires Geometry(m) && CacheFor(m, c) && Partition(m, cuts)
    ensures var o, s := Forward(m, token, c), SplitStep(m, token, c, cuts, c.len);
      && (o.result.Some? ==> s.result.Some? && c.len < m.maxSeq)
      && (s.result.Some? ==> s.hiddens != [])
      && (s.result.Some? && c.len < m.maxSeq ==>
          && o.cache == s.cache.(len := c.len + 1) && o.result == Logits(m, s.hiddens[|s.hiddens| - 1]))
  {
    hide RunLayers;
    hide Geometry;
    if Embed(m, token).Some? {
      ShardsAreWhole(m, Embed(m, token).value, c, cuts, |cuts|, c.len);
    }
    hide ShardsUpTo;
  }

  /** A model without layers and without positions. */
  function NoPositions(): Model
  {
    Model(false, 2, 1, 1, 1, 0, ONE, Angles([], []), [0, 0], [], [], Matrix([], []))
  }

  /** The split run can succeed where the whole run refuses. */
  lemma SplitOutrunsWhole()
    ensures Geometry(NoPositions()) && Partition(NoPositions(), [0])
    ensures SplitSequence(NoPositions(), [0], [0], 1).ok && !Sequence(NoPositions(), [0], 1).ok
  {
    var m := NoPositions();
    ShardsAreWhole(m, [0, 0], EmptyCache(m), [0], 1, 0);
    RunNoLayers(m, [0, 0], EmptyCache(m), 0);
    assert Embed(m, 0) == Some([0, 0]) by { assert m.embedding[0..2] == [0, 0]; }
    assert SplitSequence(m, [0], [0], 0) == SplitTrace(EmptyCache(m), [], true);
    hide ShardsUpTo;
    hide RunLayers;
    SplitMatchesWhole(m, [0], [0], 1);
  }

  /** The loops of the split run, for any number of boundaries. */
  method RunSplit(e: Executor, tokens: Vec, cuts: seq<nat>) returns (hiddens: seq<seq<Vec>>, ok: bool)
    requires e.Valid() && e.State() == EmptyCache(e.m) && Partition(e.m, cuts)
    modifies e
    ensures e.Valid()
    ensures SplitTrace(e.State(), hiddens, ok) == SplitSequence(e.m, tokens, cuts, |tokens|)
  {
    hide SplitStep;
    hide Geometry;
    hiddens := [];
    for i := 0 to |tokens|
      invariant e.Valid()
      invariant SplitTrace(e.State(), hiddens, true) == SplitSequence(e.m, tokens, cuts, i)
    {
      var states, done := SplitToken(e, tokens[i], cuts, i);
      hiddens := hiddens + [states];
      if !done {
        SplitStopped(e.m, tokens, cuts, i + 1, |tokens|);
        return hiddens, false;
      }
      e.len := i + 1;
    }
    ok := true;
  }

  method SplitToken(e: Executor, token: int, cuts: seq<nat>, pos: nat) returns (hiddens: seq<Vec>, ok: bool)
    requires e.Valid() && Partition(e.m, cuts)
    modifies e
    ensures e.Valid()
    ensures var s := SplitStep(e.m, token, old(e.State()), cuts, pos);
      e.State() == s.cache && hiddens == s.hiddens && ok == s.result.Some?
  {
    hide RunLayers;
    hide Geometry;
    hiddens := [];
    var start := Embed(e.m, token);
    if start.None? {
      return [], false;
    }
    ghost var was := e.State();
    var h := start.value;
    for j := 0 to |cuts|
      invariant e.Valid()
      invariant Shards(e.State(), hiddens, Some(h)) == ShardsUpTo(e.m, start.value, was, cuts, j, pos)
    {
      var next := e.RunRange(h, CutAt(cuts, j), cuts[j], pos);
      if next.None? {
        ShardsStopped(e.m, start.value, was, cuts, j + 1, |cuts|, pos);
        return hiddens, false;
      }
      h := next.value;
      hiddens := hiddens + [h];
    }
    ok := true;
  }

  lemma {:induction false} ShardsStopped(m: Model, hidden: Vec, c: Cache, cuts: seq<nat>, i: nat, j: nat, pos: nat)
    requires Geometry(m) && CacheFor(m, c) && Partition(m, cuts) && i <= j <= |cuts|
    requires ShardsUpTo(m, hidden, c, cuts, i, pos).result.None?
    ensures ShardsUpTo(m, hidden, c, cuts, j, pos) == ShardsUpTo(m, hidden, c, cuts, i, pos)
  {
    hide RunLayers;
    hide Geometry;
    if i < j { ShardsStopped(m, hidden, c, cuts, i, j - 1, pos); }
  }

  lemma {:induction false} SplitStopped(m: Model, tokens: Vec, cuts: seq<nat>, i: nat, n: nat)
    requires Geometry(m) && Partition(m, cuts) && i <= n <= |tokens|
    requires !SplitSequence(m, tokens, cuts, i).ok
    ensures SplitSequence(m, tokens, cuts, n) == SplitSequence(m, tokens, cuts, i)
  {
    hide SplitStep;
    hide Geometry;
    if i < n { SplitStopped(m, tokens, cuts, i, n - 1); }
  }
}
