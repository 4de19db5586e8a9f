/** Generation with the slow engine: the prompt, then one token at a time until
    an end token or the budget, the last token never forwarded. */
module Generation {
  import opened Arithmetic
  import opened ModernModel
  import opened SlowEngine
  import opened LoopInterchange
  import opened Selection

  datatype Case = Case(prompt: seq<int>, maxTokens: nat, eos: seq<int>, rule: Rule)

  predicate ValidCase(m: Model, c: Case)
  {
    && c.prompt != [] && InVocab(m, c.prompt)
    && c.maxTokens >= 1 && |c.prompt| + c.maxTokens <= m.maxSeq
  }

  /** An end token may only be last; without one the whole budget was used. */
  predicate StopRule(c: Case, tokens: seq<int>)
  {
    && 0 < |tokens| <= c.maxTokens
    && (forall g | 0 <= g < |tokens| - 1 :: tokens[g] !in c.eos)
    && (tokens[|tokens| - 1] in c.eos || |tokens| == c.maxTokens)
  }

  /** Token `g` is what the rule selects from the logits of position P - 1 + g
      and the tokens before it. */
  ghost predicate Follows(m: Model, c: Case, tokens: seq<int>, logits: Mat, g: nat)
    requires c.prompt != [] && g < |tokens| && |c.prompt| - 1 + g < |logits|
  {
    var row := logits[|c.prompt| - 1 + g];
    row != [] && Select(Dyadic, row, tokens[..g], c.rule) == Some(tokens[g])
  }

  /** The sequence that was forwarded when `tokens` were generated. */
  function Forwarded(c: Case, tokens: seq<int>): seq<int>
  {
    if tokens == [] then c.prompt else c.prompt + tokens[..|tokens| - 1]
  }

  /** `tokens` is a generation of `c`: every token follows from its logits, and
      the stop rule holds. */
  ghost predicate Generates(m: Model, c: Case, tokens: seq<int>)
    requires ValidModel(m)
  {
    && c.prompt != [] && StopRule(c, tokens)
    && var run := SlowRun(m, Forwarded(c, tokens));
       run.Some? && forall g | 0 <= g < |tokens| :: Follows(m, c, tokens, run.value.logits, g)
  }

  // ---- runs and their prefixes -------------------------------------------------

  lemma {:induction false} RunPrefix(m: Model, tokens: seq<int>, n: nat)
    requires ValidModel(m) && n <= |tokens| && SlowRun(m, tokens).Some?
    ensures SlowRun(m, tokens[..n]).Some?
    ensures SlowRun(m, tokens[..n]).value.logits == SlowRun(m, tokens).value.logits[..n]
    decreases |tokens|
  {
    hide ValidModel;
    hide Forward;
    if n < |tokens| {
      var k := |tokens| - 1;
      RunPrefix(m, tokens[..k], n);
      assert tokens[..k][..n] == tokens[..n];
      assert SlowRun(m, tokens).value.logits[..n] == SlowRun(m, tokens[..k]).value.logits[..n];
    } else {
      assert tokens[..n] == tokens;
    }
  }

  /** Two generations of a case agree on any common stretch. */
  lemma {:induction false} GenerationsAgree(m: Model, c: Case, a: seq<int>, b: seq<int>, n: nat)
    requires ValidModel(m) && Generates(m, c, a) && Generates(m, c, b) && n <= |a| && n <= |b|
    ensures a[..n] == b[..n]
  {
    hide ValidModel;
    hide SlowRun;
    hide Select;
    if n > 0 {
      GenerationsAgree(m, c, a, b, n - 1);
      var g := n - 1;
      var p := |c.prompt| + g;
      var fa, fb := Forwarded(c, a), Forwarded(c, b);
      assert fa[..p] == c.prompt + a[..g] == c.prompt + b[..g] == fb[..p];
      RunPrefix(m, fa, p);
      RunPrefix(m, fb, p);
      var la, lb := SlowRun(m, fa).value.logits, SlowRun(m, fb).value.logits;
      assert la[p - 1] == la[..p][p - 1] == lb[..p][p - 1] == lb[p - 1];
      assert Follows(m, c, a, la, g) && Follows(m, c, b, lb, g);
      assert a[..n] == a[..g] + [a[g]] && b[..n] == b[..g] + [b[g]];
    }
  }

  /** A case has at most one generation. */
  lemma GenerationUnique(m: Model, c: Case, a: seq<int>, b: seq<int>)
    requires ValidModel(m) && Generates(m, c, a) && Generates(m, c, b)
    ensures a == b
  {
    hide SlowRun;
    hide Select;
    var n := Min(|a|, |b|);
    GenerationsAgree(m, c, a, b, n);
    forall i | 0 <= i < n ensures a[i] == b[i] { assert a[i] == a[..n][i] == b[..n][i]; }
    SameLength(c, a, b);
  }

  /** The stop rule fixes where a run of tokens ends. */
  lemma SameLength(c: Case, a: seq<int>, b: seq<int>)
    requires StopRule(c, a) && StopRule(c, b)
    requires forall i | 0 <= i < |a| && i < |b| :: a[i] == b[i]
    ensures |a| == |b|
  {
  }

  // ---- the loop ------------------------------------------------------------------

  /** Where the loop stands with `out` selected and forwarded, none of it an
      end token, the budget not used up. */
  ghost predicate Underway(m: Model, c: Case, out: seq<int>, run: Run)
    requires ValidModel(m)
  {
    && c.prompt != [] && |out| < c.maxTokens
    && (forall g | 0 <= g < |out| :: out[g] !in c.eos)
    && SlowRun(m, c.prompt + out) == Some(run)
    && forall g | 0 <= g < |out| :: Follows(m, c, out, run.logits, g)
  }

  lemma {:induction false} UnderwayAgrees(m: Model, c: Case, out: seq<int>, run: Run, full: seq<int>, n: nat)
    requires ValidModel(m) && Underway(m, c, out, run) && Generates(m, c, full) && n <= |out| && n <= |full|
    ensures out[..n] == full[..n]
  {
    hide ValidModel;
    hide SlowRun;
    hide Select;
    if n > 0 {
      UnderwayAgrees(m, c, out, run, full, n - 1);
      var g := n - 1;
      var p := |c.prompt| + g;
      var fa, fb := c.prompt + out, Forwarded(c, full);
      assert fa[..p] == c.prompt + out[..g] == c.prompt + full[..g] == fb[..p];
      RunPrefix(m, fa, p);
      RunPrefix(m, fb, p);
      var la, lb := run.logits, SlowRun(m, fb).value.logits;
      assert la[p - 1] == la[..p][p - 1] == lb[..p][p - 1] == lb[p - 1];
      assert Follows(m, c, out, la, g) && Follows(m, c, full, lb, g);
      assert out[..n] == out[..g] + [out[g]] && full[..n] == full[..g] + [full[g]];
    }
  }

  lemma NotYetStopped(c: Case, out: seq<int>, full: seq<int>)
    requires StopRule(c, full) && |out| < c.maxTokens && forall g | 0 <= g < |out| :: out[g] !in c.eos
    requires forall i | 0 <= i < |out| && i < |full| :: out[i] == full[i]
    ensures |out| < |full|
  {
  }

  /** A generation runs through every state of the loop and continues with the
      token selected there. */
  lemma GenerationContinues(m: Model, c: Case, out: seq<int>, run: Run, full: seq<int>)
    requires ValidModel(m) && Underway(m, c, out, run) && Generates(m, c, full)
    ensures |out| < |full| && full[..|out|] == out
    ensures var row := run.logits[|c.prompt| - 1 + |out|];
      row != [] && Select(Dyadic, row, out, c.rule) == Some(full[|out|])
  {
    hide ValidModel;
    hide SlowRun;
    hide Select;
    var n := Min(|out|, |full|);
    UnderwayAgrees(m, c, out, run, full, n);
    forall i | 0 <= i < n ensures out[i] == full[i] { assert out[i] == out[..n][i] == full[..n][i]; }
    NotYetStopped(c, out, full);
    var p := |c.prompt| + |out|;
    var f := Forwarded(c, full);
    assert f[..p] == c.prompt + full[..|out|] == c.prompt + out;
    RunPrefix(m, f, p);
    var l := SlowRun(m, f).value.logits;
    assert l[p - 1] == l[..p][p - 1] == run.logits[p - 1];
    assert Follows(m, c, full, l, |out|);
    assert out[..|out|] == out;
  }

  /** A refused prompt or a refused continuation leaves no generation. */
  lemma PromptRefused(m: Model, c: Case, n: nat)
    requires ValidModel(m) && n <= |c.prompt| && SlowRun(m, c.prompt[..n]).None?
    ensures forall full :: !Generates(m, c, full)
  {
    hide ValidModel;
    hide SlowRun;
    forall full | Generates(m, c, full)
      ensures false
    {
      var f := Forwarded(c, full);
      assert f[..n] == c.prompt[..n];
      RunPrefix(m, f, n);
    }
  }

  lemma SelectionRefused(m: Model, c: Case, out: seq<int>, run: Run)
    requires ValidModel(m) && Underway(m, c, out, run)
    requires var row := run.logits[|c.prompt| - 1 + |out|]; row != [] && Select(Dyadic, row, out, c.rule).None?
    ensures forall full :: !Generates(m, c, full)
  {
    hide ValidModel;
    hide SlowRun;
    hide Select;
    forall full | Generates(m, c, full)
      ensures false
    {
      GenerationContinues(m, c, out, run, full);
    }
  }

  lemma ForwardRefused(m: Model, c: Case, out: seq<int>, run: Run, next: int)
    requires ValidModel(m) && Underway(m, c, out, run)
    requires var row := run.logits[|c.prompt| - 1 + |out|]; row != [] && Select(Dyadic, row, out, c.rule) == Some(next)
    requires next !in c.eos && |out| + 1 < c.maxTokens && SlowRun(m, c.prompt + out + [next]).None?
    ensures forall full :: !Generates(m, c, full)
  {
    hide ValidModel;
    hide SlowRun;
    hide Select;
    forall full | Generates(m, c, full)
      ensures false
    {
      GenerationContinues(m, c, out, run, full);
      var f, p := Forwarded(c, full), |c.prompt| + |out| + 1;
      assert full[..|out| + 1] == out + [next];
      assert |full| > |out| + 1;
      assert f[..p] == c.prompt + full[..|out| + 1] == c.prompt + out + [next];
      RunPrefix(m, f, p);
    }
  }

  // ---- the method ------------------------------------------------------------------

  function HashAll<D>(hash: Vec -> D, logits: Mat): seq<D>
  {
    seq(|logits|, i requires 0 <= i < |logits| => hash(logits[i]))
  }

  datatype Generated<D> = Generated(tokens: seq<int>, hashes: seq<D>, forwards: nat)

  /** The engine has been fed `tokens` and its hashes are recorded. */
  ghost predicate Fed<D>(m: Model, c: Cache, tokens: seq<int>, hash: Vec -> D, hashes: seq<D>, last: Vec, run: Run)
    requires ValidModel(m)
  {
    && SlowRun(m, tokens) == Some(run) && run.cache == c
    && hashes == HashAll(hash, run.logits)
    && (tokens != [] ==> last == run.logits[|tokens| - 1] && last != [])
  }

  /** Feeding one more token. */
  lemma FeedOne<D>(m: Model, c: Cache, tokens: seq<int>, t: int, hash: Vec -> D, hashes: seq<D>, last: Vec, run: Run)
    requires ValidModel(m) && ValidCache(m, c) && Fed(m, c, tokens, hash, hashes, last, run)
    ensures var (logits, c') := Forward(m, c, t);
      if logits.None? then SlowRun(m, tokens + [t]).None?
      else Fed(m, c', tokens + [t], hash, hashes + [hash(logits.value)], logits.value,
               Run(run.logits + [logits.value], c'))
  {
    hide ValidLayer;
    hide ValidScaled;
    hide RunLayers;
    hide EmbedToken;
    hide LmHead;
    assert (tokens + [t])[..|tokens|] == tokens;
  }

  /** One forward call on an engine that has been fed `tokens`. */
  method Feed<D>(engine: Engine, ghost tokens: seq<int>, t: int, hash: Vec -> D, hashes: seq<D>,
                 ghost last: Vec, ghost run: Run)
    returns (next: Option<Vec>, hashes': seq<D>, ghost run': Run)
    requires engine.Valid() && Fed(engine.m, engine.State(), tokens, hash, hashes, last, run)
    modifies engine
    ensures engine.Valid()
    ensures next.None? ==> SlowRun(engine.m, tokens + [t]).None?
    ensures next.Some? ==> Fed(engine.m, engine.State(), tokens + [t], hash, hashes', next.value, run')
    ensures next.Some? ==> run'.logits == run.logits + [next.value]
  {
    hide ValidModel;
    hide Fed;
    hide Forward;
    hide SlowRun;
    FeedOne(engine.m, engine.State(), tokens, t, hash, hashes, last, run);
    next := engine.ForwardToken(t);
    hashes', run' := hashes, run;
    if next.Some? {
      hashes' := hashes + [hash(next.value)];
      run' := Run(run.logits + [next.value], engine.State());
    }
  }

  /** The prompt; None when it is refused. */
  method FeedPrompt<D>(engine: Engine, c: Case, hash: Vec -> D)
    returns (last: Option<Vec>, hashes: seq<D>, ghost run: Run)
    requires engine.Valid() && c.prompt != [] && c.maxTokens >= 1
    modifies engine
    ensures engine.Valid()
    ensures last.None? ==> forall full :: !Generates(engine.m, c, full)
    ensures last.Some? ==> Fed(engine.m, engine.State(), c.prompt, hash, hashes, last.value, run)
  {
    hide ValidModel;
    hide Generates;
    hide SlowRun;
    engine.Reset();
    hashes := [];
    run := Run([], engine.State());
    var logits: Vec := [];
    FedNothing(engine.m, engine.State(), hash, run);
    hide Fed;
    for i := 0 to |c.prompt|
      invariant engine.Valid() && Fed(engine.m, engine.State(), c.prompt[..i], hash, hashes, logits, run)
    {
      assert c.prompt[..i] + [c.prompt[i]] == c.prompt[..i + 1];
      var next;
      next, hashes, run := Feed(engine, c.prompt[..i], c.prompt[i], hash, hashes, logits, run);
      if next.None? {
        PromptRefused(engine.m, c, i + 1);
        return None, hashes, run;
      }
      logits := next.value;
    }
    assert c.prompt[..|c.prompt|] == c.prompt;
    last := Some(logits);
  }

  lemma FedNothing<D>(m: Model, c: Cache, hash: Vec -> D, run: Run)
    requires ValidModel(m) && c == EmptyCache(m) && run == Run([], c)
    ensures Fed(m, c, [], hash, [], [], run)
  {
  }

  lemma FedFacts<D>(m: Model, c: Cache, tokens: seq<int>, hash: Vec -> D, hashes: seq<D>, last: Vec, run: Run)
    requires ValidModel(m) && Fed(m, c, tokens, hash, hashes, last, run) && tokens != []
    ensures SlowRun(m, tokens) == Some(run) && hashes == HashAll(hash, run.logits) && |hashes| == |tokens|
    ensures |run.logits| == |tokens| && last == run.logits[|tokens| - 1] && last != [] && run.cache == c
    ensures Position(c) == |tokens|
  {
    hide ValidLayer;
    hide ValidScaled;
    TokenMajorIsLayerMajor(m, tokens);
    CachePosition(m, tokens, c);
  }

  lemma UnderwayStarts(m: Model, c: Case, run: Run)
    requires ValidModel(m) && c.prompt != [] && c.maxTokens >= 1 && SlowRun(m, c.prompt) == Some(run)
    ensures Underway(m, c, [], run)
  {
    hide SlowRun;
    assert c.prompt + [] == c.prompt;
  }

  /** Generates with the slow engine. A result is the generation of the case,
      with the hashes of every forward call; a refusal means there is none.
      A result took P + |tokens| - 1 forwards and stays below max_seq. */
  method GenerateCase<D>(engine: Engine, c: Case, hash: Vec -> D) returns (r: Option<Generated<D>>)
    requires engine.Valid() && ValidCase(engine.m, c)
    modifies engine
    ensures engine.Valid()
    ensures r.None? ==> forall full :: !Generates(engine.m, c, full)
    ensures r.Some? ==> Generates(engine.m, c, r.value.tokens)
    ensures r.Some? ==> r.value.hashes == HashAll(hash, SlowRun(engine.m, Forwarded(c, r.value.tokens)).value.logits)
    ensures r.Some? ==> r.value.forwards == |c.prompt| + |r.value.tokens| - 1 < engine.m.maxSeq
    ensures r.Some? ==> Position(engine.State()) == r.value.forwards
  {
    hide ValidModel;
    hide ValidCache;
    hide Generates;
    hide SlowRun;
    hide Select;
    hide Fed;
    hide Underway;
    hide Position;
    hide Forwarded;
    var last, hashes, run := FeedPrompt(engine, c, hash);
    if last.None? {
      return None;
    }
    FedFacts(engine.m, engine.State(), c.prompt, hash, hashes, last.value, run);
    UnderwayStarts(engine.m, c, run);
    var logits := last.value;
    var out: seq<int> := [];
    assert c.prompt + [] == c.prompt;
    while true
      invariant engine.Valid() && Fed(engine.m, engine.State(), c.prompt + out, hash, hashes, logits, run)
      invariant Underway(engine.m, c, out, run) && |out| < c.maxTokens
      decreases c.maxTokens - |out|
    {
      FedFacts(engine.m, engine.State(), c.prompt + out, hash, hashes, logits, run);
      var nxt := SelectNext(Dyadic, logits, out, c.rule);
      if nxt.None? {
        SelectionRefused(engine.m, c, out, run);
        return None;
      }
      var tokens := out + [nxt.value];
      if nxt.value in c.eos || |tokens| == c.maxTokens {
        GenerationEnds(engine.m, c, out, run, nxt.value);
        r := Some(Generated(tokens, hashes, |hashes|));
        return;
      }
      assert c.prompt + out + [nxt.value] == c.prompt + tokens;
      ghost var before := run;
      var next;
      next, hashes, run := Feed(engine, c.prompt + out, nxt.value, hash, hashes, logits, run);
      if next.None? {
        ForwardRefused(engine.m, c, out, before, nxt.value);
        return None;
      }
      FedFacts(engine.m, engine.State(), c.prompt + tokens, hash, hashes, next.value, run);
      assert run.logits[..|before.logits|] == before.logits;
      GenerationGrows(engine.m, c, out, before, nxt.value, run);
      logits, out := next.value, tokens;
    }
  }

  lemma GenerationGrows(m: Model, c: Case, out: seq<int>, run: Run, next: int, run': Run)
    requires ValidModel(m) && Underway(m, c, out, run)
    requires var row := run.logits[|c.prompt| - 1 + |out|]; row != [] && Select(Dyadic, row, out, c.rule) == Some(next)
    requires next !in c.eos && |out| + 1 < c.maxTokens && SlowRun(m, c.prompt + (out + [next])) == Some(run')
    requires |run'.logits| == |run.logits| + 1 && run'.logits[..|run.logits|] == run.logits
    ensures Underway(m, c, out + [next], run')
  {
    hide ValidModel;
    hide SlowRun;
    hide Select;
    var tokens := out + [next];
    forall g | 0 <= g < |tokens|
      ensures Follows(m, c, tokens, run'.logits, g)
    {
      FollowsExtends(m, c, out, run.logits, next, run'.logits, g);
    }
  }

  lemma FollowsExtends(m: Model, c: Case, out: seq<int>, logits: Mat, next: int, logits': Mat, g: nat)
    requires c.prompt != [] && g <= |out| && |logits| == |c.prompt| + |out| <= |logits'|
    requires logits'[..|logits|] == logits
    requires g < |out| ==> Follows(m, c, out, logits, g)
    requires var row := logits[|c.prompt| - 1 + |out|]; row != [] && Select(Dyadic, row, out, c.rule) == Some(next)
    ensures Follows(m, c, out + [next], logits', g)
  {
    hide Select;
    var p := |c.prompt| - 1 + g;
    assert logits'[p] == logits'[..|logits|][p] == logits[p];
    assert (out + [next])[..g] == out[..g];
    if g == |out| { assert out[..g] == out; }
  }

  lemma GenerationEnds(m: Model, c: Case, out: seq<int>, run: Run, next: int)
    requires ValidModel(m) && Underway(m, c, out, run)
    requires var row := run.logits[|c.prompt| - 1 + |out|]; row != [] && Select(Dyadic, row, out, c.rule) == Some(next)
    requires next in c.eos || |out| + 1 == c.maxTokens
    ensures Generates(m, c, out + [next]) && Forwarded(c, out + [next]) == c.prompt + out
  {
    hide ValidModel;
    hide SlowRun;
    hide Select;
    var tokens := out + [next];
    assert tokens[..|tokens| - 1] == out;
    assert run.logits[..|run.logits|] == run.logits;
    forall g | 0 <= g < |tokens|
      ensures Follows(m, c, tokens, run.logits, g)
    {
      FollowsExtends(m, c, out, run.logits, next, run.logits, g);
    }
  }
}
