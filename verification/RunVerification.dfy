/** Verification of a claimed run: teacher-force every case with the fast
    engine, re-derive each token from its own logits, and apply the stop rule. */
module RunVerification {
  import opened Arithmetic
  import opened ModernModel
  import opened SlowEngine
  import opened LoopInterchange
  import opened Selection
  import opened Generation
  import opened Stacking
  import opened TeacherForcing
  import Fast = FastEngine

  /** The hash functions, not interpreted: of a row of logits, of a token list
      and of a list of row hashes. */
  datatype Hashing<!D> = Hashing(row: Vec -> D, output: seq<int> -> D, digest: seq<D> -> D)

  datatype Claim<D> = Claim(c: Case, tokens: seq<int>, hashes: seq<D>, outputHash: D, digest: D)

  predicate ValidClaim<D>(m: Model, claim: Claim<D>)
  {
    ValidCase(m, claim.c) && InVocab(m, claim.tokens)
  }

  /** The tokens that are forwarded: at most the budget, the last one dropped. */
  function Forced(c: Case, tokens: seq<int>): seq<int>
  {
    var kept := tokens[..Min(|tokens|, c.maxTokens)];
    if kept == [] then c.prompt else c.prompt + kept[..|kept| - 1]
  }

  /** How many tokens are re-derived. */
  function Derivable(c: Case, tokens: seq<int>): nat { Min(|tokens|, c.maxTokens) }

  /** The first `n` tokens selected from the logits with the claimed history. */
  function Rederive(c: Case, tokens: seq<int>, logits: Mat, n: nat): (r: Option<seq<int>>)
    requires c.prompt != [] && n <= |tokens| && |c.prompt| - 1 + n <= |logits|
    requires forall i | 0 <= i < |logits| :: logits[i] != []
    ensures r.Some? ==> |r.value| == n
  {
    if n == 0 then Some([])
    else
      match (Rederive(c, tokens, logits, n - 1),
             Select(Dyadic, logits[|c.prompt| - 2 + n], tokens[..n - 1], c.rule))
      case (Some(ts), Some(t)) => Some(ts + [t])
      case _ => None
  }

  lemma {:induction false} RederivesAll(m: Model, c: Case, tokens: seq<int>, logits: Mat, n: nat)
    requires c.prompt != [] && n <= |tokens| && |c.prompt| - 1 + n <= |logits|
    requires forall i | 0 <= i < |logits| :: logits[i] != []
    ensures Rederive(c, tokens, logits, n) == Some(tokens[..n]) <==>
      forall g | 0 <= g < n :: Follows(m, c, tokens, logits, g)
  {
    hide Select;
    if n > 0 {
      RederivesAll(m, c, tokens, logits, n - 1);
      var g := n - 1;
      assert tokens[..n] == tokens[..g] + [tokens[g]];
      var prior, t := Rederive(c, tokens, logits, g), Select(Dyadic, logits[|c.prompt| - 1 + g], tokens[..g], c.rule);
      if prior.Some? && t.Some? {
        AppendEq(prior.value, t.value, tokens[..g], tokens[g]);
        assert Rederive(c, tokens, logits, n) == Some(prior.value + [t.value]);
      }
      assert Follows(m, c, tokens, logits, g) <==> t == Some(tokens[g]);
    }
  }

  lemma AppendEq(a: seq<int>, x: int, b: seq<int>, y: int)
    requires |a| == |b|
    ensures a + [x] == b + [y] <==> a == b && x == y
  {
    if a + [x] == b + [y] {
      assert a == (a + [x])[..|a|] == (b + [y])[..|b|] == b;
      assert x == (a + [x])[|a|] == (b + [y])[|b|] == y;
    }
  }

  lemma {:induction false} RederiveRefused(c: Case, tokens: seq<int>, logits: Mat, n: nat, g: nat)
    requires c.prompt != [] && g < n <= |tokens| && |c.prompt| - 1 + n <= |logits|
    requires forall i | 0 <= i < |logits| :: logits[i] != []
    requires Select(Dyadic, logits[|c.prompt| - 1 + g], tokens[..g], c.rule).None?
    ensures Rederive(c, tokens, logits, n).None?
    decreases n
  {
    hide Select;
    if g < n - 1 { RederiveRefused(c, tokens, logits, n - 1, g); }
  }

  // ---- one case --------------------------------------------------------------------

  /** What the verifier computes for one claim: a refusal, or the re-derived
      tokens beside the logits. */
  ghost function Derived<D>(m: Model, claim: Claim<D>): (r: Option<seq<int>>)
    requires ValidModel(m)
  {
    var run := SlowRun(m, Forced(claim.c, claim.tokens));
    if claim.c.prompt == [] || run.None? then None
    else
      RunRows(m, Forced(claim.c, claim.tokens));
      Rederive(claim.c, claim.tokens, run.value.logits, Derivable(claim.c, claim.tokens))
  }

  lemma RunRows(m: Model, tokens: seq<int>)
    requires ValidModel(m) && SlowRun(m, tokens).Some?
    ensures forall i | 0 <= i < |tokens| :: SlowRun(m, tokens).value.logits[i] != []
    decreases |tokens|
  {
    hide ValidLayer;
    hide ValidScaled;
    hide RunLayers;
    hide EmbedToken;
    if tokens != [] { RunRows(m, tokens[..|tokens| - 1]); }
  }

  datatype Checks = Checks(hashesMatch: bool, tokensMatch: bool, stopRuleOk: bool, outputMatch: bool, digestMatch: bool)
  {
    predicate All() { hashesMatch && tokensMatch && stopRuleOk && outputMatch && digestMatch }
  }

  /** The token and stop checks together say that the claim is the generation. */
  lemma AcceptsExactly<D>(m: Model, claim: Claim<D>)
    requires ValidModel(m)
    ensures Generates(m, claim.c, claim.tokens) <==>
      Derived(m, claim) == Some(claim.tokens) && StopRule(claim.c, claim.tokens)
  {
    hide ValidModel;
    hide SlowRun;
    hide Select;
    var c, tokens := claim.c, claim.tokens;
    if c.prompt != [] && StopRule(c, tokens) {
      assert tokens[..|tokens|] == tokens;
      assert Forced(c, tokens) == Forwarded(c, tokens);
      var run := SlowRun(m, Forced(c, tokens));
      if run.Some? {
        RunRows(m, Forced(c, tokens));
        RederivesAll(m, c, tokens, run.value.logits, |tokens|);
      }
    }
  }

  /** The callback over the rows of one case, in position order. */
  method ReplayCase<D>(claim: Claim<D>, logits: Mat, hash: Vec -> D) returns (hashes: seq<D>, tokens: Option<seq<int>>)
    requires claim.c.prompt != [] && claim.c.maxTokens >= 1 && |logits| == |Forced(claim.c, claim.tokens)|
    requires forall i | 0 <= i < |logits| :: logits[i] != []
    ensures tokens == Rederive(claim.c, claim.tokens, logits, Derivable(claim.c, claim.tokens))
    ensures tokens.Some? ==> hashes == HashAll(hash, logits)
  {
    hide Select;
    var c := claim.c;
    var n := Derivable(c, claim.tokens);
    hashes := [];
    var out: seq<int> := [];
    for pos := 0 to |logits|
      invariant hashes == HashAll(hash, logits[..pos])
      invariant |out| == Min(n, Max(0, pos - (|c.prompt| - 1)))
      invariant Rederive(c, claim.tokens, logits, |out|) == Some(out)
    {
      assert logits[..pos + 1] == logits[..pos] + [logits[pos]];
      hashes := hashes + [hash(logits[pos])];
      var gi := pos - (|c.prompt| - 1);
      if 0 <= gi < |claim.tokens| {
        var t := SelectNext(Dyadic, logits[pos], claim.tokens[..gi], c.rule);
        if t.None? {
          RederiveRefused(c, claim.tokens, logits, n, gi);
          return hashes, None;
        }
        out := out + [t.value];
      }
    }
    assert logits[..|logits|] == logits;
    tokens := Some(out);
  }

  /** The rows of sequence `s` among the emitted ones. */
  function RowsOf(emits: seq<Emit>, lengths: seq<nat>, s: nat): (r: Mat)
    requires s < |lengths| && |emits| == Start(lengths, |lengths|)
    ensures |r| == lengths[s]
  {
    var block := Block(emits, lengths, s);
    seq(lengths[s], p requires 0 <= p < lengths[s] => block[p].logits)
  }

  /** The hashes the verifier computes for a claim. */
  ghost function OwnHashes<D>(m: Model, claim: Claim<D>, h: Hashing<D>): seq<D>
    requires ValidModel(m) && SlowRun(m, Forced(claim.c, claim.tokens)).Some?
  {
    HashAll(h.row, SlowRun(m, Forced(claim.c, claim.tokens)).value.logits)
  }

  ghost predicate Checked<D>(m: Model, claim: Claim<D>, h: Hashing<D>, k: Checks)
    requires ValidModel(m)
  {
    && Derived(m, claim).Some?
    && k.hashesMatch == (claim.hashes == OwnHashes(m, claim, h))
    && k.tokensMatch == (Derived(m, claim).value == claim.tokens)
    && k.stopRuleOk == StopRule(claim.c, claim.tokens)
    && k.outputMatch == (claim.outputHash == h.output(claim.tokens))
    && k.digestMatch == (claim.digest == h.digest(OwnHashes(m, claim, h)))
  }

  /** The claim is, entry for entry, what generation writes for its case. */
  ghost predicate Genuine<D>(m: Model, claim: Claim<D>, h: Hashing<D>)
    requires ValidModel(m)
  {
    && Generates(m, claim.c, claim.tokens)
    && claim.hashes == HashAll(h.row, SlowRun(m, Forwarded(claim.c, claim.tokens)).value.logits)
    && claim.outputHash == h.output(claim.tokens) && claim.digest == h.digest(claim.hashes)
  }

  /** Verifies a list of claims. It is refused exactly when forwarding or
      re-deriving some claim is; otherwise every claim gets its five checks.
      All token and stop checks pass if and only if every claim is the
      generation of its case, and all checks pass if and only if every claim
      is what generation writes. */
  method VerifyRun<D(==)>(engine: Fast.Engine, claims: seq<Claim<D>>, h: Hashing<D>) returns (r: Option<seq<Checks>>)
    requires engine.Valid() && claims != [] && forall i | 0 <= i < |claims| :: ValidClaim(engine.m, claims[i])
    modifies engine
    ensures r.None? <==> exists i :: 0 <= i < |claims| && Derived(engine.m, claims[i]).None?
    ensures r.Some? ==> |r.value| == |claims|
    ensures r.Some? ==> forall i | 0 <= i < |claims| :: Checked(engine.m, claims[i], h, r.value[i])
    ensures (r.Some? && forall i | 0 <= i < |r.value| :: r.value[i].tokensMatch && r.value[i].stopRuleOk)
      <==> forall i | 0 <= i < |claims| :: Generates(engine.m, claims[i].c, claims[i].tokens)
    ensures (r.Some? && forall i | 0 <= i < |r.value| :: r.value[i].All())
      <==> forall i | 0 <= i < |claims| :: Genuine(engine.m, claims[i], h)
  {
    hide ValidModel;
    hide Derived;
    hide Generates;
    hide Checked;
    hide Genuine;
    hide Checks.All;
    var m := engine.m;
    forall i | 0 <= i < |claims|
      ensures Generates(m, claims[i].c, claims[i].tokens) <==>
        Derived(m, claims[i]) == Some(claims[i].tokens) && StopRule(claims[i].c, claims[i].tokens)
    {
      AcceptsExactly(m, claims[i]);
    }
    forall i | 0 <= i < |claims| && Genuine(m, claims[i], h)
      ensures Generates(m, claims[i].c, claims[i].tokens)
    {
      GenuineGenerates(m, claims[i], h);
    }
    r := CheckClaims(engine, claims, h);
    if r.Some? {
      forall i | 0 <= i < |claims|
        ensures r.value[i].tokensMatch && r.value[i].stopRuleOk <==>
          Derived(m, claims[i]) == Some(claims[i].tokens) && StopRule(claims[i].c, claims[i].tokens)
      {
        CheckedTokens(m, claims[i], h, r.value[i]);
      }
      forall i | 0 <= i < |claims|
        ensures r.value[i].All() <==> Genuine(m, claims[i], h)
      {
        AllMeansGenuine(m, claims[i], h, r.value[i]);
      }
    }
  }

  lemma GenuineGenerates<D>(m: Model, claim: Claim<D>, h: Hashing<D>)
    requires ValidModel(m) && Genuine(m, claim, h)
    ensures Generates(m, claim.c, claim.tokens)
  {
  }

  /** All five checks of a claim pass exactly when generation would write it. */
  lemma AllMeansGenuine<D>(m: Model, claim: Claim<D>, h: Hashing<D>, k: Checks)
    requires ValidModel(m) && claim.c.prompt != [] && Checked(m, claim, h, k)
    ensures k.All() <==> Genuine(m, claim, h)
  {
    hide ValidModel;
    hide SlowRun;
    hide Generates;
    hide Derived;
    AcceptsExactly(m, claim);
    if StopRule(claim.c, claim.tokens) {
      assert claim.tokens[..|claim.tokens|] == claim.tokens;
      assert Forced(claim.c, claim.tokens) == Forwarded(claim.c, claim.tokens);
    }
  }

  lemma CheckedTokens<D>(m: Model, claim: Claim<D>, h: Hashing<D>, k: Checks)
    requires ValidModel(m) && Checked(m, claim, h, k)
    ensures k.tokensMatch && k.stopRuleOk <==>
      Derived(m, claim) == Some(claim.tokens) && StopRule(claim.c, claim.tokens)
  {
    hide Derived;
  }

  lemma ForcedRows<D>(engine: Fast.Engine, claims: seq<Claim<D>>, sequences: seq<seq<int>>, i: nat)
    requires ValidModel(engine.m) && |sequences| == |claims| && i < |claims|
    requires sequences[i] == Forced(claims[i].c, claims[i].tokens) && SlowRun(engine.m, sequences[i]).None?
    ensures Derived(engine.m, claims[i]).None?
  {
    hide SlowRun;
  }

  method CheckClaims<D(==)>(engine: Fast.Engine, claims: seq<Claim<D>>, h: Hashing<D>) returns (r: Option<seq<Checks>>)
    requires engine.Valid() && claims != [] && forall i | 0 <= i < |claims| :: ValidClaim(engine.m, claims[i])
    modifies engine
    ensures r.None? <==> exists i :: 0 <= i < |claims| && Derived(engine.m, claims[i]).None?
    ensures r.Some? ==> |r.value| == |claims|
    ensures r.Some? ==> forall i | 0 <= i < |claims| :: Checked(engine.m, claims[i], h, r.value[i])
  {
    hide ValidModel;
    hide SlowRun;
    hide Rederive;
    hide Derived;
    hide Checked;
    hide Forced;
    var m := engine.m;
    var sequences := seq(|claims|, i requires 0 <= i < |claims| => Forced(claims[i].c, claims[i].tokens));
    var emits := TeacherForced(engine, sequences);
    if emits.None? {
      ghost var i :| 0 <= i < |sequences| && (sequences[i] == [] || SlowRun(m, sequences[i]).None?);
      ForcedNonEmpty(claims[i].c, claims[i].tokens);
      ForcedRows(engine, claims, sequences, i);
      return None;
    }
    var checks: seq<Checks> := [];
    for i := 0 to |claims|
      invariant |checks| == i
      invariant forall j | 0 <= j < i :: Checked(m, claims[j], h, checks[j])
    {
      var logits := RowsOf(emits.value, Lengths(sequences), i);
      assert logits == SlowRun(m, sequences[i]).value.logits;
      RunRows(m, sequences[i]);
      var hashes, tokens := ReplayCase(claims[i], logits, h.row);
      DerivedIs(m, claims[i], logits);
      if tokens.None? {
        return None;
      }
      var k := Checks(claims[i].hashes == hashes, tokens.value == claims[i].tokens,
                      StopRule(claims[i].c, claims[i].tokens), claims[i].outputHash == h.output(claims[i].tokens),
                      claims[i].digest == h.digest(hashes));
      CheckedIs(m, claims[i], h, k, logits);
      checks := checks + [k];
    }
    forall i | 0 <= i < |claims| ensures Derived(m, claims[i]).Some? { CheckedSome(m, claims[i], h, checks[i]); }
    r := Some(checks);
  }

  lemma ForcedNonEmpty(c: Case, tokens: seq<int>)
    requires c.prompt != []
    ensures Forced(c, tokens) != []
  {
  }

  lemma DerivedIs<D>(m: Model, claim: Claim<D>, logits: Mat)
    requires ValidModel(m) && claim.c.prompt != [] && claim.c.maxTokens >= 1
    requires SlowRun(m, Forced(claim.c, claim.tokens)).Some?
    requires logits == SlowRun(m, Forced(claim.c, claim.tokens)).value.logits
    requires forall i | 0 <= i < |logits| :: logits[i] != []
    ensures Derived(m, claim) == Rederive(claim.c, claim.tokens, logits, Derivable(claim.c, claim.tokens))
  {
    hide SlowRun;
    hide Rederive;
  }

  lemma CheckedIs<D>(m: Model, claim: Claim<D>, h: Hashing<D>, k: Checks, logits: Mat)
    requires ValidModel(m) && Derived(m, claim).Some?
    requires logits == SlowRun(m, Forced(claim.c, claim.tokens)).value.logits
    requires k == Checks(claim.hashes == HashAll(h.row, logits), Derived(m, claim).value == claim.tokens,
                         StopRule(claim.c, claim.tokens), claim.outputHash == h.output(claim.tokens),
                         claim.digest == h.digest(HashAll(h.row, logits)))
    ensures Checked(m, claim, h, k)
  {
    hide SlowRun;
    hide Derived;
  }

  lemma CheckedSome<D>(m: Model, claim: Claim<D>, h: Hashing<D>, k: Checks)
    requires ValidModel(m) && Checked(m, claim, h, k)
    ensures Derived(m, claim).Some?
  {
    hide Derived;
  }
}
