/** Choosing the next token: the repetition penalty of the last 64 generated
    tokens and the first index of a maximum, in both profiles. */
module Selection {
  import opened Arithmetic

  /** One penalty step on a logit; None refuses. */
  type Step = int -> Option<int>

  /** The dyadic profile refuses a penalised logit beyond 2^62. */
  function Step62(v: int): Option<int>
  {
    var p := if v > 0 then TDiv(5 * v, 6) else TDiv(6 * v, 5);
    if Abs(p) <= LIM62 then Some(p) else None
  }

  /** The legacy profile refuses a product outside int64. */
  function StepI64(v: int): Option<int>
  {
    if v > 0 then
      if InI64(v * 5) then Some(TDiv(v * 5, 6)) else None
    else
      if InI64(v * 6) then Some(TDiv(v * 6, 5)) else None
  }

  datatype Profile = Dyadic | Legacy

  function StepOf(p: Profile): Step { if p.Dyadic? then Step62 else StepI64 }

  /** Whether a token names a logit at all: the dyadic profile indexes an array,
      from the end when the token is negative, and fails outside it; the legacy
      profile skips such tokens. */
  predicate Indexable(p: Profile, t: int, n: nat) { p.Legacy? || -(n as int) <= t < n }

  /** The logit a token names. */
  function IndexOf(p: Profile, t: int, n: nat): (r: Option<nat>)
    ensures r.Some? ==> r.value < n
  {
    if 0 <= t < n then Some(t)
    else if p.Dyadic? && -(n as int) <= t < 0 then Some(t + n)
    else None
  }

  /** The 64 newest tokens, newest first. */
  function Window(history: seq<int>): (w: seq<int>)
    ensures |w| == Min(64, |history|)
  {
    var n := |history|;
    seq(Min(64, n), i requires 0 <= i < n => history[n - 1 - i])
  }

  /** Steps on the logits named by `tokens`, in order. */
  function Apply(p: Profile, logits: Vec, tokens: seq<int>): (r: Option<Vec>)
    ensures r.Some? ==> |r.value| == |logits|
    decreases |tokens|
  {
    if tokens == [] then Some(logits)
    else if !Indexable(p, tokens[0], |logits|) then None
    else
      match IndexOf(p, tokens[0], |logits|)
      case None => Apply(p, logits, tokens[1..])
      case Some(k) =>
        match StepOf(p)(logits[k])
        case None => None
        case Some(v) => Apply(p, logits[k := v], tokens[1..])
  }

  /** `n` steps on one logit. */
  function Iterate(step: Step, v: int, n: nat): Option<int>
    decreases n
  {
    if n == 0 then Some(v)
    else
      match step(v)
      case None => None
      case Some(w) => Iterate(step, w, n - 1)
  }

  /** How many of `tokens` name logit `k` of `n`. */
  function Hits(p: Profile, tokens: seq<int>, n: nat, k: nat): nat
  {
    multiset(tokens)[k] + if p.Dyadic? then multiset(tokens)[k - n] else 0
  }

  lemma HitsStep(p: Profile, tokens: seq<int>, n: nat, k: nat)
    requires tokens != [] && k < n
    ensures Hits(p, tokens, n, k) == Hits(p, tokens[1..], n, k) + (if IndexOf(p, tokens[0], n) == Some(k) then 1 else 0)
  {
    assert tokens == [tokens[0]] + tokens[1..];
  }

  predicate AllIndexable(p: Profile, tokens: seq<int>, n: nat) { forall t | t in tokens :: Indexable(p, t, n) }

  /** Each logit is stepped once per token that names it, and the penalty is
      refused exactly when a token cannot be indexed or some logit's own steps
      are refused. */
  lemma {:induction false} ApplyIsPointwise(p: Profile, logits: Vec, tokens: seq<int>)
    ensures Apply(p, logits, tokens).None? <==>
      || !AllIndexable(p, tokens, |logits|)
      || exists k :: 0 <= k < |logits| && Iterate(StepOf(p), logits[k], Hits(p, tokens, |logits|, k)).None?
    ensures Apply(p, logits, tokens).Some? ==>
      forall k | 0 <= k < |logits| ::
        Iterate(StepOf(p), logits[k], Hits(p, tokens, |logits|, k)) == Some(Apply(p, logits, tokens).value[k])
    decreases |tokens|
  {
    hide StepOf;
    var n := |logits|;
    if tokens == [] {
      assert forall k | 0 <= k < n :: Hits(p, tokens, n, k) == 0;
    } else {
      forall k | 0 <= k < n
        ensures Hits(p, tokens, n, k)
             == Hits(p, tokens[1..], n, k) + (if IndexOf(p, tokens[0], n) == Some(k) then 1 else 0)
      {
        HitsStep(p, tokens, n, k);
      }
      hide Hits;
      FirstIndexable(p, tokens, n);
      hide AllIndexable;
      if Indexable(p, tokens[0], n) {
        var at := IndexOf(p, tokens[0], n);
        if at.None? {
          ApplyIsPointwise(p, logits, tokens[1..]);
        } else if StepOf(p)(logits[at.value]).None? {
          assert Iterate(StepOf(p), logits[at.value], Hits(p, tokens, n, at.value)).None?;
        } else {
          var next := logits[at.value := StepOf(p)(logits[at.value]).value];
          ApplyIsPointwise(p, next, tokens[1..]);
          forall k | 0 <= k < n
            ensures Iterate(StepOf(p), logits[k], Hits(p, tokens, n, k))
                 == Iterate(StepOf(p), next[k], Hits(p, tokens[1..], n, k))
          {
          }
        }
      }
    }
  }

  lemma FirstIndexable(p: Profile, tokens: seq<int>, n: nat)
    requires tokens != []
    ensures AllIndexable(p, tokens, n) <==> Indexable(p, tokens[0], n) && AllIndexable(p, tokens[1..], n)
  {
    assert tokens == [tokens[0]] + tokens[1..];
  }

  /** The order of the tokens does not matter, only how often each occurs. */
  lemma ApplyOrderFree(p: Profile, logits: Vec, a: seq<int>, b: seq<int>)
    requires multiset(a) == multiset(b)
    ensures Apply(p, logits, a) == Apply(p, logits, b)
  {
    ApplyIsPointwise(p, logits, a);
    ApplyIsPointwise(p, logits, b);
    var n, x, y := |logits|, Apply(p, logits, a), Apply(p, logits, b);
    assert AllIndexable(p, a, n) == AllIndexable(p, b, n) by {
      assert forall t :: t in a <==> t in multiset(a);
      assert forall t :: t in b <==> t in multiset(b);
    }
    assert forall k: nat :: Hits(p, a, n, k) == Hits(p, b, n, k);
    hide AllIndexable;
    hide Hits;
    if x.Some? && y.Some? {
      forall k | 0 <= k < n
        ensures x.value[k] == y.value[k]
      {
        assert Iterate(StepOf(p), logits[k], Hits(p, a, n, k)) == Some(x.value[k]);
        assert Iterate(StepOf(p), logits[k], Hits(p, b, n, k)) == Some(y.value[k]);
      }
      assert x.value == y.value;
    }
  }

  lemma {:induction false} IterateLowers(p: Profile, v: int, n: nat)
    requires Iterate(StepOf(p), v, n).Some?
    ensures Iterate(StepOf(p), v, n).value <= v
    decreases n
  {
    if n > 0 { IterateLowers(p, StepOf(p)(v).value, n - 1); }
  }

  /** The penalty never raises a logit and leaves those no token names alone. */
  lemma PenaltyLowers(p: Profile, logits: Vec, tokens: seq<int>, k: nat)
    requires k < |logits| && Apply(p, logits, tokens).Some?
    ensures Apply(p, logits, tokens).value[k] <= logits[k]
    ensures Hits(p, tokens, |logits|, k) == 0 ==> Apply(p, logits, tokens).value[k] == logits[k]
  {
    ApplyIsPointwise(p, logits, tokens);
    IterateLowers(p, logits[k], Hits(p, tokens, |logits|, k));
  }

  // ---- argmax ----------------------------------------------------------------

  /** `k` is the lowest index of a maximum. */
  ghost predicate IsArgmax(v: Vec, k: nat)
  {
    && k < |v|
    && (forall j | 0 <= j < |v| :: v[j] <= v[k])
    && (forall j | 0 <= j < k :: v[j] < v[k])
  }

  function Argmax(v: Vec): (k: nat)
    requires v != []
    ensures IsArgmax(v, k)
  {
    if |v| == 1 then 0
    else
      var n := |v| - 1;
      var k := Argmax(v[..n]);
      if v[n] > v[k] then n else k
  }

  lemma ArgmaxUnique(v: Vec, j: nat, k: nat)
    requires IsArgmax(v, j) && IsArgmax(v, k)
    ensures j == k
  {
    assert v[j] <= v[k] <= v[j];
  }

  /** The scan of the source; it answers 0 on an empty list. */
  method ScanArgmax(v: Vec) returns (best: nat)
    ensures if v == [] then best == 0 else best == Argmax(v)
  {
    best := 0;
    if v != [] {
      for i := 1 to |v|
        invariant best < i && IsArgmax(v[..i], best)
      {
        if v[i] > v[best] {
          best := i;
        }
      }
      assert v[..|v|] == v;
      ArgmaxUnique(v, best, Argmax(v));
    }
  }

  datatype Rule = Greedy | Penalised

  /** The token a rule selects, or a refusal. */
  function Select(p: Profile, logits: Vec, history: seq<int>, rule: Rule): (r: Option<nat>)
    requires logits != []
    ensures r.Some? ==> r.value < |logits|
  {
    match rule
    case Greedy => Some(Argmax(logits))
    case Penalised =>
      match Apply(p, logits, Window(history))
      case None => None
      case Some(arr) => Some(Argmax(arr))
  }

  /** Newest first, once per occurrence, then the scan. */
  method SelectNext(p: Profile, logits: Vec, history: seq<int>, rule: Rule) returns (r: Option<nat>)
    requires logits != []
    ensures r == Select(p, logits, history, rule)
  {
    hide StepOf;
    var arr := logits;
    if rule == Penalised {
      var w := Window(history);
      assert w[0..] == w;
      for i := 0 to |w|
        invariant |arr| == |logits| && Apply(p, logits, w) == Apply(p, arr, w[i..])
      {
        var t := w[i];
        assert w[i..][0] == t && w[i..][1..] == w[i + 1..];
        if !Indexable(p, t, |arr|) {
          return None;
        }
        var at := IndexOf(p, t, |arr|);
        if at.Some? {
          var v := StepOf(p)(arr[at.value]);
          if v.None? {
            return None;
          }
          arr := arr[at.value := v.value];
        }
      }
      assert w[|w|..] == [];
    }
    var best := ScanArgmax(arr);
    r := Some(best);
  }

  /** Selection looks at nothing but the multiset of the newest 64 tokens. */
  lemma SelectOrderFree(p: Profile, logits: Vec, a: seq<int>, b: seq<int>, rule: Rule)
    requires logits != [] && multiset(Window(a)) == multiset(Window(b))
    ensures Select(p, logits, a, rule) == Select(p, logits, b, rule)
  {
    ApplyOrderFree(p, logits, Window(a), Window(b));
  }

  /** When the raw maximum is not among them, neither by its own number nor
      counted from the end, it is selected. */
  lemma UnpenalisedWins(p: Profile, logits: Vec, history: seq<int>)
    requires logits != [] && Argmax(logits) !in Window(history)
    requires p.Dyadic? ==> Argmax(logits) - |logits| !in Window(history)
    requires Apply(p, logits, Window(history)).Some?
    ensures Select(p, logits, history, Penalised) == Some(Argmax(logits))
  {
    hide Apply;
    var k, w := Argmax(logits), Window(history);
    assert Hits(p, w, |logits|, k) == 0;
    hide Hits;
    var arr := Apply(p, logits, w).value;
    forall j | 0 <= j < |logits|
      ensures arr[j] <= logits[j] && (j == k ==> arr[j] == logits[j])
    {
      PenaltyLowers(p, logits, w, j);
    }
    ArgmaxUnique(arr, k, Argmax(arr));
  }
}
