/** What selection computes: one penalty step as inequalities, the penalised
    logits as chains of such steps, and the token a rule selects. */
module SelectionMeaning {
  import opened Arithmetic
  import opened Rounding
  import opened Selection

  /** w is 5/6 of a positive logit or 6/5 of any other, rounded towards zero. */
  predicate IsScaled(v: int, w: int)
  {
    if v > 0 then 6 * w <= 5 * v < 6 * w + 6 else 5 * w - 5 < 6 * v <= 5 * w
  }

  /** The dyadic profile bounds the result, the legacy profile the product. */
  predicate IsAdmitted(p: Profile, v: int, w: int)
  {
    if p.Dyadic? then -0x4000_0000_0000_0000 <= w <= 0x4000_0000_0000_0000
    else -0x8000_0000_0000_0000 <= (if v > 0 then 5 * v else 6 * v) < 0x8000_0000_0000_0000
  }

  predicate IsStep(p: Profile, v: int, w: int) { IsScaled(v, w) && IsAdmitted(p, v, w) }

  lemma StepMeaning(p: Profile, v: int, w: int)
    ensures StepOf(p)(v) == Some(w) <==> IsStep(p, v, w)
  {
    if v > 0 {
      TDivIsTruncation(5 * v, 6, w);
      TDivIsTruncation(5 * v, 6, TDiv(5 * v, 6));
    } else {
      TDivIsTruncation(6 * v, 5, w);
      TDivIsTruncation(6 * v, 5, TDiv(6 * v, 5));
    }
    hide TDiv;
  }

  /** A step is refused exactly for logits beyond these bounds. */
  lemma StepRefused(p: Profile, v: int)
    ensures StepOf(p)(v).None? <==>
      if p.Dyadic? then 5 * v >= 6 * 0x4000_0000_0000_0001 || 6 * v <= -5 * 0x4000_0000_0000_0001
      else 5 * v >= 0x8000_0000_0000_0000 || 6 * v < -0x8000_0000_0000_0000
  {
    var w := if v > 0 then TDiv(5 * v, 6) else TDiv(6 * v, 5);
    if v > 0 { TDivIsTruncation(5 * v, 6, w); } else { TDivIsTruncation(6 * v, 5, w); }
    StepMeaning(p, v, w);
    if StepOf(p)(v).Some? { StepMeaning(p, v, StepOf(p)(v).value); }
    hide TDiv;
    hide StepOf;
  }

  /** w is v after n steps. */
  ghost predicate IsPenalised(p: Profile, v: int, n: nat, w: int)
    decreases n
  {
    if n == 0 then w == v
    else
      var k: nat := n - 1;
      exists u: int :: IsStep(p, v, u) && IsPenalised(p, u, k, w)
  }

  lemma {:induction false} IterateMeaning(p: Profile, v: int, n: nat, w: int)
    ensures Iterate(StepOf(p), v, n) == Some(w) <==> IsPenalised(p, v, n, w)
    decreases n
  {
    hide StepOf;
    hide IsStep;
    if n > 0 {
      var r := StepOf(p)(v);
      if r.Some? {
        StepMeaning(p, v, r.value);
        IterateMeaning(p, r.value, n - 1, w);
      }
      forall u: int | IsStep(p, v, u) ensures r == Some(u) { StepMeaning(p, v, u); }
    }
  }

  /** The newest 64 tokens. */
  function Newest(history: seq<int>): seq<int> { if |history| <= 64 then history else history[|history| - 64..] }

  lemma {:induction false} ReversedBag(a: seq<int>, b: seq<int>)
    requires |a| == |b| && forall i | 0 <= i < |a| :: a[i] == b[|a| - 1 - i]
    ensures multiset(a) == multiset(b)
  {
    if a != [] {
      var n := |a| - 1;
      ReversedBag(a[1..], b[..n]);
      assert a == [a[0]] + a[1..] && b == b[..n] + [b[n]];
    }
  }

  lemma WindowIsNewest(history: seq<int>)
    ensures multiset(Window(history)) == multiset(Newest(history))
  {
    ReversedBag(Window(history), Newest(history));
  }

  /** How often the newest tokens name logit k of n: by its number, and in the
      dyadic profile also counted from the end. */
  function Named(p: Profile, history: seq<int>, n: nat, k: nat): nat
  {
    var bag := multiset(Newest(history));
    if p.Dyadic? then bag[k] + bag[k - n] else bag[k]
  }

  /** The penalised logits: every logit stepped as often as it is named. */
  ghost predicate ArePenalised(p: Profile, logits: Vec, history: seq<int>, arr: Vec)
  {
    && |arr| == |logits|
    && (p.Dyadic? ==> forall t | t in Newest(history) :: -(|logits| as int) <= t < |logits|)
    && forall k | 0 <= k < |logits| :: IsPenalised(p, logits[k], Named(p, history, |logits|, k), arr[k])
  }

  lemma ApplyMeaning(p: Profile, logits: Vec, history: seq<int>, arr: Vec)
    ensures Apply(p, logits, Window(history)) == Some(arr) <==> ArePenalised(p, logits, history, arr)
  {
    hide StepOf;
    hide Iterate;
    hide IsPenalised;
    hide Newest;
    hide Apply;
    var n, w := |logits|, Window(history);
    hide Window;
    WindowIsNewest(history);
    ApplyIsPointwise(p, logits, w);
    SameTokens(p, history, n);
    forall k | 0 <= k < n
      ensures Hits(p, w, n, k) == Named(p, history, n, k)
    {
    }
    if |arr| == n {
      forall k | 0 <= k < n
        ensures Iterate(StepOf(p), logits[k], Hits(p, w, n, k)) == Some(arr[k])
          <==> IsPenalised(p, logits[k], Named(p, history, n, k), arr[k])
      {
        IterateMeaning(p, logits[k], Hits(p, w, n, k), arr[k]);
      }
    }
    hide Hits;
    hide Named;
    hide AllIndexable;
    if ArePenalised(p, logits, history, arr) {
      assert forall k | 0 <= k < n :: Iterate(StepOf(p), logits[k], Hits(p, w, n, k)) == Some(arr[k]);
      assert Apply(p, logits, w).value == arr;
    }
  }

  lemma SameTokens(p: Profile, history: seq<int>, n: nat)
    ensures AllIndexable(p, Window(history), n) <==>
      (p.Dyadic? ==> forall t | t in Newest(history) :: -(n as int) <= t < n)
  {
    WindowIsNewest(history);
    hide Newest;
    hide Window;
    assert forall t :: t in Window(history) <==> t in multiset(Window(history));
    assert forall t :: t in Newest(history) <==> t in multiset(Newest(history));
  }

  /** The selected token is the lowest index of a maximum: of the logits
      themselves, or of the penalised ones. */
  lemma SelectMeaning(p: Profile, logits: Vec, history: seq<int>, rule: Rule, r: nat)
    requires logits != []
    ensures Select(p, logits, history, rule) == Some(r) <==>
      if rule.Greedy? then IsArgmax(logits, r)
      else exists arr: Vec :: ArePenalised(p, logits, history, arr) && IsArgmax(arr, r)
  {
    hide Apply;
    hide ArePenalised;
    hide Window;
    if rule.Greedy? {
      if IsArgmax(logits, r) { ArgmaxUnique(logits, r, Argmax(logits)); }
    } else {
      var a := Apply(p, logits, Window(history));
      if a.Some? {
        ApplyMeaning(p, logits, history, a.value);
        if IsArgmax(a.value, r) { ArgmaxUnique(a.value, r, Argmax(a.value)); }
      }
      forall arr: Vec | ArePenalised(p, logits, history, arr)
        ensures a == Some(arr)
      {
        ApplyMeaning(p, logits, history, arr);
      }
    }
  }
}
