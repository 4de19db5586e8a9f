/** Sequences stacked one after the other: where each one starts, which rows
    are its own, and the reshaping between rows of heads and heads of rows. */
module Stacking {
  import opened Arithmetic
  import opened Exponential
  import opened ExactMatmul
  import opened ModernOps
  import opened ModernModel
  import opened FastAttention

  /** The first row of sequence `s`; `Start(lengths, |lengths|)` is the total. */
  function Start(lengths: seq<nat>, s: nat): nat
    requires s <= |lengths|
  {
    if s == 0 then 0 else Start(lengths, s - 1) + lengths[s - 1]
  }

  lemma {:induction false} StartMono(lengths: seq<nat>, s: nat, t: nat)
    requires s <= t <= |lengths|
    ensures Start(lengths, s) <= Start(lengths, t)
    decreases t
  {
    if s < t { StartMono(lengths, s, t - 1); }
  }

  lemma BlockInRange(lengths: seq<nat>, s: nat)
    requires s < |lengths|
    ensures Start(lengths, s) + lengths[s] <= Start(lengths, |lengths|)
  {
    StartMono(lengths, s + 1, |lengths|);
  }

  /** The stacked row of position `p` of sequence `s`. */
  function RowOf(lengths: seq<nat>, s: nat, p: nat): (r: nat)
    requires s < |lengths| && p < lengths[s]
    ensures r < Start(lengths, |lengths|)
  {
    BlockInRange(lengths, s);
    Start(lengths, s) + p
  }

  /** The rows of sequence `s`. */
  function Block<T>(rows: seq<T>, lengths: seq<nat>, s: nat): (b: seq<T>)
    requires s < |lengths| && |rows| == Start(lengths, |lengths|)
    ensures |b| == lengths[s]
    ensures forall p | 0 <= p < lengths[s] :: b[p] == rows[RowOf(lengths, s, p)]
  {
    BlockInRange(lengths, s);
    rows[Start(lengths, s)..Start(lengths, s) + lengths[s]]
  }

  /** Every stacked row belongs to a sequence. */
  lemma {:induction false} OwnerOf(lengths: seq<nat>, n: nat, r: nat) returns (s: nat, p: nat)
    requires n <= |lengths| && r < Start(lengths, n)
    ensures s < n && p < lengths[s] && RowOf(lengths, s, p) == r
  {
    if r >= Start(lengths, n - 1) {
      s, p := n - 1, r - Start(lengths, n - 1);
    } else {
      s, p := OwnerOf(lengths, n - 1, r);
    }
  }

  // ---- heads ---------------------------------------------------------------

  /** Row `i` of the first `heads` heads, concatenated. */
  function JoinHeads(r: Ten, i: nat, heads: nat): Vec
    requires heads <= |r| && forall h | 0 <= h < |r| :: i < |r[h]|
  {
    if heads == 0 then [] else JoinHeads(r, i, heads - 1) + r[heads - 1][i]
  }

  function QueryHeads(m: Model, q: Mat): (r: Ten)
    requires Geometry(m) && forall i | 0 <= i < |q| :: |q[i]| == m.nHeads * m.dHead
    ensures |r| == m.nHeads && HeadStack(r, |q|, m.dHead)
  {
    seq(m.nHeads, h requires 0 <= h < m.nHeads =>
      SliceInRange(h, m.nHeads, m.dHead);
      HeadRows(q, h, m.dHead))
  }

  /** Keys or values repeated for every query head that reads them. */
  function CacheHeads(m: Model, k: Mat): (r: Ten)
    requires Geometry(m) && CacheRows(m, k)
    ensures |r| == m.nHeads && HeadStack(r, |k|, m.dHead)
  {
    seq(m.nHeads, h requires 0 <= h < m.nHeads => HeadRows(k, KvHead(m, h), m.dHead))
  }

  lemma HeadRowsBounded(rows: Mat, head: nat, d: nat, lim: int)
    requires forall j | 0 <= j < |rows| :: head * d + d <= |rows[j]| && Bounded(rows[j], lim)
    ensures forall j | 0 <= j < |rows| :: Bounded(HeadRows(rows, head, d)[j], lim)
  {
    forall j | 0 <= j < |rows|
      ensures Bounded(HeadRows(rows, head, d)[j], lim)
    {
    }
  }

  /** Causal attention on stacked heads, joined, is what each token of the
      sequence computes with the cache it has at its turn. */
  lemma {:induction false} JoinIsAttend(m: Model, q: Mat, k: Mat, v: Mat, r: Ten, i: nat, heads: nat)
    requires Geometry(m) && ValidTable(m.table) && |q| == |k| == |v| && i < |q| && heads <= m.nHeads
    requires (forall j | 0 <= j < |q| :: |q[j]| == m.nHeads * m.dHead) && CacheRows(m, k) && CacheRows(m, v)
    requires IsCausalAttention(r, m.table, QueryHeads(m, q), CacheHeads(m, k), CacheHeads(m, v), m.Lam(), |q|, m.dHead)
    requires |r| == m.nHeads && forall h | 0 <= h < |r| :: |r[h]| == |q|
    ensures JoinHeads(r, i, heads) == Attend(m, q[i], k[..i + 1], v[..i + 1], heads)
  {
    hide ValidTable;
    hide AttendHead;
    hide IsCausalAttention;
    if heads > 0 {
      JoinIsAttend(m, q, k, v, r, i, heads - 1);
      HeadIsAttend(m, q, k, v, r, i, heads - 1);
    }
  }

  lemma HeadIsAttend(m: Model, q: Mat, k: Mat, v: Mat, r: Ten, i: nat, h: nat)
    requires Geometry(m) && ValidTable(m.table) && |q| == |k| == |v| && i < |q| && h < m.nHeads
    requires (forall j | 0 <= j < |q| :: |q[j]| == m.nHeads * m.dHead) && CacheRows(m, k) && CacheRows(m, v)
    requires IsCausalAttention(r, m.table, QueryHeads(m, q), CacheHeads(m, k), CacheHeads(m, v), m.Lam(), |q|, m.dHead)
    ensures r[h][i] == AttendHead(m, q[i], k[..i + 1], v[..i + 1], h)
  {
    hide ValidTable;
    hide AttentionInt;
    SliceInRange(h, m.nHeads, m.dHead);
    var kv := KvHead(m, h);
    assert HeadRows(k, kv, m.dHead)[..i + 1] == HeadRows(k[..i + 1], kv, m.dHead);
    assert HeadRows(v, kv, m.dHead)[..i + 1] == HeadRows(v[..i + 1], kv, m.dHead);
  }

  /** Attention over an i32 cache stays inside i32. */
  lemma {:induction false} AttendFits(m: Model, q: Vec, keys: Mat, values: Mat, heads: nat)
    requires Geometry(m) && ValidTable(m.table) && heads <= m.nHeads && |q| == m.nHeads * m.dHead
    requires |keys| == |values| > 0 && CacheRows(m, keys) && CacheRows(m, values)
    requires forall j | 0 <= j < |values| :: FitsCache(values[j])
    ensures FitsCache(Attend(m, q, keys, values, heads))
  {
    hide ValidTable;
    hide AttendHead;
    hide CacheRows;
    if heads > 0 {
      AttendFits(m, q, keys, values, heads - 1);
      AttendHeadFits(m, q, keys, values, heads - 1);
    }
  }

  lemma AttendHeadFits(m: Model, q: Vec, keys: Mat, values: Mat, head: nat)
    requires Geometry(m) && ValidTable(m.table) && head < m.nHeads && |q| == m.nHeads * m.dHead
    requires |keys| == |values| > 0 && CacheRows(m, keys) && CacheRows(m, values)
    requires forall j | 0 <= j < |values| :: FitsCache(values[j])
    ensures FitsCache(AttendHead(m, q, keys, values, head))
  {
    hide ValidTable;
    hide AttentionInt;
    var kv, d := KvHead(m, head), m.dHead;
    SliceInRange(head, m.nHeads, d);
    HeadRowsFit(values, kv, d);
    var hq, hk, hv := HeadSlice(q, head, d), HeadRows(keys, kv, d), HeadRows(values, kv, d);
    forall c | 0 <= c < d
      ensures InI32(AttentionInt(m.table, hq, hk, hv, m.Lam())[c])
    {
      AttentionBetween(m.table, hq, hk, hv, m.Lam(), c, -TWO31, TWO31 - 1);
    }
  }

  lemma HeadRowsFit(rows: Mat, head: nat, d: nat)
    requires forall j | 0 <= j < |rows| :: head * d + d <= |rows[j]| && FitsCache(rows[j])
    ensures forall j | 0 <= j < |rows| :: FitsCache(HeadRows(rows, head, d)[j])
  {
  }
}
