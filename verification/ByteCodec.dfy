/** Little-endian integers, unsigned and two's complement, as both binary
    formats store them. */
module ByteCodec {
  import opened Arithmetic

  type Byte = x: int | 0 <= x < 256

  type Bytes = seq<Byte>

  const TWO64: int := 0x1_0000_0000_0000_0000

  function Pow256(w: nat): (r: nat)
    ensures r > 0
  {
    if w == 0 then 1 else 256 * Pow256(w - 1)
  }

  lemma Pow256Values()
    ensures Pow256(1) == 256 && Pow256(2) == 0x1_0000 && Pow256(4) == TWO32
    ensures Pow256(8) == 0x1_0000_0000_0000_0000
  {
    assert Pow256(4) == 256 * Pow256(3);
    assert Pow256(8) == 256 * Pow256(7);
    assert Pow256(6) == 256 * Pow256(5);
  }

  function LittleEndian(x: nat, w: nat): (b: Bytes)
    ensures |b| == w
    decreases w
  {
    if w == 0 then [] else [x % 256] + LittleEndian(x / 256, w - 1)
  }

  function FromLittleEndian(b: Bytes): nat
  {
    if b == [] then 0 else b[0] + 256 * FromLittleEndian(b[1..])
  }

  lemma {:induction false} FromLittleEndianRange(b: Bytes)
    ensures FromLittleEndian(b) < Pow256(|b|)
  {
    if b != [] { FromLittleEndianRange(b[1..]); }
  }

  /** What fits in `w` bytes is read back. */
  lemma {:induction false} LittleEndianRoundTrip(x: nat, w: nat)
    requires x < Pow256(w)
    ensures FromLittleEndian(LittleEndian(x, w)) == x
    decreases w
  {
    if w > 0 {
      LittleEndianRoundTrip(x / 256, w - 1);
      assert LittleEndian(x, w)[1..] == LittleEndian(x / 256, w - 1);
    }
  }

  /** Every byte string is the writing of what it reads as. */
  lemma {:induction false} LittleEndianOnto(b: Bytes)
    ensures LittleEndian(FromLittleEndian(b), |b|) == b
  {
    if b != [] {
      LittleEndianOnto(b[1..]);
      var r := FromLittleEndian(b[1..]);
      assert (b[0] + 256 * r) / 256 == r && (b[0] + 256 * r) % 256 == b[0];
    }
  }

  // ---- fixed-width integers -----------------------------------------------------

  /** Width in bytes and signedness. */
  datatype IntType = IntType(width: nat, signed: bool)

  predicate Fits(t: IntType, v: int)
  {
    if t.signed then 0 - Pow256(t.width) <= 2 * v < Pow256(t.width) else 0 <= v < Pow256(t.width)
  }

  function Unsigned(t: IntType, v: int): (x: nat)
    requires Fits(t, v)
  {
    if v < 0 then v + Pow256(t.width) else v
  }

  function EncodeInt(t: IntType, v: int): (b: Bytes)
    requires Fits(t, v)
    ensures |b| == t.width
  {
    LittleEndian(Unsigned(t, v), t.width)
  }

  function DecodeInt(t: IntType, b: Bytes): int
  {
    var x := FromLittleEndian(b);
    if t.signed && 2 * x >= Pow256(t.width) then x - Pow256(t.width) else x
  }

  lemma IntRoundTrip(t: IntType, v: int)
    requires Fits(t, v)
    ensures DecodeInt(t, EncodeInt(t, v)) == v
  {
    LittleEndianRoundTrip(Unsigned(t, v), t.width);
  }

  lemma IntOnto(t: IntType, b: Bytes)
    requires |b| == t.width
    ensures Fits(t, DecodeInt(t, b)) && EncodeInt(t, DecodeInt(t, b)) == b
  {
    FromLittleEndianRange(b);
    LittleEndianOnto(b);
  }

  // ---- arrays of them -----------------------------------------------------------

  predicate AllFit(t: IntType, v: Vec)
  {
    forall i | 0 <= i < |v| :: Fits(t, v[i])
  }

  function EncodeAll(t: IntType, v: Vec): (b: Bytes)
    requires AllFit(t, v)
  {
    if v == [] then [] else EncodeInt(t, v[0]) + EncodeAll(t, v[1..])
  }

  function DecodeAll(t: IntType, b: Bytes): (v: Vec)
    requires t.width > 0
  {
    if |b| < t.width then [] else [DecodeInt(t, b[..t.width])] + DecodeAll(t, b[t.width..])
  }

  lemma {:induction false} EncodeAllLength(t: IntType, v: Vec)
    requires AllFit(t, v)
    ensures |EncodeAll(t, v)| == |v| * t.width
  {
    if v != [] {
      EncodeAllLength(t, v[1..]);
      Distribute(1, |v| - 1, t.width);
    }
  }

  lemma {:induction false} AllRoundTrip(t: IntType, v: Vec)
    requires AllFit(t, v) && t.width > 0
    ensures DecodeAll(t, EncodeAll(t, v)) == v
  {
    hide DecodeInt;
    hide EncodeInt;
    hide Fits;
    if v != [] {
      IntRoundTrip(t, v[0]);
      AllRoundTrip(t, v[1..]);
      var b, head := EncodeAll(t, v), EncodeInt(t, v[0]);
      assert b[..t.width] == head && b[t.width..] == EncodeAll(t, v[1..]);
    }
  }

  lemma {:induction false} EncodeAllAppend(t: IntType, u: Vec, v: Vec)
    requires AllFit(t, u) && AllFit(t, v)
    ensures EncodeAll(t, u + v) == EncodeAll(t, u) + EncodeAll(t, v)
  {
    hide EncodeInt;
    hide Fits;
    if u == [] {
      assert u + v == v;
    } else {
      assert (u + v)[1..] == u[1..] + v && (u + v)[0] == u[0];
      EncodeAllAppend(t, u[1..], v);
    }
  }

  /** Whole groups of bytes are the writing of what they read as. */
  lemma {:induction false} AllOnto(t: IntType, b: Bytes, n: nat)
    requires t.width > 0 && |b| == n * t.width
    ensures |DecodeAll(t, b)| == n && AllFit(t, DecodeAll(t, b)) && EncodeAll(t, DecodeAll(t, b)) == b
    decreases n
  {
    hide DecodeInt;
    hide EncodeInt;
    hide Fits;
    if n > 0 {
      Distribute(n - 1, 1, t.width);
      MulMono(0, n - 1, t.width);
      IntOnto(t, b[..t.width]);
      AllOnto(t, b[t.width..], n - 1);
      var v, rest := DecodeAll(t, b), DecodeAll(t, b[t.width..]);
      assert v[1..] == rest;
      assert b == b[..t.width] + b[t.width..];
    }
  }

  // ---- alignment ------------------------------------------------------------------

  function ZeroBytes(n: nat): (b: Bytes)
    ensures |b| == n && forall i | 0 <= i < n :: b[i] == 0
  {
    Zeros(n)
  }

  /** The next multiple of `a`. */
  function AlignTo(n: nat, a: nat): (r: nat)
    requires a > 0
    ensures r % a == 0 && n <= r < n + a
  {
    DivBounds(n + a - 1, a);
    MultipleOf((n + a - 1) / a, a);
    (n + a - 1) / a * a
  }

  lemma MultipleOf(q: int, a: int)
    requires a > 0
    ensures (q * a) % a == 0
  {
    DivOfMultiple(q, 0, a);
    assert q * a == (q * a) / a * a + (q * a) % a;
  }

  /** Zeros up to the next multiple of `a`. */
  function PadTo(b: Bytes, a: nat): (r: Bytes)
    requires a > 0
    ensures |r| == AlignTo(|b|, a) && r[..|b|] == b
  {
    b + ZeroBytes(AlignTo(|b|, a) - |b|)
  }

  /** Aligning past an aligned offset. */
  lemma AlignShift(base: nat, n: nat, a: nat)
    requires a > 0 && base % a == 0
    ensures AlignTo(base + n, a) == base + AlignTo(n, a)
  {
    var q := base / a;
    assert base == q * a;
    DivOfMultiple(q, n + a - 1, a);
    Distribute(q, (n + a - 1) / a, a);
  }
}
