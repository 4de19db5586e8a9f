/** What bytes hold: unsigned numbers lowest byte first, two's complement for
    signed ones, and arrays of them one after the other. */
module ByteMeaning {
  import opened Arithmetic
  import opened ByteCodec

  /** Bytes b hold the unsigned number u, lowest byte first. */
  predicate Holds(b: Vec, u: int)
  {
    || (|b| == 1 && u == b[0])
    || (|b| == 2 && u == b[0] + 0x100 * b[1])
    || (|b| == 4 && u == b[0] + 0x100 * b[1] + 0x1_0000 * b[2] + 0x100_0000 * b[3])
    || (|b| == 8 && u == b[0] + 0x100 * b[1] + 0x1_0000 * b[2] + 0x100_0000 * b[3]
                       + 0x1_0000_0000 * (b[4] + 0x100 * b[5] + 0x1_0000 * b[6] + 0x100_0000 * b[7]))
  }

  function Limit(w: nat): int
  {
    if w == 1 then 0x100 else if w == 2 then 0x1_0000 else if w == 4 then 0x1_0000_0000 else 0x1_0000_0000_0000_0000
  }

  /** x as an integer of w bytes is stored as the unsigned number u. */
  predicate IsInt(w: nat, signed: bool, u: int, x: int)
  {
    if signed && 2 * u >= Limit(w) then x == u - Limit(w) else x == u
  }

  lemma HoldsValue(b: Bytes, u: int)
    requires |b| in {1, 2, 4, 8}
    ensures Holds(b, u) <==> u == FromLittleEndian(b)
  {
    if |b| == 1 {
      FromOne(b);
    } else if |b| == 2 {
      FromTwo(b);
    } else if |b| == 4 {
      FromFour(b);
    } else {
      FromEight(b);
    }
  }

  lemma FromOne(b: Bytes)
    requires |b| == 1
    ensures Holds(b, FromLittleEndian(b))
  {
  }

  lemma FromTwo(b: Bytes)
    requires |b| == 2
    ensures Holds(b, FromLittleEndian(b))
  {
    FromOne(b[1..]);
  }

  lemma FromFour(b: Bytes)
    requires |b| == 4
    ensures Holds(b, FromLittleEndian(b))
  {
    assert b[1..][1..] == b[2..];
    FromTwo(b[2..]);
  }

  lemma FromEight(b: Bytes)
    requires |b| == 8
    ensures Holds(b, FromLittleEndian(b))
  {
    assert b[1..][1..] == b[2..] && b[2..][1..] == b[3..] && b[3..][1..] == b[4..];
    hide FromLittleEndian;
    FromFour(b[4..]);
    FromHead(b);
    FromHead(b[1..]);
    FromHead(b[2..]);
    FromHead(b[3..]);
  }

  lemma FromHead(b: Bytes)
    requires b != []
    ensures var v: Vec := b; FromLittleEndian(b) == v[0] + 256 * FromLittleEndian(b[1..])
  {
  }

  /** An integer is encoded in exactly the bytes that hold it. */
  lemma EncodedHolds(t: IntType, x: int, b: Bytes)
    requires t.width in {1, 2, 4, 8} && Fits(t, x)
    ensures EncodeInt(t, x) == b <==> |b| == t.width && exists u :: Holds(b, u) && IsInt(t.width, t.signed, u, x)
  {
    Pow256Values();
    if EncodeInt(t, x) == b {
      LittleEndianRoundTrip(Unsigned(t, x), t.width);
      HoldsValue(b, Unsigned(t, x));
    }
    if |b| == t.width {
      forall u | Holds(b, u) && IsInt(t.width, t.signed, u, x)
        ensures EncodeInt(t, x) == b
      {
        HoldsValue(b, u);
        FromLittleEndianRange(b);
        LittleEndianOnto(b);
      }
    }
    hide Pow256;
    hide LittleEndian;
    hide FromLittleEndian;
    hide Holds;
  }

  /** What bytes decode to. */
  lemma DecodedHolds(t: IntType, b: Bytes, x: int)
    requires t.width in {1, 2, 4, 8} && |b| == t.width
    ensures DecodeInt(t, b) == x <==> exists u :: Holds(b, u) && IsInt(t.width, t.signed, u, x)
  {
    Pow256Values();
    var v := FromLittleEndian(b);
    HoldsValue(b, v);
    forall u | Holds(b, u) ensures u == v { HoldsValue(b, u); }
    hide Pow256;
    hide FromLittleEndian;
    hide Holds;
  }

  /** Element i of an array is in bytes i * w to i * w + w. */
  lemma {:induction false} DecodedAt(t: IntType, b: Bytes, n: nat, i: nat)
    requires t.width > 0 && |b| == n * t.width && i < n
    ensures |DecodeAll(t, b)| == n && i * t.width + t.width <= |b|
    ensures DecodeAll(t, b)[i] == DecodeInt(t, b[i * t.width..i * t.width + t.width])
    decreases n
  {
    hide DecodeInt;
    var w := t.width;
    AllOnto(t, b, n);
    MulMono(i + 1, n, w);
    Distribute(i, 1, w);
    Distribute(n - 1, 1, w);
    MulMono(0, n - 1, w);
    if i > 0 {
      DecodedAt(t, b[w..], n - 1, i - 1);
      Distribute(i - 1, 1, w);
      assert b[w..][(i - 1) * w..(i - 1) * w + w] == b[i * w..i * w + w];
    }
  }
}
