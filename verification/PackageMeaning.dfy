/** The package format byte by byte: how a file begins, where each tensor
    starts, in which bytes a value stands, which rows pass, and what a gain is. */
module PackageMeaning {
  import opened Arithmetic
  import opened ByteCodec
  import opened ByteMeaning
  import opened PackageLayout
  import opened PackageFile
  import opened PackageReader
  import opened PackageWriter
  import opened Quantizer
  import QuantizerMeaning

  // ---- the beginning ---------------------------------------------------------------

  /** ARCIPKG1 and the length of the header text in eight bytes. */
  predicate BeginsWith(file: Bytes, n: nat)
  {
    && 16 + n <= |file|
    && file[0] == 0x41 && file[1] == 0x52 && file[2] == 0x43 && file[3] == 0x49
    && file[4] == 0x50 && file[5] == 0x4B && file[6] == 0x47 && file[7] == 0x31
    && Holds(file[8..16], n)
  }

  lemma BeginningMeaning(file: Bytes, n: nat)
    ensures BeginsWith(file, n) <==> HasHeader(file) && HeaderLength(file) == n
  {
    if |file| >= 16 {
      HoldsValue(file[8..16], n);
      hide Holds;
      hide FromLittleEndian;
      var b := file[..8];
      assert b == MAGIC <==> forall i | 0 <= i < 8 :: b[i] == MAGIC[i];
    }
  }

  /** The first multiple of 64 from n on. */
  predicate IsAligned(n: nat, r: nat) { r % 64 == 0 && n <= r < n + 64 }

  lemma AlignedIs(n: nat, r: nat)
    ensures IsAligned(n, r) <==> r == AlignTo(n, ALIGN)
  {
    var s := AlignTo(n, ALIGN);
    assert s % 64 == 0 && n <= s < n + 64;
    hide AlignTo;
    if IsAligned(n, r) { OneMultiple(r, s); }
  }

  lemma OneMultiple(r: nat, s: nat)
    requires r % 64 == 0 && s % 64 == 0 && -64 < r - s < 64
    ensures r == s
  {
  }

  /** The data starts on the first multiple of 64 behind the header text. */
  lemma StartMeaning(n: nat, start: nat)
    ensures IsAligned(16 + n, start) <==> start == DataStart(n)
  {
    AlignedIs(16 + n, start);
  }

  /** An accepted file is identified by its schema and profile, begins with its
      own rendered header, and its tensors start on the multiple of 64 behind. */
  lemma AcceptedBeginning(codec: Codec, file: Bytes, h: Header)
    requires WellFormed(codec, file, h)
    ensures h.schema == "arc.integer-package.v1" && h.profile == "arc.hf-llama.i8-dyadic-row.q16.v1"
    ensures var text := codec.render(h);
      && BeginsWith(file, |text|) && file[16..16 + |text|] == text && codec.parse(text) == Some(h)
      && IsAligned(16 + |text|, DataStart(|text|)) && DataStart(|text|) <= |file|
      && forall i | 16 + |text| <= i < DataStart(|text|) :: file[i] == 0
  {
    hide Place;
    hide Layout;
    hide Total;
    hide ValidShape;
    hide Padding;
    var n := HeaderLength(file);
    BeginningMeaning(file, n);
    StartMeaning(n, DataStart(n));
    hide DataStart;
    hide FromLittleEndian;
    hide Holds;
  }

  // ---- where tensors start ---------------------------------------------------------

  /** The width and sign of the values of a tensor. */
  predicate StoredAs(n: Name, w: nat, signed: bool)
  {
    match n
    case Scaled(_, Q) => w == 1 && signed
    case Scaled(_, Mu) => w == 4 && signed
    case Scaled(_, K) => w == 1 && !signed
    case RopeCos => w == 4 && signed
    case RopeSin => w == 4 && signed
    case _ => w == 8 && signed
  }

  /** How many values a tensor has. */
  function Count(m: Shape, n: Name): nat
  {
    match n
    case Scaled(b, Q) => BaseRows(m, b) * BaseCols(m, b)
    case Scaled(b, _) => BaseRows(m, b)
    case RopeCos => m.maxSeq * (m.dHead / 2)
    case RopeSin => m.maxSeq * (m.dHead / 2)
    case _ => m.dModel
  }

  lemma EntryMeaning(m: Shape, n: Name, w: nat, signed: bool)
    requires StoredAs(n, w, signed)
    ensures EntryFor(m, n).dtype == IntType(w, signed) && Product(EntryFor(m, n).shape) == Count(m, n)
  {
    hide Product;
    match n
    case Scaled(b, _) => Products(BaseRows(m, b), BaseCols(m, b));
    case RopeCos => Products(m.maxSeq, m.dHead / 2);
    case RopeSin => Products(m.maxSeq, m.dHead / 2);
    case _ => Products(m.dModel, 1);
  }

  lemma {:induction false} PlaceStep(layout: seq<Entry>, offset: nat, i: nat)
    requires i + 1 < |layout|
    ensures var p := Place(layout, offset);
      p[0].offset == offset && p[i].entry == layout[i] && p[i + 1].offset == AlignTo(p[i].End(), ALIGN)
  {
    hide EntryBytes;
    hide AlignTo;
    var next := AlignTo(offset + EntryBytes(layout[0]), ALIGN);
    if i > 0 {
      PlaceStep(layout[1..], next, i - 1);
    } else {
      assert Place(layout[1..], next)[0].offset == next;
    }
  }

  /** Tensors follow each other in the order of the layout: the first at offset
      0, each next one on the first multiple of 64 behind the last. */
  lemma OffsetMeaning(m: Shape, i: nat, w: nat, signed: bool)
    requires i + 1 < |Layout(m)| && StoredAs(Layout(m)[i].name, w, signed)
    ensures var p := Place(Layout(m), 0);
      p[0].offset == 0 && IsAligned(p[i].offset + w * Count(m, Layout(m)[i].name), p[i + 1].offset)
  {
    hide Place;
    hide LayoutUpTo;
    hide EntryFor;
    hide Product;
    hide AlignTo;
    PlaceStep(Layout(m), 0, i);
    EntryAt(m, m.layers, i);
    var e := Layout(m)[i];
    EntryMeaning(m, e.name, w, signed);
    hide Count;
    hide StoredAs;
    var p := Place(Layout(m), 0);
    assert p[i].End() == p[i].offset + w * Count(m, e.name) by { assert p[i].entry == e; }
    AlignedIs(p[i].End(), p[i + 1].offset);
  }

  // ---- in which bytes a value stands -----------------------------------------------

  /** Value i of a tensor of w-byte integers at a position of the file. */
  ghost predicate StandsAt(file: Bytes, pos: nat, w: nat, signed: bool, x: int)
  {
    pos + w <= |file| && exists u :: Holds(file[pos..pos + w], u) && IsInt(w, signed, u, x)
  }

  /** Where the values of tensor n start in the file. */
  function FirstByte(file: Bytes, h: Header, n: Name): nat
    requires HasHeader(file) && IndexOf(n) < |h.tensors|
  {
    DataStart(HeaderLength(file)) + h.tensors[IndexOf(n)].offset
  }

  /** Value i of tensor n is the integer in its own bytes of the file. */
  lemma ValueMeaning(codec: Codec, file: Bytes, h: Header, n: Name, i: nat, w: nat, signed: bool, x: int)
    requires WellFormed(codec, file, h) && InLayout(h.shape, n) && i < Count(h.shape, n) && StoredAs(n, w, signed)
    ensures HasHeader(file) && IndexOf(n) < |h.tensors| && h.tensors[IndexOf(n)].entry.name == n
    ensures |Tensor(file, h, n)| == Count(h.shape, n)
    ensures Tensor(file, h, n)[i] == x <==> StandsAt(file, FirstByte(file, h, n) + i * w, w, signed, x)
  {
    hide *;
    TensorIs(codec, file, h, n, w, signed);
    Widths(n, w, signed);
    DecodedStands(file, FirstByte(file, h, n), Count(h.shape, n), IntType(w, signed), i, x);
  }

  lemma TensorIs(codec: Codec, file: Bytes, h: Header, n: Name, w: nat, signed: bool)
    requires WellFormed(codec, file, h) && InLayout(h.shape, n) && StoredAs(n, w, signed)
    ensures HasHeader(file) && IndexOf(n) < |h.tensors| && h.tensors[IndexOf(n)].entry.name == n
    ensures var at, c := FirstByte(file, h, n), Count(h.shape, n);
      at + c * w <= |file| && Tensor(file, h, n) == DecodeAll(IntType(w, signed), file[at..at + c * w])
  {
    hide Place;
    hide LayoutUpTo;
    hide InLayout;
    hide Total;
    hide EntryFor;
    hide IndexOf;
    hide Product;
    hide Count;
    hide DecodeAll;
    hide WellFormed;
    hide DataStart;
    Laid(codec, file, h);
    EntryMeaning(h.shape, n, w, signed);
    Widths(n, w, signed);
    hide StoredAs;
    NamePlaced(h.shape, n);
    BlobInside(codec, file, h, n);
  }

  lemma Widths(n: Name, w: nat, signed: bool)
    requires StoredAs(n, w, signed)
    ensures w in {1, 2, 4, 8}
  {
  }

  lemma Laid(codec: Codec, file: Bytes, h: Header)
    requires WellFormed(codec, file, h)
    ensures HasHeader(file) && h.tensors == Place(Layout(h.shape), 0)
  {
  }

  lemma DecodedStands(file: Bytes, at: nat, n: nat, t: IntType, i: nat, x: int)
    requires t.width in {1, 2, 4, 8} && at + n * t.width <= |file| && i < n
    ensures var v := DecodeAll(t, file[at..at + n * t.width]);
      |v| == n && (v[i] == x <==> StandsAt(file, at + i * t.width, t.width, t.signed, x))
  {
    hide DecodeAll;
    hide DecodeInt;
    hide Holds;
    var w := t.width;
    var b := file[at..at + n * w];
    DecodedAt(t, b, n, i);
    MulMono(0, i, w);
    PartOfPart(file, at, n * w, i * w, w);
    DecodedHolds(t, b[i * w..i * w + w], x);
  }

  lemma PartOfPart(file: Bytes, at: nat, n: nat, k: nat, w: nat)
    requires at + n <= |file| && k + w <= n
    ensures file[at..at + n][k..k + w] == file[at + k..at + k + w]
  {
    var a, b := file[at..at + n][k..k + w], file[at + k..at + k + w];
    assert |a| == |b| && forall i | 0 <= i < w :: a[i] == file[at + k + i] == b[i];
  }

  lemma BlobInside(codec: Codec, file: Bytes, h: Header, n: Name)
    requires WellFormed(codec, file, h) && InLayout(h.shape, n)
    ensures IndexOf(n) < |h.tensors| && DataStart(HeaderLength(file)) + h.tensors[IndexOf(n)].End() <= |file|
  {
    hide LayoutUpTo;
    hide EntryFor;
    hide InLayout;
    hide IndexOf;
    hide ValidShape;
    hide Padding;
    hide ZeroRange;
    NamePlaced(h.shape, n);
    PlacedWithin(Layout(h.shape), 0, IndexOf(n));
    hide Place;
    hide Total;
  }

  // ---- which rows pass -------------------------------------------------------------

  /** Weights of magnitude at most 127 under a scale from 2^30 up to 2^31 with a
      shift from 16 to 62, or all zero under scale 0 and shift 16. */
  predicate IsScaledRow(q: Vec, mu: int, k: int)
  {
    && (forall j | 0 <= j < |q| :: -127 <= q[j] <= 127)
    && if mu == 0 then k == 16 && forall j | 0 <= j < |q| :: q[j] == 0
       else 0x4000_0000 <= mu < 0x8000_0000 && 16 <= k <= 62
  }

  lemma RowCheckMeaning(q: Vec, mu: int, k: int)
    requires AllFit(I8, q)
    ensures RowPasses(q, mu, k) <==> IsScaledRow(q, mu, k)
  {
    Pow256Values();
    hide Pow256;
    forall j | 0 <= j < |q| ensures -128 <= q[j] <= 127 { assert Fits(I8, q[j]); }
  }

  // ---- gains -----------------------------------------------------------------------

  /** g is the number with parts p times 2^16: exact when no bits are lost,
      otherwise to the nearest integer with halves going away from zero. */
  predicate IsGain(p: Parts, g: int)
  {
    && Abs(g) < 0x8000_0000_0000_0000 && (if p.s == 1 then g <= 0 else g >= 0)
    && if p.e >= -16 then Abs(g) == p.m * Pow2(p.e + 16) else RoundsTo(p.m, Pow2(-16 - p.e), Abs(g))
  }

  lemma GainMeaning(b: int, g: int)
    ensures NormGain(b) == Some(g) <==> exists p: Parts :: QuantizerMeaning.IsBf16(b, p) && IsGain(p, g)
  {
    hide Bf16Parts;
    hide QuantizerMeaning.IsBf16;
    hide Pow2;
    var r := Bf16Parts(b);
    if r.Some? {
      QuantizerMeaning.PartsMeaning(b, r.value);
      GainIs(b, r.value, g);
    }
    forall p: Parts | QuantizerMeaning.IsBf16(b, p) ensures r == Some(p) { QuantizerMeaning.PartsMeaning(b, p); }
    hide IsGain;
    if r.None? { assert NormGain(b).None?; }
    hide NormGain;
  }

  lemma GainIs(b: int, p: Parts, g: int)
    requires Bf16Parts(b) == Some(p)
    ensures NormGain(b) == Some(g) <==> IsGain(p, g)
  {
    hide Bf16Parts;
    hide Pow2;
    if p.e + 16 < 0 {
      var one := Pow2(-(p.e + 16));
      Pow2Double(-(p.e + 16) + 1);
      NearestAway(p.m, one);
      if RoundsTo(p.m, one, Abs(g)) { OnlyNearest(p.m, one, Abs(g)); }
    } else {
      MulMono(0, p.m, Pow2(p.e + 16));
    }
  }

  lemma OnlyNearest(m: nat, one: int, g: nat)
    requires one > 0 && RoundsTo(m, one, g)
    ensures g == (2 * m + one) / (2 * one)
  {
    Twice(g, one);
    DivUnique(2 * m + one, 2 * one, g);
  }
}
