/** Preparing a package: quantise, convert, place and pad; and the round trip
    through the reader. */
module PackageWriter {
  import opened Arithmetic
  import opened ByteCodec
  import opened PackageLayout
  import opened PackageFile
  import opened PackageReader
  import opened Quantizer
  import opened QuantizerAccuracy

  /** The pinned source tensors as BF16 patterns, and the finished tables. */
  datatype Source = Source(rows: Base -> Mat, norm: Name -> Vec, cos: Mat, sin: Mat)

  // ---- norm gains -------------------------------------------------------------------

  /** round-half-away(v * 2^16), refused when it does not fit in int64. */
  function NormGain(b: int): Option<int>
  {
    var p :- Bf16Parts(b);
    var g := if p.e + 16 >= 0 then p.m * Pow2(p.e + 16) else (2 * p.m + Pow2(-(p.e + 16))) / Pow2(-(p.e + 16) + 1);
    if g >= TWO63 then None else Some(if p.s == 1 then -g else g)
  }

  /** g / 1 is the closest integer to m / one, halves going up. */
  predicate RoundsTo(m: nat, one: int, g: int) { -one <= 2 * m - 2 * (g * one) < one }

  /** The magnitude of a gain is that of v * 2^16, exactly when no bits are lost
      and rounded half away from zero otherwise; the sign is kept. */
  lemma GainRounds(b: int)
    requires NormGain(b).Some?
    ensures var p, g := Bf16Parts(b).value, NormGain(b).value;
      && InI64(g) && g == (if p.s == 1 then 0 - Abs(g) else Abs(g))
      && if p.e + 16 >= 0 then Abs(g) == p.m * Pow2(p.e + 16) else RoundsTo(p.m, Pow2(-(p.e + 16)), Abs(g))
  {
    hide Bf16Parts;
    hide Pow2;
    hide RoundsTo;
    var p := Bf16Parts(b).value;
    if p.e + 16 < 0 {
      var c := -(p.e + 16);
      Pow2Double(c + 1);
      NearestAway(p.m, Pow2(c));
    } else {
      MulMono(0, p.m, Pow2(p.e + 16));
    }
  }

  lemma NearestAway(m: nat, one: int)
    requires one > 0
    ensures var g := (2 * m + one) / (2 * one); g >= 0 && RoundsTo(m, one, g)
  {
    var x, d := 2 * m + one, 2 * one;
    var g := x / d;
    DivMono(0, x, d);
    DivBounds(x, d);
    Twice(g, one);
  }

  function Gains(bits: Vec): (r: Option<Vec>)
    ensures r.Some? ==> |r.value| == |bits|
  {
    if forall j | 0 <= j < |bits| :: NormGain(bits[j]).Some? then
      Some(seq(|bits|, j requires 0 <= j < |bits| && NormGain(bits[j]).Some? => NormGain(bits[j]).value))
    else None
  }

  // ---- quantised matrices ------------------------------------------------------------

  /** Every row by the rule, or a refusal. */
  function QuantizeAll(rows: Mat): (r: Option<seq<Quantized>>)
    ensures r.Some? ==> |r.value| == |rows| && forall i | 0 <= i < |rows| :: QuantizeRow(rows[i]) == Some(r.value[i])
    ensures r.None? ==> exists i | 0 <= i < |rows| :: QuantizeRow(rows[i]).None?
  {
    if forall i | 0 <= i < |rows| :: QuantizeRow(rows[i]).Some? then
      Some(seq(|rows|, i requires 0 <= i < |rows| && QuantizeRow(rows[i]).Some? => QuantizeRow(rows[i]).value))
    else None
  }

  function Qs(z: seq<Quantized>): (r: Mat)
    ensures |r| == |z|
  {
    seq(|z|, i requires 0 <= i < |z| => z[i].q)
  }

  function Mus(z: seq<Quantized>): (r: Vec)
    ensures |r| == |z|
  {
    seq(|z|, i requires 0 <= i < |z| => z[i].mu)
  }

  function Ks(z: seq<Quantized>): (r: Vec)
    ensures |r| == |z|
  {
    seq(|z|, i requires 0 <= i < |z| => z[i].k)
  }

  function Flatten(m: Mat): Vec
  {
    if m == [] then [] else m[0] + Flatten(m[1..])
  }

  lemma {:induction false} FlattenAppend(a: Mat, b: Mat)
    ensures Flatten(a + b) == Flatten(a) + Flatten(b)
  {
    if a == [] {
      assert a + b == b;
    } else {
      assert (a + b)[1..] == a[1..] + b && (a + b)[0] == a[0];
      FlattenAppend(a[1..], b);
    }
  }

  predicate Rectangle(m: Mat, rows: nat, cols: nat)
  {
    |m| == rows && forall i | 0 <= i < rows :: |m[i]| == cols
  }

  /** Rows written one after the other are read back as rows. */
  lemma {:induction false} UnflattenFlatten(m: Mat, rows: nat, cols: nat)
    requires Rectangle(m, rows, cols)
    ensures |Flatten(m)| == rows * cols && Unflatten(Flatten(m), cols, rows) == m
    decreases rows
  {
    if rows > 0 {
      UnflattenFlatten(m[1..], rows - 1, cols);
      Distribute(1, rows - 1, cols);
      var flat := Flatten(m);
      assert flat[..cols] == m[0] && flat[cols..] == Flatten(m[1..]);
      assert m == [m[0]] + m[1..];
    }
  }

  lemma {:induction false} FlattenKeeps(m: Mat, t: IntType)
    requires forall i | 0 <= i < |m| :: AllFit(t, m[i])
    ensures AllFit(t, Flatten(m))
  {
    hide Fits;
    if m != [] { FlattenKeeps(m[1..], t); }
  }

  /** What the quantiser returns passes the reader's value checks and fits its
      storage. */
  lemma QuantizedPasses(bits: Vec, z: Quantized)
    requires QuantizeRow(bits) == Some(z)
    ensures |z.q| == |bits| && Bounded(z.q, 127) && 0 <= z.mu < TWO31 && 16 <= z.k <= 62
    ensures RowPasses(z.q, z.mu, z.k)
  {
    if !ZeroRow(bits) {
      hide QuantizeRow;
      hide Close;
      hide Bf16Parts;
      hide Pow2Real;
      if bits != [] { RowAccuracy(bits, z, 0); }
      forall j | 0 <= j < |bits| ensures Abs(z.q[j]) <= 127 { RowAccuracy(bits, z, j); }
    }
  }

  lemma StorageRanges()
    ensures forall v :: -127 <= v <= 127 ==> Fits(I8, v)
    ensures forall v :: 0 <= v <= 62 ==> Fits(U8, v)
    ensures forall v :: InI32(v) ==> Fits(I32, v)
    ensures forall v :: InI64(v) ==> Fits(I64, v)
  {
    Pow256Values();
    hide Pow256;
  }

  // ---- what each tensor holds ----------------------------------------------------------

  function PartValues(z: seq<Quantized>, part: Part): Vec
  {
    match part
    case Q => Flatten(Qs(z))
    case Mu => Mus(z)
    case K => Ks(z)
  }

  function Values(src: Source, n: Name): Option<Vec>
  {
    match n
    case Scaled(b, part) => (var z :- QuantizeAll(src.rows(b)); Some(PartValues(z, part)))
    case RopeCos => Some(Flatten(src.cos))
    case RopeSin => Some(Flatten(src.sin))
    case _ => Gains(src.norm(n))
  }

  predicate IsNorm(n: Name) { n.FinalNorm? || n.AttnNorm? || n.FfnNorm? }

  predicate Table(m: Shape, t: Mat)
  {
    Rectangle(t, m.maxSeq, m.dHead / 2) && forall i | 0 <= i < |t| :: forall j | 0 <= j < |t[i]| :: InI32(t[i][j])
  }

  predicate Patterns(rows: Mat) { forall i, j | 0 <= i < |rows| && 0 <= j < |rows[i]| :: IsPattern(rows[i][j]) }

  /** The source has exactly the tensors and shapes the layout asks for. */
  ghost predicate SourceMatches(m: Shape, src: Source)
  {
    && (forall b: Base | InLayout(m, Scaled(b, Q)) ::
          Rectangle(src.rows(b), BaseRows(m, b), BaseCols(m, b)) && Patterns(src.rows(b)))
    && (forall n: Name | InLayout(m, n) && IsNorm(n) :: |src.norm(n)| == m.dModel)
    && Table(m, src.cos) && Table(m, src.sin)
  }

  lemma ScaledFits(rows: Mat, n: nat, cols: nat, z: seq<Quantized>)
    requires Rectangle(rows, n, cols) && QuantizeAll(rows) == Some(z)
    ensures Rectangle(Qs(z), n, cols) && |Mus(z)| == |Ks(z)| == n
    ensures AllFit(I8, Flatten(Qs(z))) && AllFit(I32, Mus(z)) && AllFit(U8, Ks(z))
    ensures RowsPass(Qs(z), Mus(z), Ks(z))
  {
    hide QuantizeRow;
    hide RowPasses;
    hide Fits;
    StorageRanges();
    forall i | 0 <= i < n
      ensures |Qs(z)[i]| == cols && AllFit(I8, Qs(z)[i]) && Fits(I32, Mus(z)[i]) && Fits(U8, Ks(z)[i])
      ensures RowPasses(z[i].q, z[i].mu, z[i].k)
    {
      QuantizedPasses(rows[i], z[i]);
    }
    FlattenKeeps(Qs(z), I8);
  }

  /** Every tensor has as many values as its shape says, and all of them fit. */
  lemma ValuesFit(m: Shape, src: Source, n: Name)
    requires SourceMatches(m, src) && InLayout(m, n) && Values(src, n).Some?
    ensures var e, v := EntryFor(m, n), Values(src, n).value; |v| == Product(e.shape) && AllFit(e.dtype, v)
  {
    hide Fits;
    hide QuantizeAll;
    hide NormGain;
    hide Rows;
    hide Cols;
    StorageRanges();
    match n
    case Scaled(b, part) =>
      var z := QuantizeAll(src.rows(b)).value;
      assert InLayout(m, Scaled(b, Q));
      ScaledFits(src.rows(b), BaseRows(m, b), BaseCols(m, b), z);
      UnflattenFlatten(Qs(z), BaseRows(m, b), BaseCols(m, b));
      Products(BaseRows(m, b), BaseCols(m, b));
    case RopeCos => TableFits(m, src.cos);
    case RopeSin => TableFits(m, src.sin);
    case _ =>
      GainsFit(src.norm(n));
      Products(m.dModel, 1);
  }

  lemma TableFits(m: Shape, t: Mat)
    requires Table(m, t)
    ensures |Flatten(t)| == Product([m.maxSeq, m.dHead / 2]) && AllFit(I32, Flatten(t))
  {
    hide Fits;
    StorageRanges();
    UnflattenFlatten(t, m.maxSeq, m.dHead / 2);
    FlattenKeeps(t, I32);
    Products(m.maxSeq, m.dHead / 2);
  }

  lemma GainsFit(bits: Vec)
    ensures Gains(bits).Some? ==> AllFit(I64, Gains(bits).value)
  {
    hide Fits;
    hide NormGain;
    StorageRanges();
    forall j | 0 <= j < |bits| && NormGain(bits[j]).Some?
      ensures InI64(NormGain(bits[j]).value)
    {
      GainRounds(bits[j]);
    }
  }

  function Encoded(src: Source, e: Entry): Option<Bytes>
  {
    var v :- Values(src, e.name);
    if AllFit(e.dtype, v) then Some(EncodeAll(e.dtype, v)) else None
  }

  lemma EncodedIs(m: Shape, src: Source, n: Name)
    requires SourceMatches(m, src) && InLayout(m, n)
    ensures var e, r := EntryFor(m, n), Encoded(src, EntryFor(m, n));
      && (r.Some? <==> Values(src, n).Some?)
      && (r.Some? ==> |r.value| == EntryBytes(e) && DecodeAll(e.dtype, r.value) == Values(src, n).value)
  {
    hide SourceMatches;
    hide InLayout;
    hide EntryFor;
    hide Values;
    hide AllFit;
    if Values(src, n).Some? {
      var e, v := EntryFor(m, n), Values(src, n).value;
      ValuesFit(m, src, n);
      EncodeAllLength(e.dtype, v);
      AllRoundTrip(e.dtype, v);
    }
  }

  /** The bytes of the first `n` tensors. */
  function EncodedUpTo(src: Source, layout: seq<Entry>, n: nat): (r: Option<seq<Bytes>>)
    requires n <= |layout|
    ensures r.Some? ==> |r.value| == n
  {
    if n == 0 then Some([])
    else
      var done :- EncodedUpTo(src, layout, n - 1);
      var b :- Encoded(src, layout[n - 1]);
      Some(done + [b])
  }

  lemma {:induction false} EncodedAt(src: Source, layout: seq<Entry>, n: nat, i: nat)
    requires n <= |layout| && EncodedUpTo(src, layout, n).Some? && i < n
    ensures Encoded(src, layout[i]) == Some(EncodedUpTo(src, layout, n).value[i])
  {
    hide Encoded;
    if i < n - 1 { EncodedAt(src, layout, n - 1, i); }
  }

  lemma {:induction false} EncodedRefused(src: Source, layout: seq<Entry>, i: nat, n: nat)
    requires i <= n <= |layout| && EncodedUpTo(src, layout, i).None?
    ensures EncodedUpTo(src, layout, n).None?
  {
    hide Encoded;
    if i < n { EncodedRefused(src, layout, i, n - 1); }
  }

  // ---- the round trip ---------------------------------------------------------------

  /** A prepared file is accepted by the reader and every tensor reads back as
      the quantiser, the gain rule and the tables gave it. */
  lemma RoundTrip(codec: Codec, h: Header, src: Source, blobs: seq<Bytes>)
    requires codec.parse(codec.render(h)) == Some(h) && |codec.render(h)| < TWO64
    requires ValidHeader(h) && SourceMatches(h.shape, src)
    requires EncodedUpTo(src, Layout(h.shape), |Layout(h.shape)|) == Some(blobs)
    ensures var file := Serialized(codec.render(h), blobs);
      && WellFormed(codec, file, h) && ValuesOk(file, h)
      && forall n: Name | InLayout(h.shape, n) :: Values(src, n) == Some(Tensor(file, h, n))
  {
    hide *;
    var file := Serialized(codec.render(h), blobs);
    BlobsAreFit(h.shape, src, blobs);
    SerializedIsWellFormed(codec, h, blobs);
    forall n: Name | InLayout(h.shape, n)
      ensures Values(src, n) == Some(Tensor(file, h, n))
    {
      TensorReadsBack(codec, file, h, src, blobs, n);
    }
    ValuesPass(file, h, src);
  }

  lemma BlobsAreFit(m: Shape, src: Source, blobs: seq<Bytes>)
    requires SourceMatches(m, src) && EncodedUpTo(src, Layout(m), |Layout(m)|) == Some(blobs)
    ensures BlobsFit(Layout(m), blobs)
  {
    hide SourceMatches;
    hide EncodedUpTo;
    hide Encoded;
    hide LayoutUpTo;
    hide EntryBytes;
    hide EntryFor;
    hide InLayout;
    forall i | 0 <= i < |Layout(m)|
      ensures |blobs[i]| == EntryBytes(Layout(m)[i])
    {
      EncodedAt(src, Layout(m), |Layout(m)|, i);
      EntryAt(m, m.layers, i);
      EncodedIs(m, src, Layout(m)[i].name);
    }
  }

  lemma TensorReadsBack(codec: Codec, file: Bytes, h: Header, src: Source, blobs: seq<Bytes>, n: Name)
    requires WellFormed(codec, file, h) && SourceMatches(h.shape, src) && InLayout(h.shape, n)
    requires EncodedUpTo(src, Layout(h.shape), |Layout(h.shape)|) == Some(blobs)
    requires Blobs(file, DataStart(HeaderLength(file)), h.tensors) == blobs
    ensures Values(src, n) == Some(Tensor(file, h, n))
  {
    hide SourceMatches;
    hide EncodedUpTo;
    hide Encoded;
    hide LayoutUpTo;
    hide Place;
    hide EntryFor;
    hide InLayout;
    hide IndexOf;
    hide Blob;
    hide ValidShape;
    hide Padding;
    hide DataStart;
    hide HeaderLength;
    hide Values;
    var i := IndexOf(n);
    NamePlaced(h.shape, n);
    NameFound(h.shape, n);
    EncodedAt(src, Layout(h.shape), |Layout(h.shape)|, i);
    EncodedIs(h.shape, src, n);
    assert blobs[i] == Blob(file, DataStart(HeaderLength(file)), h.tensors[i]);
  }

  lemma ValuesPass(file: Bytes, h: Header, src: Source)
    requires SourceMatches(h.shape, src)
    requires forall n: Name | InLayout(h.shape, n) :: Values(src, n) == Some(Tensor(file, h, n))
    ensures ValuesOk(file, h)
  {
    hide Tensor;
    hide QuantizeAll;
    hide RowsPass;
    hide Unflatten;
    hide Flatten;
    hide Rows;
    hide Cols;
    hide AllFit;
    forall b: Base | InLayout(h.shape, Scaled(b, Q))
      ensures BaseOk(file, h, b)
    {
      var rows, cols := BaseRows(h.shape, b), BaseCols(h.shape, b);
      assert InLayout(h.shape, Scaled(b, Mu)) && InLayout(h.shape, Scaled(b, K));
      var z := QuantizeAll(src.rows(b)).value;
      assert Tensor(file, h, Scaled(b, Q)) == Flatten(Qs(z));
      assert Tensor(file, h, Scaled(b, Mu)) == Mus(z);
      assert Tensor(file, h, Scaled(b, K)) == Ks(z);
      ScaledFits(src.rows(b), rows, cols, z);
      UnflattenFlatten(Qs(z), rows, cols);
    }
  }
}
