/** The package file: how header and tensors are laid out in bytes, and the
    reader that accepts exactly such files. The header text itself is a pair of
    uninterpreted functions. */
module PackageFile {
  import opened Arithmetic
  import opened ByteCodec
  import opened PackageLayout

  const MAGIC: Bytes := [65, 82, 67, 73, 80, 75, 71, 49]

  const SCHEMA: string := "arc.integer-package.v1"
  const PROFILE: string := "arc.hf-llama.i8-dyadic-row.q16.v1"

  datatype SourceFile = SourceFile(name: string, bytes: nat, sha256: string)

  /** Where the weights came from; nothing depends on it. */
  datatype SourceInfo = SourceInfo(repo: string, revision: string, files: seq<SourceFile>)

  datatype Header = Header(schema: string, profile: string, shape: Shape, source: SourceInfo, tensors: seq<Placement>)

  /** The checks of the reader on a parsed header. */
  predicate ValidHeader(h: Header)
  {
    h.schema == SCHEMA && h.profile == PROFILE && ValidShape(h.shape) && h.tensors == Place(Layout(h.shape), 0)
  }

  /** Canonical JSON, not interpreted. */
  datatype Codec = Codec(render: Header -> Bytes, parse: Bytes -> Option<Header>)

  // ---- writing ------------------------------------------------------------------

  function DataStart(hlen: nat): nat { AlignTo(16 + hlen, ALIGN) }

  function Prefix(text: Bytes): (r: Bytes)
    ensures |r| == DataStart(|text|)
  {
    MAGIC + LittleEndian(|text|, 8) + text + ZeroBytes(DataStart(|text|) - 16 - |text|)
  }

  function Padded(b: Bytes): (r: Bytes)
    ensures |r| == AlignTo(|b|, ALIGN)
  {
    PadTo(b, ALIGN)
  }

  function Body(blobs: seq<Bytes>): Bytes
  {
    if blobs == [] then [] else Padded(blobs[0]) + Body(blobs[1..])
  }

  /** The whole file. */
  function Serialized(text: Bytes, blobs: seq<Bytes>): Bytes { Prefix(text) + Body(blobs) }

  ghost predicate BlobsFit(layout: seq<Entry>, blobs: seq<Bytes>)
  {
    |blobs| == |layout| && forall i | 0 <= i < |blobs| :: |blobs[i]| == EntryBytes(layout[i])
  }

  // ---- reading ------------------------------------------------------------------

  function HeaderLength(file: Bytes): nat
    requires |file| >= 16
  {
    FromLittleEndian(file[8..16])
  }

  predicate HasHeader(file: Bytes)
  {
    |file| >= 16 && file[..8] == MAGIC && HeaderLength(file) <= |file| - 16
  }

  function HeaderText(file: Bytes): Bytes
    requires HasHeader(file)
  {
    file[16..16 + HeaderLength(file)]
  }

  predicate ZeroRange(file: Bytes, begin: nat, end: nat)
  {
    forall i | begin <= i < end && i < |file| :: file[i] == 0
  }

  predicate Padding(file: Bytes, start: nat, ps: seq<Placement>)
  {
    forall i | 0 <= i < |ps| :: ZeroRange(file, start + ps[i].End(), start + AlignTo(ps[i].End(), ALIGN))
  }

  /** Every structural check of the reader. */
  predicate WellFormed(codec: Codec, file: Bytes, h: Header)
  {
    && HasHeader(file)
    && codec.parse(HeaderText(file)) == Some(h) && codec.render(h) == HeaderText(file)
    && ValidHeader(h)
    && var start := DataStart(HeaderLength(file));
       && |file| == start + Total(Layout(h.shape), 0)
       && ZeroRange(file, 16 + HeaderLength(file), start)
       && Padding(file, start, h.tensors)
  }

  function Blob(file: Bytes, start: nat, p: Placement): Bytes
  {
    if start + p.End() <= |file| then file[start + p.offset..start + p.End()] else []
  }

  function Blobs(file: Bytes, start: nat, ps: seq<Placement>): (r: seq<Bytes>)
    ensures |r| == |ps|
  {
    seq(|ps|, i requires 0 <= i < |ps| => Blob(file, start, ps[i]))
  }

  /** The values of tensor `i`. */
  function TensorAt(file: Bytes, h: Header, i: nat): Vec
    requires HasHeader(file) && i < |h.tensors| && h.tensors[i].entry.dtype.width > 0
  {
    DecodeAll(h.tensors[i].entry.dtype, Blob(file, DataStart(HeaderLength(file)), h.tensors[i]))
  }

  // ---- writing then reading -------------------------------------------------------

  lemma PrefixParts(text: Bytes, body: Bytes)
    requires |text| < TWO64
    ensures var file := Prefix(text) + body;
      && HasHeader(file) && HeaderLength(file) == |text| && HeaderText(file) == text
      && ZeroRange(file, 16 + |text|, DataStart(|text|))
  {
    var file := Prefix(text) + body;
    var len := LittleEndian(|text|, 8);
    assert file[..8] == MAGIC;
    assert file[8..16] == len;
    Pow256Values();
    LittleEndianRoundTrip(|text|, 8);
    hide LittleEndian;
    assert file[16..16 + |text|] == text;
  }

  /** Tensor `i` of a body sits at its placement, followed by zeros. */
  lemma {:induction false} BodyAt(layout: seq<Entry>, blobs: seq<Bytes>, offset: nat, i: nat)
    requires BlobsFit(layout, blobs) && offset % ALIGN == 0 && i < |layout|
    ensures var p, body := Place(layout, offset)[i], Body(blobs);
      && offset <= p.offset && AlignTo(p.End(), ALIGN) - offset <= |body|
      && body[p.offset - offset..p.End() - offset] == blobs[i]
      && ZeroRange(body, p.End() - offset, AlignTo(p.End(), ALIGN) - offset)
  {
    hide EntryBytes;
    hide AlignTo;
    hide Padded;
    hide ZeroRange;
    hide Body;
    hide Place;
    FirstOf(layout, blobs, offset);
    var next, rest := AlignTo(offset + EntryBytes(layout[0]), ALIGN), Body(blobs[1..]);
    AlignShift(offset, EntryBytes(layout[0]), ALIGN);
    if i > 0 {
      BodyAt(layout[1..], blobs[1..], next, i - 1);
      BehindFirst(Padded(blobs[0]), rest, Place(layout[1..], next)[i - 1], offset, next);
    } else {
      PaddedParts(blobs[0], rest);
    }
  }

  lemma FirstOf(layout: seq<Entry>, blobs: seq<Bytes>, offset: nat)
    requires BlobsFit(layout, blobs) && layout != []
    ensures Body(blobs) == Padded(blobs[0]) + Body(blobs[1..])
    ensures Place(layout, offset)
         == [Placement(layout[0], offset)] + Place(layout[1..], AlignTo(offset + EntryBytes(layout[0]), ALIGN))
    ensures BlobsFit(layout[1..], blobs[1..]) && |blobs[0]| == EntryBytes(layout[0])
  {
    hide AlignTo;
    hide EntryBytes;
    hide Padded;
  }

  lemma BehindFirst(a: Bytes, b: Bytes, p: Placement, offset: nat, next: nat)
    requires |a| == next - offset && next <= p.offset && AlignTo(p.End(), ALIGN) - next <= |b|
    requires ZeroRange(b, p.End() - next, AlignTo(p.End(), ALIGN) - next)
    ensures (a + b)[p.offset - offset..p.End() - offset] == b[p.offset - next..p.End() - next]
    ensures ZeroRange(a + b, p.End() - offset, AlignTo(p.End(), ALIGN) - offset)
  {
    hide AlignTo;
    hide EntryBytes;
    SliceBehind(a, b, p.offset - next, p.End() - next, AlignTo(p.End(), ALIGN) - next);
  }

  lemma PaddedParts(b: Bytes, rest: Bytes)
    ensures (Padded(b) + rest)[..|b|] == b && ZeroRange(Padded(b) + rest, |b|, AlignTo(|b|, ALIGN))
  {
    hide AlignTo;
  }

  lemma SliceBehind(a: Bytes, b: Bytes, lo: nat, mid: nat, hi: nat)
    requires lo <= mid <= hi <= |b|
    ensures (a + b)[|a| + lo..|a| + mid] == b[lo..mid]
    ensures ZeroRange(b, mid, hi) ==> ZeroRange(a + b, |a| + mid, |a| + hi)
  {
  }

  lemma {:induction false} BodyLength(layout: seq<Entry>, blobs: seq<Bytes>, offset: nat)
    requires BlobsFit(layout, blobs) && offset % ALIGN == 0
    ensures offset + |Body(blobs)| == Total(layout, offset)
  {
    hide EntryBytes;
    hide AlignTo;
    if layout != [] {
      AlignShift(offset, EntryBytes(layout[0]), ALIGN);
      BodyLength(layout[1..], blobs[1..], AlignTo(offset + EntryBytes(layout[0]), ALIGN));
    }
  }

  /** What is written is well formed and every tensor is where the header says. */
  lemma SerializedIsWellFormed(codec: Codec, h: Header, blobs: seq<Bytes>)
    requires codec.parse(codec.render(h)) == Some(h) && |codec.render(h)| < TWO64
    requires ValidHeader(h) && BlobsFit(Layout(h.shape), blobs)
    ensures var file := Serialized(codec.render(h), blobs);
      WellFormed(codec, file, h) && Blobs(file, DataStart(HeaderLength(file)), h.tensors) == blobs
  {
    hide AlignTo;
    hide Place;
    hide Layout;
    hide ValidShape;
    hide EntryBytes;
    hide Total;
    hide Prefix;
    hide Body;
    hide ZeroRange;
    hide HasHeader;
    hide HeaderText;
    hide HeaderLength;
    var text, layout := codec.render(h), Layout(h.shape);
    var start, file := DataStart(|text|), Serialized(text, blobs);
    PrefixParts(text, Body(blobs));
    BodyLength(layout, blobs, 0);
    forall i | 0 <= i < |layout|
      ensures ZeroRange(file, start + h.tensors[i].End(), start + AlignTo(h.tensors[i].End(), ALIGN))
      ensures Blob(file, start, h.tensors[i]) == blobs[i]
    {
      TensorPlaced(text, layout, blobs, i);
    }
  }

  lemma TensorPlaced(text: Bytes, layout: seq<Entry>, blobs: seq<Bytes>, i: nat)
    requires BlobsFit(layout, blobs) && i < |layout|
    ensures var p, start, file := Place(layout, 0)[i], DataStart(|text|), Serialized(text, blobs);
      ZeroRange(file, start + p.End(), start + AlignTo(p.End(), ALIGN)) && Blob(file, start, p) == blobs[i]
  {
    hide AlignTo;
    hide Place;
    hide EntryBytes;
    hide Prefix;
    hide Body;
    hide ZeroRange;
    hide BlobsFit;
    BodyAt(layout, blobs, 0, i);
    var p := Place(layout, 0)[i];
    SliceBehind(Prefix(text), Body(blobs), p.offset, p.End(), AlignTo(p.End(), ALIGN));
  }

  // ---- reading then writing -------------------------------------------------------

  /** A range of tensors with zero padding is the body of its own slices. */
  lemma {:induction false} RangeIsBody(file: Bytes, start: nat, layout: seq<Entry>, offset: nat)
    requires offset % ALIGN == 0 && |file| == start + Total(layout, offset)
    requires Padding(file, start, Place(layout, offset))
    ensures start + offset <= |file|
    ensures file[start + offset..] == Body(Blobs(file, start, Place(layout, offset)))
    ensures BlobsFit(layout, Blobs(file, start, Place(layout, offset)))
  {
    hide EntryBytes;
    hide AlignTo;
    hide Padded;
    TotalGrows(layout, offset);
    if layout != [] {
      var n, ps := EntryBytes(layout[0]), Place(layout, offset);
      var next := AlignTo(offset + n, ALIGN);
      AlignShift(offset, n, ALIGN);
      TotalGrows(layout[1..], next);
      assert ps[1..] == Place(layout[1..], next);
      assert Padding(file, start, ps[1..]) by {
        forall i | 0 <= i < |ps[1..]|
          ensures ZeroRange(file, start + ps[1..][i].End(), start + AlignTo(ps[1..][i].End(), ALIGN))
        {
          assert ps[1..][i] == ps[i + 1];
        }
      }
      RangeIsBody(file, start, layout[1..], next);
      assert Blobs(file, start, ps)[1..] == Blobs(file, start, ps[1..]);
      FirstPadded(file, start, ps[0], next);
    }
  }

  lemma FirstPadded(file: Bytes, start: nat, p: Placement, next: nat)
    requires p.offset % ALIGN == 0 && next == AlignTo(p.End(), ALIGN) && start + next <= |file|
    requires ZeroRange(file, start + p.End(), start + next)
    ensures file[start + p.offset..start + next] == Padded(Blob(file, start, p))
    ensures file[start + p.offset..] == Padded(Blob(file, start, p)) + file[start + next..]
    ensures |Blob(file, start, p)| == EntryBytes(p.entry)
  {
    hide EntryBytes;
    AlignShift(p.offset, EntryBytes(p.entry), ALIGN);
  }

  lemma WellFormedBody(codec: Codec, file: Bytes, h: Header)
    requires WellFormed(codec, file, h)
    ensures var start := DataStart(HeaderLength(file));
      && start <= |file| && file[start..] == Body(Blobs(file, start, h.tensors))
      && BlobsFit(Layout(h.shape), Blobs(file, start, h.tensors))
  {
    hide Place;
    hide Layout;
    hide ValidShape;
    hide AlignTo;
    hide EntryBytes;
    hide Total;
    hide HeaderLength;
    hide HeaderText;
    hide ZeroRange;
    hide Padding;
    hide Body;
    hide Blobs;
    hide BlobsFit;
    RangeIsBody(file, DataStart(HeaderLength(file)), Layout(h.shape), 0);
  }

  lemma WellFormedPrefix(codec: Codec, file: Bytes, h: Header)
    requires WellFormed(codec, file, h)
    ensures DataStart(HeaderLength(file)) <= |file|
    ensures file[..DataStart(HeaderLength(file))] == Prefix(codec.render(h))
  {
    hide Place;
    hide Layout;
    hide ValidShape;
    hide AlignTo;
    hide Total;
    hide HeaderLength;
    hide HeaderText;
    hide ZeroRange;
    hide Padding;
    hide Prefix;
    TotalGrows(Layout(h.shape), 0);
    PrefixOf(file);
  }

  lemma WellFormedLong(codec: Codec, file: Bytes, h: Header)
    requires WellFormed(codec, file, h)
    ensures |file| >= 16
  {
  }

  /** The reader is strict: an accepted file is the serialisation of its header
      and tensors, byte for byte. */
  lemma WellFormedIsSerialized(codec: Codec, file: Bytes, h: Header)
    requires WellFormed(codec, file, h)
    ensures var blobs := Blobs(file, DataStart(HeaderLength(file)), h.tensors);
      BlobsFit(Layout(h.shape), blobs) && file == Serialized(codec.render(h), blobs)
  {
    hide WellFormed;
    hide BlobsFit;
    hide Blobs;
    hide Body;
    hide Prefix;
    hide DataStart;
    hide HeaderLength;
    hide HasHeader;
    hide Layout;
    WellFormedLong(codec, file, h);
    WellFormedBody(codec, file, h);
    WellFormedPrefix(codec, file, h);
    var start := DataStart(HeaderLength(file));
    assert file == file[..start] + file[start..];
  }

  lemma FourPieces(file: Bytes, a: nat, b: nat, c: nat, d: nat)
    requires a <= b <= c <= d <= |file|
    ensures file[..d] == file[..a] + file[a..b] + file[b..c] + file[c..d]
  {
  }

  lemma PrefixOf(file: Bytes)
    requires HasHeader(file) && DataStart(HeaderLength(file)) <= |file|
    requires ZeroRange(file, 16 + HeaderLength(file), DataStart(HeaderLength(file)))
    ensures file[..DataStart(HeaderLength(file))] == Prefix(HeaderText(file))
  {
    hide AlignTo;
    hide FromLittleEndian;
    hide LittleEndian;
    LittleEndianOnto(file[8..16]);
    var n := HeaderLength(file);
    var start := DataStart(n);
    assert file[16 + n..start] == ZeroBytes(start - 16 - n);
    FourPieces(file, 8, 16, 16 + n, start);
  }
}
