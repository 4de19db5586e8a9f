/** The streaming writer and the loop that prepares a package with it. */
module PackagePrepare {
  import opened Arithmetic
  import opened ByteCodec
  import opened PackageLayout
  import opened PackageFile
  import opened PackageReader
  import opened PackageWriter
  import opened Quantizer

  /** Appends to the file and counts what it wrote. */
  class StreamWriter {
    var out: Bytes
    var size: nat

    ghost predicate Valid()
      reads this
    {
      size == |out|
    }

    constructor ()
      ensures Valid() && out == []
    {
      out := [];
      size := 0;
    }

    method Write(data: Bytes)
      requires Valid()
      modifies this
      ensures Valid() && out == old(out) + data
    {
      if data != [] {
        out := out + data;
        size := size + |data|;
      }
    }

    method Pad()
      requires Valid()
      modifies this
      ensures Valid() && out == old(out) + ZeroBytes(AlignTo(|old(out)|, ALIGN) - |old(out)|)
    {
      Write(ZeroBytes(AlignTo(size, ALIGN) - size));
    }
  }

  function ChunkRows(cols: nat): nat { Max(1, 0x10_0000 / Max(1, cols)) }

  lemma QuantizedIs(rows: Mat, r: Option<seq<Quantized>>)
    requires RowsQuantized(rows, r)
    ensures r == QuantizeAll(rows)
  {
    hide QuantizeRow;
    if r.Some? { assert r.value == QuantizeAll(rows).value; }
  }

  lemma QuantizeAppend(a: Mat, b: Mat)
    requires QuantizeAll(a).Some?
    ensures var y := QuantizeAll(b);
      QuantizeAll(a + b) == if y.None? then None else Some(QuantizeAll(a).value + y.value)
  {
    hide QuantizeRow;
    var x, y, z := QuantizeAll(a), QuantizeAll(b), QuantizeAll(a + b);
    if y.None? {
      var i :| 0 <= i < |b| && QuantizeRow(b[i]).None?;
      assert (a + b)[|a| + i] == b[i];
    } else {
      assert forall i | 0 <= i < |a + b| :: QuantizeRow((a + b)[i]) == Some((x.value + y.value)[i]);
      assert z.value == x.value + y.value;
    }
  }

  lemma QuantizeRefused(rows: Mat, i: nat)
    requires i <= |rows| && QuantizeAll(rows[..i]).None?
    ensures QuantizeAll(rows).None?
  {
    hide QuantizeRow;
    var j :| 0 <= j < |rows[..i]| && QuantizeRow(rows[..i][j]).None?;
    assert QuantizeRow(rows[j]).None?;
  }

  /** Chunk after chunk of rows: the weights go to the file, the scales are
      kept for the two tensors that follow. */
  method WriteWeights(w: StreamWriter, rows: Mat, n: nat, cols: nat) returns (r: Option<seq<Quantized>>)
    requires w.Valid() && Rectangle(rows, n, cols) && Patterns(rows)
    modifies w
    ensures w.Valid() && r == QuantizeAll(rows)
    ensures r.Some? ==> AllFit(I8, Flatten(Qs(r.value))) && w.out == old(w.out) + EncodeAll(I8, Flatten(Qs(r.value)))
  {
    hide QuantizeAll;
    hide AllFit;
    hide EncodeAll;
    hide Flatten;
    hide RowsQuantized;
    var step := ChunkRows(cols);
    var z: seq<Quantized> := [];
    var r0 := 0;
    NothingQuantized();
    assert rows[..0] == [] && old(w.out) + [] == w.out;
    while r0 < n
      invariant r0 <= n && w.Valid() && QuantizeAll(rows[..r0]) == Some(z)
      invariant AllFit(I8, Flatten(Qs(z))) && w.out == old(w.out) + EncodeAll(I8, Flatten(Qs(z)))
      decreases n - r0
    {
      var r1 := Min(r0 + step, n);
      var chunk := rows[r0..r1];
      assert rows[..r1] == rows[..r0] + chunk;
      QuantizeAppend(rows[..r0], chunk);
      ChunkPatterns(rows, r0, r1);
      var y := QuantizeRows(chunk);
      QuantizedIs(chunk, y);
      if y.None? {
        QuantizeRefused(rows, r1);
        return None;
      }
      ScaledFits(chunk, r1 - r0, cols, y.value);
      w.Write(EncodeAll(I8, Flatten(Qs(y.value))));
      WeightsAppend(z, y.value);
      z := z + y.value;
      r0 := r1;
    }
    assert rows[..n] == rows;
    r := Some(z);
  }

  lemma NothingQuantized()
    ensures QuantizeAll([]) == Some([]) && AllFit(I8, Flatten(Qs([]))) && EncodeAll(I8, Flatten(Qs([]))) == []
  {
    assert QuantizeAll([]).value == [];
    assert Qs([]) == [];
  }

  lemma ChunkPatterns(rows: Mat, a: nat, b: nat)
    requires a <= b <= |rows| && Patterns(rows)
    ensures Patterns(rows[a..b])
  {
    forall i, j | 0 <= i < b - a && 0 <= j < |rows[a..b][i]|
      ensures IsPattern(rows[a..b][i][j])
    {
      assert rows[a..b][i] == rows[a + i];
    }
  }

  lemma WeightsAppend(x: seq<Quantized>, y: seq<Quantized>)
    requires AllFit(I8, Flatten(Qs(x))) && AllFit(I8, Flatten(Qs(y)))
    ensures AllFit(I8, Flatten(Qs(x + y)))
    ensures EncodeAll(I8, Flatten(Qs(x + y))) == EncodeAll(I8, Flatten(Qs(x))) + EncodeAll(I8, Flatten(Qs(y)))
  {
    hide EncodeAll;
    hide Fits;
    assert Qs(x + y) == Qs(x) + Qs(y);
    FlattenAppend(Qs(x), Qs(y));
    EncodeAllAppend(I8, Flatten(Qs(x)), Flatten(Qs(y)));
  }

  /** Drift stands for either of the writer's internal assertions. */
  datatype Prepared = Written(file: Bytes) | Refused | Drift

  datatype Pending = Pending(mu: Option<Vec>, k: Option<Vec>)

  /** The scales wait for their own tensors, right behind the weights. */
  ghost predicate Waiting(src: Source, layout: seq<Entry>, i: nat, p: Pending)
    requires i <= |layout|
  {
    i > 0 && layout[i - 1].name.Scaled? ==>
      var n := layout[i - 1].name;
      && (n.part.Q? ==> Values(src, Scaled(n.base, Mu)) == p.mu && p.mu.Some?)
      && (n.part.Q? || n.part.Mu? ==> Values(src, Scaled(n.base, K)) == p.k && p.k.Some?)
  }

  /** Scales come right behind their weights. */
  lemma ScalesFollow(m: Shape, i: nat)
    requires i < |Layout(m)| && Layout(m)[i].name.Scaled? && !Layout(m)[i].name.part.Q?
    ensures var n := Layout(m)[i].name;
      i > 0 && Layout(m)[i - 1].name == Scaled(n.base, if n.part.Mu? then Q else Mu)
  {
    hide LayoutUpTo;
    var n := Layout(m)[i].name;
    var before := Scaled(n.base, if n.part.Mu? then Q else Mu);
    EntryAt(m, m.layers, i);
    NamePosition(m, m.layers, i);
    assert IndexOf(before) == i - 1 && InLayout(m, before);
    NameFound(m, before);
  }

  /** Writes one tensor; None refuses the source. */
  method WriteTensor(w: StreamWriter, m: Shape, src: Source, i: nat, p: Pending) returns (r: Option<Pending>)
    requires w.Valid() && SourceMatches(m, src) && i < |Layout(m)| && Waiting(src, Layout(m), i, p)
    modifies w
    ensures w.Valid()
    ensures r.None? <==> Encoded(src, Layout(m)[i]).None?
    ensures r.Some? ==> w.out == old(w.out) + Encoded(src, Layout(m)[i]).value
    ensures r.Some? ==> Waiting(src, Layout(m), i + 1, r.value)
  {
    hide LayoutUpTo;
    hide QuantizeAll;
    hide Flatten;
    hide AllFit;
    hide EncodeAll;
    hide Gains;
    hide IndexOf;
    var e := Layout(m)[i];
    EntryAt(m, m.layers, i);
    EncodedIs(m, src, e.name);
    match e.name
    case Scaled(b, Q) =>
      assert InLayout(m, Scaled(b, Q));
      var z := WriteWeights(w, src.rows(b), BaseRows(m, b), BaseCols(m, b));
      if z.None? {
        return None;
      }
      r := Some(Pending(Some(Mus(z.value)), Some(Ks(z.value))));
    case Scaled(b, Mu) =>
      ScalesFollow(m, i);
      w.Write(EncodeAll(e.dtype, p.mu.value));
      r := Some(Pending(None, p.k));
    case Scaled(b, K) =>
      ScalesFollow(m, i);
      w.Write(EncodeAll(e.dtype, p.k.value));
      r := Some(Pending(None, None));
    case _ =>
      var v := Values(src, e.name);
      if v.None? {
        return None;
      }
      w.Write(EncodeAll(e.dtype, v.value));
      r := Some(p);
  }

  // ---- the whole file ---------------------------------------------------------------

  lemma {:induction false} BodySnoc(blobs: seq<Bytes>, b: Bytes)
    ensures Body(blobs + [b]) == Body(blobs) + Padded(b)
  {
    hide Padded;
    if blobs == [] {
      assert Body([b][1..]) == [];
    } else {
      assert (blobs + [b])[1..] == blobs[1..] + [b];
      BodySnoc(blobs[1..], b);
    }
  }

  lemma {:induction false} OffsetIsTotal(layout: seq<Entry>, offset: nat, i: nat)
    requires i < |layout|
    ensures Place(layout, offset)[i].offset == Total(layout[..i], offset) && Place(layout, offset)[i].entry == layout[i]
  {
    hide AlignTo;
    hide EntryBytes;
    if i > 0 {
      assert layout[..i][1..] == layout[1..][..i - 1];
      OffsetIsTotal(layout[1..], AlignTo(offset + EntryBytes(layout[0]), ALIGN), i - 1);
    }
  }

  predicate Aligned(n: nat) { n % ALIGN == 0 }

  /** Where the writer stands after `i` tensors is the next entry's offset. */
  lemma WriterOnOffset(m: Shape, src: Source, i: nat, done: seq<Bytes>)
    requires SourceMatches(m, src) && i < |Layout(m)| && EncodedUpTo(src, Layout(m), i) == Some(done)
    ensures |Body(done)| == Place(Layout(m), 0)[i].offset && Aligned(|Body(done)|)
    ensures Place(Layout(m), 0)[i].entry == Layout(m)[i]
  {
    hide AlignTo;
    hide LayoutUpTo;
    hide Place;
    hide Body;
    hide SourceMatches;
    hide EncodedUpTo;
    hide Encoded;
    hide EntryBytes;
    hide EntryFor;
    hide InLayout;
    var layout := Layout(m);
    OffsetIsTotal(layout, 0, i);
    PlacedWithin(layout, 0, i);
    forall j | 0 <= j < i
      ensures |done[j]| == EntryBytes(layout[j])
    {
      EncodedAt(src, layout, i, j);
      EntryAt(m, m.layers, j);
      EncodedIs(m, src, layout[j].name);
    }
    BodyLength(layout[..i], done, 0);
  }

  /** Padding the file pads the tensor. */
  lemma PadAfter(start: Bytes, body: Bytes, b: Bytes)
    requires Aligned(|start|) && Aligned(|body|)
    ensures var n := |start + body + b|;
      start + body + b + ZeroBytes(AlignTo(n, ALIGN) - n) == start + (body + Padded(b))
  {
    hide AlignTo;
    AlignShift(|start| + |body|, |b|, ALIGN);
  }

  function HeaderFor(m: Shape, source: SourceInfo): Header { Header(SCHEMA, PROFILE, m, source, Place(Layout(m), 0)) }

  predicate ReadableHeader(codec: Codec, h: Header)
  {
    ValidShape(h.shape) && codec.parse(codec.render(h)) == Some(h)
  }

  /** The reader accepts the file and finds every tensor as it was computed. */
  ghost predicate ReadsBack(codec: Codec, file: Bytes, h: Header, src: Source)
  {
    && WellFormed(codec, file, h) && ValuesOk(file, h)
    && forall n: Name | InLayout(h.shape, n) :: Values(src, n) == Some(Tensor(file, h, n))
  }

  lemma PreparedReadsBack(codec: Codec, m: Shape, source: SourceInfo, src: Source, blobs: seq<Bytes>)
    requires SourceMatches(m, src) && |codec.render(HeaderFor(m, source))| < TWO64
    requires ReadableHeader(codec, HeaderFor(m, source))
    requires EncodedUpTo(src, Layout(m), |Layout(m)|) == Some(blobs)
    ensures ReadsBack(codec, Serialized(codec.render(HeaderFor(m, source)), blobs), HeaderFor(m, source), src)
  {
    hide SourceMatches;
    hide EncodedUpTo;
    hide Layout;
    hide Place;
    hide WellFormed;
    hide ValuesOk;
    hide Serialized;
    RoundTrip(codec, HeaderFor(m, source), src, blobs);
  }

  /** Header, then every tensor on its offset: neither internal assertion ever
      fires, and the file is the serialisation of the encoded tensors unless
      the source is refused. */
  method PreparePackage(codec: Codec, m: Shape, source: SourceInfo, src: Source) returns (r: Prepared)
    requires SourceMatches(m, src) && |codec.render(HeaderFor(m, source))| < TWO64
    ensures !r.Drift?
    ensures var blobs := EncodedUpTo(src, Layout(m), |Layout(m)|);
      r == if blobs.None? then Refused else Written(Serialized(codec.render(HeaderFor(m, source)), blobs.value))
    ensures var h := HeaderFor(m, source); r.Written? && ReadableHeader(codec, h) ==> ReadsBack(codec, r.file, h, src)
  {
    hide *;
    var layout := PackageEntries(m);
    var tensors := HeaderTensors(m);
    var text := codec.render(Header(SCHEMA, PROFILE, m, source, tensors));
    HeaderIs(m, source, tensors);
    var w := new StreamWriter();
    var start := WritePrefix(w, text);
    var pending := Pending(None, None);
    ghost var done: seq<Bytes> := [];
    StartOfLoop(src, layout, pending, text);
    for i := 0 to |layout|
      invariant w.Valid() && EncodedUpTo(src, layout, i) == Some(done) && w.out == Prefix(text) + Body(done)
      invariant Waiting(src, layout, i, pending)
      invariant start == |Prefix(text)| && Aligned(start)
    {
      WriterOnOffset(m, src, i, done);
      WriterSize(w);
      if w.size - start != tensors[i].offset {
        return Drift;
      }
      var next := WriteTensor(w, m, src, i, pending);
      EncodedNext(m, src, i);
      if next.None? {
        EncodedRefused(src, layout, i + 1, |layout|);
        return Refused;
      }
      ghost var b := Encoded(src, layout[i]).value;
      WriterSize(w);
      if w.size - start - tensors[i].offset != EntryBytes(tensors[i].entry) {
        return Drift;
      }
      PadAfter(Prefix(text), Body(done), b);
      BodySnoc(done, b);
      w.Pad();
      pending := next.value;
      done := done + [b];
    }
    SerializedIs(text, done);
    r := Written(w.out);
    if ReadableHeader(codec, HeaderFor(m, source)) { PreparedReadsBack(codec, m, source, src, done); }
  }

  method WritePrefix(w: StreamWriter, text: Bytes) returns (start: nat)
    requires w.Valid() && w.out == [] && |text| < TWO64
    modifies w
    ensures w.Valid() && w.out == Prefix(text) && start == |Prefix(text)| && Aligned(start)
  {
    hide AlignTo;
    hide LittleEndian;
    w.Write(MAGIC);
    w.Write(LittleEndian(|text|, 8));
    w.Write(text);
    assert w.out == MAGIC + LittleEndian(|text|, 8) + text;
    w.Pad();
    start := w.size;
  }

  lemma HeaderIs(m: Shape, source: SourceInfo, tensors: seq<Placement>)
    requires tensors == Place(Layout(m), 0)
    ensures Header(SCHEMA, PROFILE, m, source, tensors) == HeaderFor(m, source)
  {
  }

  lemma StartOfLoop(src: Source, layout: seq<Entry>, p: Pending, text: Bytes)
    ensures EncodedUpTo(src, layout, 0) == Some([]) && Waiting(src, layout, 0, p)
    ensures Prefix(text) == Prefix(text) + Body([])
  {
    hide Prefix;
  }

  lemma WriterSize(w: StreamWriter)
    requires w.Valid()
    ensures w.size == |w.out|
  {
  }

  lemma SerializedIs(text: Bytes, done: seq<Bytes>)
    ensures Prefix(text) + Body(done) == Serialized(text, done)
  {
  }

  lemma EncodedNext(m: Shape, src: Source, i: nat)
    requires SourceMatches(m, src) && i < |Layout(m)| && EncodedUpTo(src, Layout(m), i).Some?
    ensures var b := Encoded(src, Layout(m)[i]);
      && (b.Some? ==> |b.value| == EntryBytes(Layout(m)[i]))
      && EncodedUpTo(src, Layout(m), i + 1)
      == if b.None? then None else Some(EncodedUpTo(src, Layout(m), i).value + [b.value])
  {
    hide Encoded;
    hide LayoutUpTo;
    hide SourceMatches;
    hide EntryBytes;
    hide EntryFor;
    hide InLayout;
    EntryAt(m, m.layers, i);
    EncodedIs(m, src, Layout(m)[i].name);
  }
}
