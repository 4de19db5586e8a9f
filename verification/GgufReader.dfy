/** The GGUF header reader: a parser over a cursor, the class that runs it, and
    the round trip with the writer, refusals included. */
module GgufReader {
  import opened Arithmetic
  import opened ByteCodec
  import opened Gguf

  /** A value and the cursor behind it. */
  type Parsed<T> = Option<(T, nat)>

  function TakeAt(file: Bytes, pos: nat, n: nat): Parsed<Bytes>
  {
    if pos + n <= |file| then Some((file[pos..pos + n], pos + n)) else None
  }

  function UnsignedAt(file: Bytes, pos: nat, w: nat): Parsed<nat>
  {
    var t :- TakeAt(file, pos, w);
    Some((FromLittleEndian(t.0), t.1))
  }

  function StringAt(file: Bytes, pos: nat): Parsed<Bytes>
  {
    var n :- UnsignedAt(file, pos, 8);
    if n.0 > MAX_STRING then None
    else
      var t :- TakeAt(file, n.1, n.0);
      if Utf8(t.0) then Some(t) else None
  }

  function Scalar(vtype: nat, t: IntType, b: Bytes): int
  {
    if vtype == BOOL then (if FromLittleEndian(b) != 0 then 1 else 0) else DecodeInt(t, b)
  }

  /** A scalar or a string. */
  function ElementAt(file: Bytes, pos: nat, vtype: nat): Parsed<Value>
  {
    if ScalarType(vtype).Some? then
      var t := ScalarType(vtype).value;
      var b :- TakeAt(file, pos, t.width);
      Some((Number(vtype, Scalar(vtype, t, b.0)), b.1))
    else if vtype == STRING then
      var b :- StringAt(file, pos);
      Some((Text(b.0), b.1))
    else None
  }

  function ElementsAt(file: Bytes, pos: nat, etype: nat, n: nat): (r: Parsed<seq<Value>>)
    ensures r.Some? ==> |r.value.0| == n
  {
    if n == 0 then Some(([], pos))
    else
      var done :- ElementsAt(file, pos, etype, n - 1);
      var e :- ElementAt(file, done.1, etype);
      Some((done.0 + [e.0], e.1))
  }

  function ValueAt(file: Bytes, pos: nat, vtype: nat): Parsed<Value>
  {
    if vtype != ARRAY then ElementAt(file, pos, vtype)
    else
      var etype :- UnsignedAt(file, pos, 4);
      var n :- UnsignedAt(file, etype.1, 8);
      if n.0 > MAX_ARRAY || etype.0 == ARRAY then None
      else
        var items :- ElementsAt(file, n.1, etype.0, n.0);
        Some((List(etype.0, items.0), items.1))
  }

  function ItemAt(file: Bytes, pos: nat): Parsed<Item>
  {
    var key :- StringAt(file, pos);
    var vtype :- UnsignedAt(file, key.1, 4);
    var value :- ValueAt(file, vtype.1, vtype.0);
    Some((Item(key.0, value.0), value.1))
  }

  function ItemsAt(file: Bytes, pos: nat, n: nat): Parsed<map<Bytes, Value>>
  {
    if n == 0 then Some((map[], pos))
    else
      var done :- ItemsAt(file, pos, n - 1);
      var i :- ItemAt(file, done.1);
      if i.0.key in done.0 then None else Some((done.0[i.0.key := i.0.value], i.1))
  }

  function DimsAt(file: Bytes, pos: nat, n: nat): (r: Parsed<seq<nat>>)
    ensures r.Some? ==> |r.value.0| == n
  {
    if n == 0 then Some(([], pos))
    else
      var done :- DimsAt(file, pos, n - 1);
      var d :- UnsignedAt(file, done.1, 8);
      Some((done.0 + [d.0], d.1))
  }

  function TensorAt(file: Bytes, pos: nat): Parsed<TensorInfo>
  {
    var name :- StringAt(file, pos);
    var n :- UnsignedAt(file, name.1, 4);
    if !(1 <= n.0 <= MAX_DIMS) then None
    else
      var dims :- DimsAt(file, n.1, n.0);
      var kind :- UnsignedAt(file, dims.1, 4);
      var offset :- UnsignedAt(file, kind.1, 8);
      Some((TensorInfo(name.0, dims.0, kind.0, offset.0), offset.1))
  }

  predicate Named(ts: seq<TensorInfo>, name: Bytes) { exists i | 0 <= i < |ts| :: ts[i].name == name }

  function TensorsAt(file: Bytes, pos: nat, n: nat): Parsed<seq<TensorInfo>>
  {
    if n == 0 then Some(([], pos))
    else
      var done :- TensorsAt(file, pos, n - 1);
      var t :- TensorAt(file, done.1);
      if Named(done.0, t.0.name) then None else Some((done.0 + [t.0], t.1))
  }

  function ReadHeader(file: Bytes): Option<Header>
  {
    var magic :- TakeAt(file, 0, 4);
    if magic.0 != MAGIC then None
    else
      var version :- UnsignedAt(file, 4, 4);
      if version.0 != 2 && version.0 != 3 then None
      else
        var nTensors :- UnsignedAt(file, 8, 8);
        var nItems :- UnsignedAt(file, 16, 8);
        if nTensors.0 > MAX_TENSORS then None
        else
          var metadata :- ItemsAt(file, 24, nItems.0);
          var tensors :- TensorsAt(file, metadata.1, nTensors.0);
          Some(Header(version.0, metadata.0, tensors.0, tensors.1))
  }

  // ---- what is found where the writer put it -----------------------------------------

  predicate At(file: Bytes, pos: nat, b: Bytes) { pos + |b| <= |file| && file[pos..pos + |b|] == b }

  lemma AtParts(file: Bytes, pos: nat, a: Bytes, b: Bytes)
    requires At(file, pos, a + b)
    ensures At(file, pos, a) && At(file, pos + |a|, b)
  {
    var c := a + b;
    assert file[pos..pos + |c|] == c;
    assert file[pos..pos + |a|] == c[..|a|] == a;
    assert file[pos + |a|..pos + |a| + |b|] == c[|a|..] == b;
  }

  lemma UnsignedWritten(file: Bytes, pos: nat, x: nat, w: nat)
    requires At(file, pos, LittleEndian(x, w)) && x < Pow256(w)
    ensures UnsignedAt(file, pos, w) == Some((x, pos + w))
  {
    LittleEndianRoundTrip(x, w);
  }

  lemma WordWritten(file: Bytes, pos: nat, x: nat)
    requires At(file, pos, LittleEndian(x, 4)) && x < TWO32
    ensures UnsignedAt(file, pos, 4) == Some((x, pos + 4))
  {
    Pow256Values();
    UnsignedWritten(file, pos, x, 4);
  }

  lemma LongWritten(file: Bytes, pos: nat, x: nat)
    requires At(file, pos, LittleEndian(x, 8)) && x < TWO64
    ensures UnsignedAt(file, pos, 8) == Some((x, pos + 8))
  {
    Pow256Values();
    UnsignedWritten(file, pos, x, 8);
  }

  lemma StringWritten(file: Bytes, pos: nat, b: Bytes)
    requires WritableText(b) && At(file, pos, PackString(b))
    ensures StringAt(file, pos) == if |b| <= MAX_STRING then Some((b, pos + |PackString(b)|)) else None
  {
    hide UnsignedAt;
    hide LittleEndian;
    hide Utf8;
    AtParts(file, pos, LittleEndian(|b|, 8), b);
    LongWritten(file, pos, |b|);
  }

  predicate ReadableElement(v: Value) { v.Text? ==> |v.b| <= MAX_STRING }

  predicate ReadableValue(v: Value)
  {
    if v.List? then
      |v.items| <= MAX_ARRAY && v.etype != ARRAY && forall i | 0 <= i < |v.items| :: ReadableElement(v.items[i])
    else ReadableElement(v)
  }

  lemma ElementWritten(file: Bytes, pos: nat, v: Value)
    requires WritableElement(v) && At(file, pos, PackElement(v))
    ensures ElementAt(file, pos, TypeCode(v))
         == if ReadableElement(v) then Some((v, pos + |PackElement(v)|)) else None
  {
    hide StringAt;
    hide LittleEndian;
    hide WritableText;
    hide PackString;
    match v
    case Number(t, x) =>
      var it := ScalarType(t).value;
      IntRoundTrip(it, x);
      hide EncodeInt;
      hide DecodeInt;
      if t == BOOL { ByteWritten(x); }
    case Text(b) =>
      StringWritten(file, pos, b);
  }

  lemma ByteWritten(x: nat)
    requires x < 256
    ensures FromLittleEndian(EncodeInt(IntType(1, false), x)) == x
  {
    Pow256Values();
    LittleEndianRoundTrip(x, 1);
  }

  lemma {:induction false} ElementsWritten(file: Bytes, pos: nat, etype: nat, items: seq<Value>, n: nat)
    requires n <= |items| && forall i | 0 <= i < |items| :: TypeCode(items[i]) == etype && WritableElement(items[i])
    requires At(file, pos, PackElements(items, n))
    ensures ElementsAt(file, pos, etype, n)
         == if forall i | 0 <= i < n :: ReadableElement(items[i])
            then Some((items[..n], pos + |PackElements(items, n)|)) else None
  {
    hide ElementAt;
    hide PackElement;
    hide ReadableElement;
    hide At;
    hide WritableElement;
    if n > 0 {
      AtParts(file, pos, PackElements(items, n - 1), PackElement(items[n - 1]));
      ElementsWritten(file, pos, etype, items, n - 1);
      if forall i | 0 <= i < n - 1 :: ReadableElement(items[i]) {
        ElementWritten(file, pos + |PackElements(items, n - 1)|, items[n - 1]);
        assert items[..n] == items[..n - 1] + [items[n - 1]];
      }
    }
  }

  lemma ValueWritten(file: Bytes, pos: nat, v: Value)
    requires WritableValue(v) && At(file, pos, PackValue(v))
    ensures ValueAt(file, pos, TypeCode(v))
         == if ReadableValue(v) then Some((v, pos + |PackValue(v)|)) else None
  {
    hide ElementAt;
    hide ElementsAt;
    hide UnsignedAt;
    hide PackElement;
    hide ReadableElement;
    hide LittleEndian;
    hide At;
    if v.List? {
      ListWritten(file, pos, v);
    } else {
      ElementWritten(file, pos, v);
    }
  }

  lemma ListWritten(file: Bytes, pos: nat, v: Value)
    requires v.List? && WritableValue(v) && At(file, pos, PackValue(v))
    ensures ValueAt(file, pos, ARRAY) == if ReadableValue(v) then Some((v, pos + |PackValue(v)|)) else None
  {
    hide ElementsAt;
    hide UnsignedAt;
    hide PackElements;
    hide ReadableElement;
    hide WritableElement;
    hide LittleEndian;
    hide At;
    var n := |v.items|;
    var e, c, b := LittleEndian(v.etype, 4), LittleEndian(n, 8), PackElements(v.items, n);
    AtParts(file, pos, e + c, b);
    AtParts(file, pos, e, c);
    WordWritten(file, pos, v.etype);
    LongWritten(file, pos + 4, n);
    ElementsWritten(file, pos + 12, v.etype, v.items, n);
    assert v.items[..n] == v.items;
  }

  // ---- metadata ------------------------------------------------------------------

  predicate ReadableItem(i: Item) { |i.key| <= MAX_STRING && ReadableValue(i.value) }

  lemma ItemWritten(file: Bytes, pos: nat, i: Item)
    requires WritableText(i.key) && WritableValue(i.value) && At(file, pos, PackItem(i))
    ensures ItemAt(file, pos) == if ReadableItem(i) then Some((i, pos + |PackItem(i)|)) else None
  {
    hide StringAt;
    hide UnsignedAt;
    hide ValueAt;
    hide LittleEndian;
    hide At;
    hide PackString;
    hide PackValue;
    hide ReadableValue;
    var k, t, v := PackString(i.key), LittleEndian(TypeCode(i.value), 4), PackValue(i.value);
    AtParts(file, pos, k + t, v);
    AtParts(file, pos, k, t);
    StringWritten(file, pos, i.key);
    CodeSmall(i.value);
    WordWritten(file, pos + |k|, TypeCode(i.value));
    ValueWritten(file, pos + |k| + 4, i.value);
  }

  lemma CodeSmall(v: Value)
    requires WritableValue(v)
    ensures TypeCode(v) < TWO32
  {
  }

  /** The dictionary of the first `n` items. */
  function FromItems(items: seq<Item>, n: nat): (m: map<Bytes, Value>)
    requires n <= |items|
  {
    if n == 0 then map[] else FromItems(items, n - 1)[items[n - 1].key := items[n - 1].value]
  }

  lemma {:induction false} FromItemsKeys(items: seq<Item>, n: nat, key: Bytes)
    requires n <= |items|
    ensures key in FromItems(items, n) <==> exists i | 0 <= i < n :: items[i].key == key
  {
    if n > 0 { FromItemsKeys(items, n - 1, key); }
  }

  /** With distinct keys nothing is overwritten. */
  lemma {:induction false} FromItemsHolds(items: seq<Item>, n: nat, i: nat)
    requires i < n <= |items| && forall a, b | 0 <= a < b < n :: items[a].key != items[b].key
    ensures items[i].key in FromItems(items, n) && FromItems(items, n)[items[i].key] == items[i].value
  {
    if i < n - 1 { FromItemsHolds(items, n - 1, i); }
  }

  predicate ReadableItems(items: seq<Item>, n: nat)
    requires n <= |items|
  {
    && (forall i | 0 <= i < n :: ReadableItem(items[i]))
    && forall i, j | 0 <= i < j < n :: items[i].key != items[j].key
  }

  lemma {:induction false} ItemsWritten(file: Bytes, pos: nat, items: seq<Item>, n: nat)
    requires n <= |items| && WritableItems(items) && At(file, pos, PackItems(items, n))
    ensures ItemsAt(file, pos, n)
         == if ReadableItems(items, n) then Some((FromItems(items, n), pos + |PackItems(items, n)|)) else None
  {
    hide ItemAt;
    hide PackItem;
    hide ReadableItem;
    hide At;
    hide WritableText;
    hide WritableValue;
    if n > 0 {
      AtParts(file, pos, PackItems(items, n - 1), PackItem(items[n - 1]));
      ItemsWritten(file, pos, items, n - 1);
      FromItemsKeys(items, n - 1, items[n - 1].key);
      if ReadableItems(items, n - 1) {
        ItemWritten(file, pos + |PackItems(items, n - 1)|, items[n - 1]);
      }
    }
  }

  // ---- tensor table ----------------------------------------------------------------

  lemma {:induction false} DimsWritten(file: Bytes, pos: nat, dims: seq<nat>, n: nat)
    requires n <= |dims| && (forall i | 0 <= i < |dims| :: dims[i] < TWO64) && At(file, pos, PackDims(dims, n))
    ensures DimsAt(file, pos, n) == Some((dims[..n], pos + |PackDims(dims, n)|))
  {
    hide UnsignedAt;
    hide LittleEndian;
    hide At;
    if n > 0 {
      AtParts(file, pos, PackDims(dims, n - 1), LittleEndian(dims[n - 1], 8));
      DimsWritten(file, pos, dims, n - 1);
      LongWritten(file, pos + |PackDims(dims, n - 1)|, dims[n - 1]);
      assert dims[..n] == dims[..n - 1] + [dims[n - 1]];
    }
  }

  predicate ReadableTensor(t: Tensor) { |t.name| <= MAX_STRING && 1 <= |t.shape| <= MAX_DIMS }

  function InfoOf(t: Tensor, offset: nat): TensorInfo { TensorInfo(t.name, Reversed(t.shape), 0, offset) }

  lemma TensorWritten(file: Bytes, pos: nat, t: Tensor, offset: nat)
    requires WritableTensor(t) && offset < TWO64 && At(file, pos, PackTensor(t, offset))
    ensures TensorAt(file, pos)
         == if ReadableTensor(t) then Some((InfoOf(t, offset), pos + |PackTensor(t, offset)|)) else None
  {
    hide StringAt;
    hide UnsignedAt;
    hide DimsAt;
    hide LittleEndian;
    hide At;
    hide PackString;
    hide PackDims;
    var n := |t.shape|;
    var a, b, c := PackString(t.name), LittleEndian(n, 4), PackDims(Reversed(t.shape), n);
    var d, e := LittleEndian(0, 4), LittleEndian(offset, 8);
    AtParts(file, pos, a + b + c + d, e);
    AtParts(file, pos, a + b + c, d);
    AtParts(file, pos, a + b, c);
    AtParts(file, pos, a, b);
    StringWritten(file, pos, t.name);
    WordWritten(file, pos + |a|, n);
    DimsWritten(file, pos + |a| + 4, Reversed(t.shape), n);
    WordWritten(file, pos + |a + b + c|, 0);
    LongWritten(file, pos + |a + b + c| + 4, offset);
    assert Reversed(t.shape)[..n] == Reversed(t.shape);
  }

  function Infos(ts: seq<Tensor>, n: nat, a: nat): (r: seq<TensorInfo>)
    requires a > 0 && n <= |ts|
    ensures |r| == n
  {
    seq(n, i requires 0 <= i < n => InfoOf(ts[i], OffsetAt(ts, i, a)))
  }

  predicate ReadableTensors(ts: seq<Tensor>, n: nat)
    requires n <= |ts|
  {
    && (forall i | 0 <= i < n :: ReadableTensor(ts[i]))
    && forall i, j | 0 <= i < j < n :: ts[i].name != ts[j].name
  }

  lemma {:induction false} TensorsWritten(file: Bytes, pos: nat, ts: seq<Tensor>, n: nat, a: nat)
    requires a > 0 && n <= |ts| && WritableTensors(ts, a) && At(file, pos, PackTensors(ts, n, a))
    ensures TensorsAt(file, pos, n)
         == if ReadableTensors(ts, n) then Some((Infos(ts, n, a), pos + |PackTensors(ts, n, a)|)) else None
  {
    hide TensorAt;
    hide PackTensor;
    hide ReadableTensor;
    hide At;
    hide WritableTensor;
    hide OffsetAt;
    hide AlignTo;
    if n > 0 {
      var offset := OffsetAt(ts, n - 1, a);
      AtParts(file, pos, PackTensors(ts, n - 1, a), PackTensor(ts[n - 1], offset));
      TensorsWritten(file, pos, ts, n - 1, a);
      if ReadableTensors(ts, n - 1) {
        TensorWritten(file, pos + |PackTensors(ts, n - 1, a)|, ts[n - 1], offset);
        var done := Infos(ts, n - 1, a);
        assert Infos(ts, n, a) == done + [InfoOf(ts[n - 1], offset)];
        assert Named(done, ts[n - 1].name) <==> exists i | 0 <= i < n - 1 :: ts[i].name == ts[n - 1].name by {
          forall i | 0 <= i < n - 1
            ensures done[i].name == ts[i].name
          {
            assert done[i] == InfoOf(ts[i], OffsetAt(ts, i, a));
          }
        }
      }
    }
  }

  // ---- the round trip ----------------------------------------------------------------

  /** What the reader's bounds and uniqueness checks ask of the writer's input. */
  predicate Readable(items: seq<Item>, ts: seq<Tensor>)
  {
    |ts| <= MAX_TENSORS && ReadableItems(items, |items|) && ReadableTensors(ts, |ts|)
  }

  lemma PreambleRead(file: Bytes, nTensors: nat, nItems: nat)
    requires nTensors < TWO64 && nItems < TWO64 && At(file, 0, Preamble(nTensors, nItems))
    ensures TakeAt(file, 0, 4) == Some((MAGIC, 4)) && UnsignedAt(file, 4, 4) == Some((3, 8))
    ensures UnsignedAt(file, 8, 8) == Some((nTensors, 16)) && UnsignedAt(file, 16, 8) == Some((nItems, 24))
  {
    hide UnsignedAt;
    hide LittleEndian;
    var v, t, i := LittleEndian(3, 4), LittleEndian(nTensors, 8), LittleEndian(nItems, 8);
    AtParts(file, 0, MAGIC + v + t, i);
    AtParts(file, 0, MAGIC + v, t);
    AtParts(file, 0, MAGIC, v);
    WordWritten(file, 4, 3);
    LongWritten(file, 8, nTensors);
    LongWritten(file, 16, nItems);
  }

  /** Reading what was written: exactly the readable inputs come back, and the
      cursor ends where the tensor table does, whatever data follows. */
  lemma RoundTrip(items: seq<Item>, ts: seq<Tensor>, a: nat, file: Bytes)
    requires a > 0 && WritableItems(items) && WritableTensors(ts, a) && At(file, 0, HeaderBytes(items, ts, a))
    ensures ReadHeader(file)
         == if Readable(items, ts)
            then Some(Header(3, FromItems(items, |items|), Infos(ts, |ts|, a), |HeaderBytes(items, ts, a)|))
            else None
  {
    hide TakeAt;
    hide UnsignedAt;
    hide ItemsAt;
    hide TensorsAt;
    hide At;
    hide Preamble;
    hide PackItems;
    hide PackTensors;
    hide ReadableItems;
    hide ReadableTensors;
    hide FromItems;
    hide Infos;
    var p, m, t := Preamble(|ts|, |items|), PackItems(items, |items|), PackTensors(ts, |ts|, a);
    AtParts(file, 0, p + m, t);
    AtParts(file, 0, p, m);
    PreambleRead(file, |ts|, |items|);
    PreambleLength(|ts|, |items|);
    ItemsWritten(file, 24, items, |items|);
    TensorsWritten(file, 24 + |m|, ts, |ts|, a);
  }

  lemma PreambleLength(nTensors: nat, nItems: nat)
    ensures |Preamble(nTensors, nItems)| == 24
  {
  }

  // ---- the data section ------------------------------------------------------------

  /** Offsets are aligned and in order, one blob after the other. */
  lemma {:induction false} OffsetsApart(ts: seq<Tensor>, i: nat, j: nat, a: nat)
    requires a > 0 && i <= j <= |ts|
    ensures OffsetAt(ts, j, a) % a == 0
    ensures i < j ==> OffsetAt(ts, i, a) + BlobBytes(ts[i]) <= OffsetAt(ts, j, a)
    ensures i == j ==> OffsetAt(ts, i, a) <= OffsetAt(ts, j, a)
  {
    hide AlignTo;
    hide BlobBytes;
    if j > 0 {
      OffsetsApart(ts, Min(i, j - 1), j - 1, a);
      SumAligned(OffsetAt(ts, j - 1, a), AlignTo(BlobBytes(ts[j - 1]), a), a);
    }
  }

  lemma SumAligned(x: nat, y: nat, a: nat)
    requires a > 0 && x % a == 0 && y % a == 0
    ensures (x + y) % a == 0
  {
    var p, q := x / a, y / a;
    assert x == p * a && y == q * a;
    Distribute(p, q, a);
    MultipleOf(p + q, a);
  }

  lemma {:induction false} DataLength(ts: seq<Tensor>, n: nat, a: nat)
    requires a > 0 && n <= |ts| && WritableTensors(ts, a)
    ensures |DataBytes(ts, n, a)| == OffsetAt(ts, n, a)
  {
    hide AlignTo;
    hide WritableTensor;
    hide BlobOf;
    hide OffsetAt;
    hide PadTo;
    hide PackTensors;
    if n == 0 {
      TableStart(ts, a);
    } else {
      DataLength(ts, n - 1, a);
      TableNext(ts, n - 1, a);
    }
  }

  lemma {:induction false} DataAt(ts: seq<Tensor>, n: nat, i: nat, a: nat)
    requires a > 0 && i < n <= |ts| && WritableTensors(ts, a)
    ensures At(DataBytes(ts, n, a), OffsetAt(ts, i, a), BlobOf(ts[i]))
  {
    hide AlignTo;
    hide WritableTensor;
    hide BlobOf;
    hide OffsetAt;
    var done, last := DataBytes(ts, n - 1, a), PadTo(BlobOf(ts[n - 1]), a);
    assert DataBytes(ts, n, a) == done + last;
    DataLength(ts, n - 1, a);
    if i < n - 1 {
      DataAt(ts, n - 1, i, a);
      AtPrefix(done, last, OffsetAt(ts, i, a), BlobOf(ts[i]));
    } else {
      hide DataBytes;
      AtSuffix(done, last, BlobOf(ts[i]));
    }
  }

  lemma AtPrefix(a: Bytes, b: Bytes, pos: nat, x: Bytes)
    requires At(a, pos, x)
    ensures At(a + b, pos, x)
  {
    assert (a + b)[pos..pos + |x|] == a[pos..pos + |x|];
  }

  lemma AtSuffix(a: Bytes, b: Bytes, x: Bytes)
    requires |x| <= |b| && b[..|x|] == x
    ensures At(a + b, |a|, x)
  {
    assert (a + b)[|a|..|a| + |x|] == b[..|x|];
  }

  /** Every blob lies where the header's offset says, in a data section that
      starts at the first aligned byte after the table. */
  lemma BlobsInPlace(items: seq<Item>, ts: seq<Tensor>, a: nat, i: nat)
    requires a > 0 && WritableItems(items) && WritableTensors(ts, a) && i < |ts|
    ensures var h, file := HeaderBytes(items, ts, a), FileBytes(items, ts, a);
      && At(file, 0, h)
      && At(file, AlignTo(|h|, a) + Infos(ts, |ts|, a)[i].offset, BlobOf(ts[i]))
      && |BlobOf(ts[i])| == 4 * |ts[i].values|
  {
    hide AlignTo;
    hide WritableItems;
    hide HeaderBytes;
    hide DataBytes;
    hide BlobOf;
    hide WritableTensor;
    hide OffsetAt;
    hide PadTo;
    var h, data := PadTo(HeaderBytes(items, ts, a), a), DataBytes(ts, |ts|, a);
    DataAt(ts, |ts|, i, a);
    BlobLength(ts[i]);
    AtShifted(h, data, OffsetAt(ts, i, a), BlobOf(ts[i]));
    HeaderInFront(HeaderBytes(items, ts, a), data, a);
  }

  lemma AtShifted(a: Bytes, b: Bytes, pos: nat, x: Bytes)
    requires At(b, pos, x)
    ensures At(a + b, |a| + pos, x)
  {
    assert (a + b)[|a| + pos..|a| + pos + |x|] == b[pos..pos + |x|];
  }

  lemma HeaderInFront(h: Bytes, data: Bytes, a: nat)
    requires a > 0
    ensures At(PadTo(h, a) + data, 0, h)
  {
    hide AlignTo;
    assert (PadTo(h, a) + data)[..|h|] == PadTo(h, a)[..|h|];
  }

  /** The whole law: a written file reads back just when its input is readable,
      with every item, every tensor, and the cursor on the end of the table. */
  lemma WriteThenRead(items: seq<Item>, ts: seq<Tensor>, a: nat)
    requires a > 0 && WritableItems(items) && WritableTensors(ts, a)
    ensures var r := ReadHeader(FileBytes(items, ts, a));
      && (r.Some? <==> Readable(items, ts))
      && (r.Some? ==>
          && r.value.version == 3 && r.value.headerBytes == |HeaderBytes(items, ts, a)|
          && (forall i | 0 <= i < |items| ::
                items[i].key in r.value.metadata && r.value.metadata[items[i].key] == items[i].value)
          && (forall k | k in r.value.metadata :: exists i | 0 <= i < |items| :: items[i].key == k)
          && |r.value.tensors| == |ts|
          && forall i | 0 <= i < |ts| ::
               r.value.tensors[i] == TensorInfo(ts[i].name, Reversed(ts[i].shape), 0, OffsetAt(ts, i, a)))
  {
    hide AlignTo;
    hide HeaderBytes;
    hide DataBytes;
    hide ReadHeader;
    hide FromItems;
    hide WritableItems;
    hide WritableTensors;
    hide ReadableTensors;
    hide ReadableItem;
    hide OffsetAt;
    HeaderInFront(HeaderBytes(items, ts, a), DataBytes(ts, |ts|, a), a);
    RoundTrip(items, ts, a, FileBytes(items, ts, a));
    if Readable(items, ts) {
      forall i | 0 <= i < |items|
        ensures items[i].key in FromItems(items, |items|) && FromItems(items, |items|)[items[i].key] == items[i].value
      {
        FromItemsHolds(items, |items|, i);
      }
      forall k | k in FromItems(items, |items|)
        ensures exists i | 0 <= i < |items| :: items[i].key == k
      {
        FromItemsKeys(items, |items|, k);
      }
    }
  }

  /** The writer takes an empty array that claims to hold arrays; the reader
      refuses the file. */
  lemma EmptyNestedArrayRefused()
    ensures WritableItems([Item([], List(ARRAY, []))]) && WritableTensors([], 32)
    ensures ReadHeader(FileBytes([Item([], List(ARRAY, []))], [], 32)).None?
  {
    var items := [Item([], List(ARRAY, []))];
    assert !ReadableItem(items[0]);
    WriteThenRead(items, [], 32);
  }

  // ---- the cursor ----------------------------------------------------------------

  /** The reader object: a file and a moving position. */
  class Cursor {
    const file: Bytes
    var pos: nat

    constructor (bytes: Bytes)
      ensures file == bytes && pos == 0
    {
      file := bytes;
      pos := 0;
    }

    /** Ties a result and the new position to the parser. */
    ghost predicate Moved<T>(r: Option<T>, spec: Parsed<T>)
      reads this
    {
      if spec.None? then r.None? else r == Some(spec.value.0) && pos == spec.value.1
    }

    method Take(n: nat) returns (r: Option<Bytes>)
      modifies this
      ensures Moved(r, TakeAt(file, old(pos), n))
    {
      if pos + n > |file| {
        pos := Max(pos, |file|);
        return None;
      }
      r := Some(file[pos..pos + n]);
      pos := pos + n;
    }

    method Unsigned(w: nat) returns (r: Option<nat>)
      modifies this
      ensures Moved(r, UnsignedAt(file, old(pos), w))
    {
      var b := Take(w);
      r := if b.None? then None else Some(FromLittleEndian(b.value));
    }

    method String() returns (r: Option<Bytes>)
      modifies this
      ensures Moved(r, StringAt(file, old(pos)))
    {
      hide UnsignedAt;
      hide TakeAt;
      hide Utf8;
      var n := Unsigned(8);
      if n.None? || n.value > MAX_STRING {
        return None;
      }
      var b := Take(n.value);
      if b.None? || !Utf8(b.value) {
        return None;
      }
      r := b;
    }

    method Element(vtype: nat) returns (r: Option<Value>)
      modifies this
      ensures Moved(r, ElementAt(file, old(pos), vtype))
    {
      hide TakeAt;
      hide StringAt;
      hide Scalar;
      var t := ScalarType(vtype);
      if t.Some? {
        var b := Take(t.value.width);
        r := if b.None? then None else Some(Number(vtype, Scalar(vtype, t.value, b.value)));
      } else if vtype == STRING {
        var b := String();
        r := if b.None? then None else Some(Text(b.value));
      } else {
        r := None;
      }
    }

    method Elements(etype: nat, n: nat) returns (r: Option<seq<Value>>)
      modifies this
      ensures Moved(r, ElementsAt(file, old(pos), etype, n))
    {
      hide ElementAt;
      var out: seq<Value> := [];
      for i := 0 to n
        invariant ElementsAt(file, old(pos), etype, i) == Some((out, pos))
      {
        var e := Element(etype);
        if e.None? {
          ElementsStopped(file, old(pos), etype, i + 1, n);
          return None;
        }
        out := out + [e.value];
      }
      r := Some(out);
    }

    method ValueOf(vtype: nat) returns (r: Option<Value>)
      modifies this
      ensures Moved(r, ValueAt(file, old(pos), vtype))
    {
      hide ElementAt;
      hide ElementsAt;
      hide UnsignedAt;
      if vtype != ARRAY {
        r := Element(vtype);
        return;
      }
      var etype := Unsigned(4);
      if etype.None? {
        return None;
      }
      var n := Unsigned(8);
      if n.None? || n.value > MAX_ARRAY || etype.value == ARRAY {
        return None;
      }
      var items := Elements(etype.value, n.value);
      r := if items.None? then None else Some(List(etype.value, items.value));
    }

    method MetadataItem() returns (r: Option<Item>)
      modifies this
      ensures Moved(r, ItemAt(file, old(pos)))
    {
      hide StringAt;
      hide UnsignedAt;
      hide ValueAt;
      var key := String();
      if key.None? {
        return None;
      }
      var vtype := Unsigned(4);
      if vtype.None? {
        return None;
      }
      var value := ValueOf(vtype.value);
      r := if value.None? then None else Some(Item(key.value, value.value));
    }

    method Metadata(n: nat) returns (r: Option<map<Bytes, Value>>)
      modifies this
      ensures Moved(r, ItemsAt(file, old(pos), n))
    {
      hide ItemAt;
      var out: map<Bytes, Value> := map[];
      for i := 0 to n
        invariant ItemsAt(file, old(pos), i) == Some((out, pos))
      {
        var item := MetadataItem();
        if item.None? || item.value.key in out {
          ItemsStopped(file, old(pos), i + 1, n);
          return None;
        }
        out := out[item.value.key := item.value.value];
      }
      r := Some(out);
    }

    method Dims(n: nat) returns (r: Option<seq<nat>>)
      modifies this
      ensures Moved(r, DimsAt(file, old(pos), n))
    {
      hide UnsignedAt;
      var out: seq<nat> := [];
      for i := 0 to n
        invariant DimsAt(file, old(pos), i) == Some((out, pos))
      {
        var d := Unsigned(8);
        if d.None? {
          DimsStopped(file, old(pos), i + 1, n);
          return None;
        }
        out := out + [d.value];
      }
      r := Some(out);
    }

    method TensorEntry() returns (r: Option<TensorInfo>)
      modifies this
      ensures Moved(r, TensorAt(file, old(pos)))
    {
      hide StringAt;
      hide UnsignedAt;
      hide DimsAt;
      var name := String();
      if name.None? {
        return None;
      }
      var n := Unsigned(4);
      if n.None? || !(1 <= n.value <= MAX_DIMS) {
        return None;
      }
      var dims := Dims(n.value);
      if dims.None? {
        return None;
      }
      var kind := Unsigned(4);
      if kind.None? {
        return None;
      }
      var offset := Unsigned(8);
      r := if offset.None? then None else Some(TensorInfo(name.value, dims.value, kind.value, offset.value));
    }

    method Table(n: nat) returns (r: Option<seq<TensorInfo>>)
      modifies this
      ensures Moved(r, TensorsAt(file, old(pos), n))
    {
      hide TensorAt;
      var out: seq<TensorInfo> := [];
      var names: set<Bytes> := {};
      for i := 0 to n
        invariant TensorsAt(file, old(pos), i) == Some((out, pos))
        invariant forall x :: x in names <==> Named(out, x)
      {
        var t := TensorEntry();
        if t.None? || t.value.name in names {
          TensorsStopped(file, old(pos), i + 1, n);
          return None;
        }
        NamedNext(out, t.value);
        names := names + {t.value.name};
        out := out + [t.value];
      }
      r := Some(out);
    }
  }

  lemma NamedNext(ts: seq<TensorInfo>, t: TensorInfo)
    ensures forall x :: Named(ts + [t], x) <==> Named(ts, x) || x == t.name
  {
    forall x
      ensures Named(ts + [t], x) <==> Named(ts, x) || x == t.name
    {
      if x == t.name { assert (ts + [t])[|ts|].name == x; }
      if Named(ts, x) {
        var i :| 0 <= i < |ts| && ts[i].name == x;
        assert (ts + [t])[i].name == x;
      }
    }
  }

  lemma {:induction false} ElementsStopped(file: Bytes, pos: nat, etype: nat, i: nat, n: nat)
    requires i <= n && ElementsAt(file, pos, etype, i).None?
    ensures ElementsAt(file, pos, etype, n).None?
  {
    hide ElementAt;
    if i < n { ElementsStopped(file, pos, etype, i, n - 1); }
  }

  lemma {:induction false} ItemsStopped(file: Bytes, pos: nat, i: nat, n: nat)
    requires i <= n && ItemsAt(file, pos, i).None?
    ensures ItemsAt(file, pos, n).None?
  {
    hide ItemAt;
    if i < n { ItemsStopped(file, pos, i, n - 1); }
  }

  lemma {:induction false} DimsStopped(file: Bytes, pos: nat, i: nat, n: nat)
    requires i <= n && DimsAt(file, pos, i).None?
    ensures DimsAt(file, pos, n).None?
  {
    hide UnsignedAt;
    if i < n { DimsStopped(file, pos, i, n - 1); }
  }

  lemma {:induction false} TensorsStopped(file: Bytes, pos: nat, i: nat, n: nat)
    requires i <= n && TensorsAt(file, pos, i).None?
    ensures TensorsAt(file, pos, n).None?
  {
    hide TensorAt;
    if i < n { TensorsStopped(file, pos, i, n - 1); }
  }

  /** read_header over a fresh cursor. */
  method ReadFile(file: Bytes) returns (r: Option<Header>)
    ensures r == ReadHeader(file)
  {
    hide UnsignedAt;
    hide TakeAt;
    hide ItemsAt;
    hide TensorsAt;
    var c := new Cursor(file);
    var magic := c.Take(4);
    if magic.None? || magic.value != MAGIC {
      return None;
    }
    AfterTake(file, 0, 4);
    var version := c.Unsigned(4);
    if version.None? || (version.value != 2 && version.value != 3) {
      return None;
    }
    AfterUnsigned(file, 4, 4);
    var nTensors := c.Unsigned(8);
    if nTensors.None? {
      return None;
    }
    AfterUnsigned(file, 8, 8);
    var nItems := c.Unsigned(8);
    if nItems.None? || nTensors.value > MAX_TENSORS {
      return None;
    }
    AfterUnsigned(file, 16, 8);
    var metadata := c.Metadata(nItems.value);
    if metadata.None? {
      return None;
    }
    var tensors := c.Table(nTensors.value);
    if tensors.None? {
      return None;
    }
    r := Some(Header(version.value, metadata.value, tensors.value, c.pos));
  }

  lemma AfterTake(file: Bytes, pos: nat, n: nat)
    ensures TakeAt(file, pos, n).Some? ==> TakeAt(file, pos, n).value.1 == pos + n
  {
  }

  lemma AfterUnsigned(file: Bytes, pos: nat, w: nat)
    ensures UnsignedAt(file, pos, w).Some? ==> UnsignedAt(file, pos, w).value.1 == pos + w
  {
  }
}
