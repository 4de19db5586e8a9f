/** GGUF headers (version 2 and 3) as bytes: what the writer produces and the
    cursor reader, which stops at the end of the tensor table. Text is its
    UTF-8 bytes, floating-point numbers are their bit patterns. */
module Gguf {
  import opened Arithmetic
  import opened ByteCodec

  const MAGIC: Bytes := [71, 71, 85, 70]
  const BOOL: nat := 7
  const STRING: nat := 8
  const ARRAY: nat := 9
  const MAX_STRING: nat := 0x100_0000
  const MAX_ARRAY: nat := 0x100_0000
  const MAX_TENSORS: nat := 0x1_0000
  const MAX_DIMS: nat := 4

  /** How the scalar value types are stored. */
  function ScalarType(vtype: nat): (t: Option<IntType>)
    ensures t.Some? ==> t.value.width in {1, 2, 4, 8} && vtype != STRING && vtype != ARRAY
  {
    match vtype
    case 0 => Some(IntType(1, false))
    case 1 => Some(IntType(1, true))
    case 2 => Some(IntType(2, false))
    case 3 => Some(IntType(2, true))
    case 4 => Some(IntType(4, false))
    case 5 => Some(IntType(4, true))
    case 6 => Some(IntType(4, false))
    case 7 => Some(IntType(1, false))
    case 10 => Some(IntType(8, false))
    case 11 => Some(IntType(8, true))
    case 12 => Some(IntType(8, false))
    case _ => None
  }

  datatype Value = Number(vtype: nat, v: int) | Text(b: Bytes) | List(etype: nat, items: seq<Value>)

  function TypeCode(v: Value): nat
  {
    match v
    case Number(t, _) => t
    case Text(_) => STRING
    case List(_, _) => ARRAY
  }

  datatype Item = Item(key: Bytes, value: Value)

  /** Shape outermost first, values as 32-bit patterns. */
  datatype Tensor = Tensor(name: Bytes, shape: seq<nat>, values: Vec)

  datatype TensorInfo = TensorInfo(name: Bytes, dims: seq<nat>, ggmlType: nat, offset: nat)

  datatype Header = Header(version: nat, metadata: map<Bytes, Value>, tensors: seq<TensorInfo>, headerBytes: nat)

  // ---- text ---------------------------------------------------------------------

  predicate Tail(b: Byte) { 0x80 <= b < 0xC0 }

  /** The length of a well-formed UTF-8 character at the start, 0 if none. */
  function CharLength(b: Bytes): (n: nat)
    ensures n <= |b|
  {
    if |b| >= 1 && b[0] < 0x80 then 1
    else if |b| >= 2 && 0xC2 <= b[0] < 0xE0 && Tail(b[1]) then 2
    else if |b| >= 3 && 0xE0 <= b[0] < 0xF0 && Tail(b[1]) && Tail(b[2])
            && (b[0] == 0xE0 ==> b[1] >= 0xA0) && (b[0] == 0xED ==> b[1] < 0xA0) then 3
    else if |b| >= 4 && 0xF0 <= b[0] < 0xF5 && Tail(b[1]) && Tail(b[2]) && Tail(b[3])
            && (b[0] == 0xF0 ==> b[1] >= 0x90) && (b[0] == 0xF4 ==> b[1] < 0x90) then 4
    else 0
  }

  predicate Utf8(b: Bytes)
    decreases |b|
  {
    b == [] || (CharLength(b) > 0 && Utf8(b[CharLength(b)..]))
  }

  // ---- what the writer is given -----------------------------------------------------

  predicate WritableText(b: Bytes) { |b| < TWO64 && Utf8(b) }

  predicate WritableElement(v: Value)
  {
    match v
    case Number(t, x) => ScalarType(t).Some? && Fits(ScalarType(t).value, x) && (t == BOOL ==> x < 2)
    case Text(b) => WritableText(b)
    case List(_, _) => false
  }

  /** Arrays hold scalars or strings of one type; an empty one may claim any. */
  predicate WritableValue(v: Value)
  {
    if v.List? then
      && v.etype < TWO32 && |v.items| < TWO64
      && forall i | 0 <= i < |v.items| :: TypeCode(v.items[i]) == v.etype && WritableElement(v.items[i])
    else WritableElement(v)
  }

  predicate WritableItems(items: seq<Item>)
  {
    |items| < TWO64 && forall i | 0 <= i < |items| :: WritableText(items[i].key) && WritableValue(items[i].value)
  }

  predicate WritableTensor(t: Tensor)
  {
    && WritableText(t.name) && |t.shape| < TWO32
    && (forall i | 0 <= i < |t.shape| :: t.shape[i] < TWO64)
    && AllFit(IntType(4, false), t.values)
  }

  predicate WritableTensors(ts: seq<Tensor>, a: nat)
    requires a > 0
  {
    |ts| < TWO64 && forall i | 0 <= i < |ts| :: WritableTensor(ts[i]) && OffsetAt(ts, i, a) < TWO64
  }

  // ---- what it writes ---------------------------------------------------------------

  function PackString(b: Bytes): Bytes { LittleEndian(|b|, 8) + b }

  function PackElement(v: Value): Bytes
    requires WritableElement(v)
  {
    match v
    case Number(t, x) => EncodeInt(ScalarType(t).value, x)
    case Text(b) => PackString(b)
  }

  function PackElements(items: seq<Value>, n: nat): Bytes
    requires n <= |items| && forall i | 0 <= i < |items| :: WritableElement(items[i])
  {
    if n == 0 then [] else PackElements(items, n - 1) + PackElement(items[n - 1])
  }

  function PackValue(v: Value): Bytes
    requires WritableValue(v)
  {
    if v.List? then LittleEndian(v.etype, 4) + LittleEndian(|v.items|, 8) + PackElements(v.items, |v.items|)
    else PackElement(v)
  }

  function PackItem(i: Item): Bytes
    requires WritableText(i.key) && WritableValue(i.value)
  {
    PackString(i.key) + LittleEndian(TypeCode(i.value), 4) + PackValue(i.value)
  }

  function PackItems(items: seq<Item>, n: nat): Bytes
    requires n <= |items| && WritableItems(items)
  {
    if n == 0 then [] else PackItems(items, n - 1) + PackItem(items[n - 1])
  }

  function Reversed(s: seq<nat>): (r: seq<nat>)
    ensures |r| == |s| && forall i | 0 <= i < |s| :: r[i] == s[|s| - 1 - i]
  {
    seq(|s|, i requires 0 <= i < |s| => s[|s| - 1 - i])
  }

  function PackDims(dims: seq<nat>, n: nat): Bytes
    requires n <= |dims|
  {
    if n == 0 then [] else PackDims(dims, n - 1) + LittleEndian(dims[n - 1], 8)
  }

  function BlobBytes(t: Tensor): nat { 4 * |t.values| }

  /** Where the data of tensor `i` starts, counted from the data section. */
  function OffsetAt(ts: seq<Tensor>, i: nat, a: nat): nat
    requires a > 0 && i <= |ts|
  {
    if i == 0 then 0 else OffsetAt(ts, i - 1, a) + AlignTo(BlobBytes(ts[i - 1]), a)
  }

  function PackTensor(t: Tensor, offset: nat): Bytes
  {
    PackString(t.name) + LittleEndian(|t.shape|, 4) + PackDims(Reversed(t.shape), |t.shape|)
    + LittleEndian(0, 4) + LittleEndian(offset, 8)
  }

  function PackTensors(ts: seq<Tensor>, n: nat, a: nat): Bytes
    requires a > 0 && n <= |ts|
  {
    if n == 0 then [] else PackTensors(ts, n - 1, a) + PackTensor(ts[n - 1], OffsetAt(ts, n - 1, a))
  }

  function Preamble(nTensors: nat, nItems: nat): Bytes
  {
    MAGIC + LittleEndian(3, 4) + LittleEndian(nTensors, 8) + LittleEndian(nItems, 8)
  }

  function HeaderBytes(items: seq<Item>, ts: seq<Tensor>, a: nat): Bytes
    requires a > 0 && WritableItems(items)
  {
    Preamble(|ts|, |items|) + PackItems(items, |items|) + PackTensors(ts, |ts|, a)
  }

  function BlobOf(t: Tensor): Bytes
    requires WritableTensor(t)
  {
    EncodeAll(IntType(4, false), t.values)
  }

  function DataBytes(ts: seq<Tensor>, n: nat, a: nat): Bytes
    requires a > 0 && n <= |ts| && WritableTensors(ts, a)
  {
    if n == 0 then [] else DataBytes(ts, n - 1, a) + PadTo(BlobOf(ts[n - 1]), a)
  }

  function FileBytes(items: seq<Item>, ts: seq<Tensor>, a: nat): Bytes
    requires a > 0 && WritableItems(items) && WritableTensors(ts, a)
  {
    PadTo(HeaderBytes(items, ts, a), a) + DataBytes(ts, |ts|, a)
  }

  method WriteMetadata(start: Bytes, items: seq<Item>) returns (out: Bytes)
    requires WritableItems(items)
    ensures out == start + PackItems(items, |items|)
  {
    hide PackItem;
    hide WritableText;
    hide WritableValue;
    out := start;
    for i := 0 to |items|
      invariant out == start + PackItems(items, i)
    {
      out := out + PackItem(items[i]);
    }
  }

  method WriteTable(start: Bytes, ts: seq<Tensor>, a: nat) returns (out: Bytes, blobs: seq<Bytes>)
    requires a > 0 && WritableTensors(ts, a)
    ensures out == start + PackTensors(ts, |ts|, a)
    ensures |blobs| == |ts| && forall j | 0 <= j < |ts| :: blobs[j] == BlobOf(ts[j])
  {
    hide PackTensor;
    hide PackTensors;
    hide OffsetAt;
    hide AlignTo;
    hide BlobOf;
    hide WritableTensor;
    out, blobs := start, [];
    var offset: nat := 0;
    TableStart(ts, a);
    for i := 0 to |ts|
      invariant out == start + PackTensors(ts, i, a) && offset == OffsetAt(ts, i, a)
      invariant |blobs| == i && forall j | 0 <= j < i :: blobs[j] == BlobOf(ts[j])
    {
      TableNext(ts, i, a);
      var blob := BlobOf(ts[i]);
      out := out + PackTensor(ts[i], offset);
      blobs := blobs + [blob];
      offset := offset + AlignTo(|blob|, a);
    }
  }

  lemma TableStart(ts: seq<Tensor>, a: nat)
    requires a > 0
    ensures PackTensors(ts, 0, a) == [] && OffsetAt(ts, 0, a) == 0
  {
  }

  lemma TableNext(ts: seq<Tensor>, i: nat, a: nat)
    requires a > 0 && i < |ts| && WritableTensor(ts[i])
    ensures PackTensors(ts, i + 1, a) == PackTensors(ts, i, a) + PackTensor(ts[i], OffsetAt(ts, i, a))
    ensures OffsetAt(ts, i + 1, a) == OffsetAt(ts, i, a) + AlignTo(|BlobOf(ts[i])|, a)
  {
    hide AlignTo;
    BlobLength(ts[i]);
  }

  method WriteData(start: Bytes, ts: seq<Tensor>, blobs: seq<Bytes>, a: nat) returns (out: Bytes)
    requires a > 0 && WritableTensors(ts, a)
    requires |blobs| == |ts| && forall j | 0 <= j < |ts| :: blobs[j] == BlobOf(ts[j])
    ensures out == start + DataBytes(ts, |ts|, a)
  {
    hide PadTo;
    hide BlobOf;
    hide AlignTo;
    hide WritableTensor;
    hide OffsetAt;
    out := start;
    for i := 0 to |blobs|
      invariant out == start + DataBytes(ts, i, a)
    {
      out := out + PadTo(blobs[i], a);
    }
  }

  /** The writer: header first, then the blobs it collected on the way. */
  method Write(items: seq<Item>, ts: seq<Tensor>, a: nat) returns (out: Bytes)
    requires a > 0 && WritableItems(items) && WritableTensors(ts, a)
    ensures out == FileBytes(items, ts, a)
  {
    hide Preamble;
    hide PackItems;
    hide PackTensors;
    hide DataBytes;
    hide PadTo;
    hide WritableItems;
    hide WritableTensors;
    var meta := WriteMetadata(Preamble(|ts|, |items|), items);
    var table, blobs := WriteTable(meta, ts, a);
    out := WriteData(PadTo(table, a), ts, blobs, a);
  }

  lemma BlobLength(t: Tensor)
    requires WritableTensor(t)
    ensures |BlobOf(t)| == BlobBytes(t)
  {
    EncodeAllLength(IntType(4, false), t.values);
  }
}
