/** The GGUF format byte by byte: which numbers a type code can hold and in
    which bytes, what text is, and how a file begins. */
module GgufMeaning {
  import opened Arithmetic
  import opened ByteCodec
  import opened ByteMeaning
  import opened Gguf
  import opened GgufReader

  // ---- numbers ---------------------------------------------------------------------

  /** The bytes a number of this type takes. */
  predicate HasWidth(code: nat, w: nat)
  {
    || (code in {0, 1, 7} && w == 1)
    || (code in {2, 3} && w == 2)
    || (code in {4, 5, 6} && w == 4)
    || (code in {10, 11, 12} && w == 8)
  }

  predicate IsSigned(code: nat) { code in {1, 3, 5, 11} }

  /** The numbers of a type; floating-point types hold bit patterns. */
  predicate InType(code: nat, x: int)
  {
    match code
    case 0 => 0 <= x < 0x100
    case 1 => -0x80 <= x < 0x80
    case 2 => 0 <= x < 0x1_0000
    case 3 => -0x8000 <= x < 0x8000
    case 4 => 0 <= x < 0x1_0000_0000
    case 5 => -0x8000_0000 <= x < 0x8000_0000
    case 6 => 0 <= x < 0x1_0000_0000
    case 7 => 0 <= x <= 1
    case 10 => 0 <= x < 0x1_0000_0000_0000_0000
    case 11 => -0x8000_0000_0000_0000 <= x < 0x8000_0000_0000_0000
    case 12 => 0 <= x < 0x1_0000_0000_0000_0000
    case _ => false
  }

  /** The unsigned number that stands for x: two's complement for signed types. */
  predicate StandsFor(code: nat, w: nat, u: int, x: int)
  {
    if code == 7 then x == (if u == 0 then 0 else 1)
    else IsInt(w, IsSigned(code), u, x)
  }

  lemma ScalarIs(code: nat)
    ensures ScalarType(code).Some? <==> exists w :: HasWidth(code, w)
    ensures ScalarType(code).Some? ==>
      HasWidth(code, ScalarType(code).value.width) && ScalarType(code).value.signed == IsSigned(code)
  {
    if ScalarType(code).Some? { assert HasWidth(code, ScalarType(code).value.width); }
  }

  /** Exactly these numbers can be written under a type code. */
  lemma NumberWritable(code: nat, x: int)
    ensures WritableElement(Number(code, x)) <==> InType(code, x)
  {
    Pow256Values();
    hide Pow256;
  }

  /** A written number takes the bytes of its type and they hold it. */
  lemma NumberWritten(code: nat, x: int, w: nat)
    requires WritableElement(Number(code, x)) && HasWidth(code, w)
    ensures var b := PackElement(Number(code, x));
      |b| == w && exists u :: Holds(b, u) && StandsFor(code, w, u, x)
  {
    ScalarIs(code);
    Pow256Values();
    var t := ScalarType(code).value;
    var b := PackElement(Number(code, x));
    LittleEndianRoundTrip(Unsigned(t, x), t.width);
    HoldsValue(b, Unsigned(t, x));
    hide Pow256;
    hide LittleEndian;
    hide Holds;
  }

  /** A number is read from exactly the bytes of its type, whatever follows. */
  lemma NumberRead(file: Bytes, pos: nat, code: nat, w: nat, x: int, end: nat)
    requires HasWidth(code, w)
    ensures ElementAt(file, pos, code) == Some((Number(code, x), end)) <==>
      && end == pos + w <= |file|
      && exists u :: Holds(file[pos..pos + w], u) && StandsFor(code, w, u, x)
  {
    ScalarIs(code);
    if pos + w <= |file| {
      var b := file[pos..pos + w];
      var v := FromLittleEndian(b);
      ScalarStandsFor(code, w, b, x);
      HoldsValue(b, v);
      forall u | Holds(b, u) ensures u == v { HoldsValue(b, u); }
      hide FromLittleEndian;
      hide Holds;
      hide StandsFor;
      hide Scalar;
    }
  }

  lemma ScalarStandsFor(code: nat, w: nat, b: Bytes, x: int)
    requires HasWidth(code, w) && |b| == w && ScalarType(code).Some?
    ensures Scalar(code, ScalarType(code).value, b) == x <==> StandsFor(code, w, FromLittleEndian(b), x)
  {
    ScalarIs(code);
    Pow256Values();
    hide Pow256;
    hide FromLittleEndian;
  }

  /** No other code is a number, and only code 8 is text. */
  lemma OtherCodes(file: Bytes, pos: nat, code: nat)
    requires forall w :: !HasWidth(code, w)
    ensures ElementAt(file, pos, code).Some? ==> code == 8
  {
    ScalarIs(code);
  }

  // ---- text ------------------------------------------------------------------------

  /** A Unicode scalar value. */
  predicate IsScalar(c: int) { 0 <= c < 0xD800 || 0xE000 <= c < 0x11_0000 }

  /** The UTF-8 bytes of a scalar value. */
  function CharBytes(c: int): (b: Bytes)
    requires IsScalar(c)
    ensures b != []
  {
    if c < 0x80 then [c]
    else if c < 0x800 then [0xC0 + c / 0x40, 0x80 + c % 0x40]
    else if c < 0x1_0000 then [0xE0 + c / 0x1000, 0x80 + c / 0x40 % 0x40, 0x80 + c % 0x40]
    else [0xF0 + c / 0x4_0000, 0x80 + c / 0x1000 % 0x40, 0x80 + c / 0x40 % 0x40, 0x80 + c % 0x40]
  }

  predicate AreScalars(cs: Vec) { forall i | 0 <= i < |cs| :: IsScalar(cs[i]) }

  function TextBytes(cs: Vec): Bytes
    requires AreScalars(cs)
  {
    if cs == [] then [] else CharBytes(cs[0]) + TextBytes(cs[1..])
  }

  lemma DivMod(c: int, d: int, q: int, r: int)
    requires 0 <= r < d && c == q * d + r
    ensures c / d == q && c % d == r
  {
    DivUnique(c, d, q);
  }

  /** The six-bit digits of a number. */
  lemma Digits(x: int, y: int, z: int, w: int)
    requires 0 <= y < 0x40 && 0 <= z < 0x40 && 0 <= w < 0x40
    ensures var c := x * 0x4_0000 + y * 0x1000 + z * 0x40 + w;
      c / 0x4_0000 == x && c / 0x1000 % 0x40 == y && c / 0x40 % 0x40 == z && c % 0x40 == w && c / 0x1000 == x * 0x40 + y
      && c / 0x40 == x * 0x1000 + y * 0x40 + z
  {
    var c := x * 0x4_0000 + y * 0x1000 + z * 0x40 + w;
    DivMod(c, 0x4_0000, x, y * 0x1000 + z * 0x40 + w);
    DivMod(c, 0x1000, x * 0x40 + y, z * 0x40 + w);
    DivMod(c, 0x40, x * 0x1000 + y * 0x40 + z, w);
    DivMod(x * 0x40 + y, 0x40, x, y);
    DivMod(x * 0x1000 + y * 0x40 + z, 0x40, x * 0x40 + y, z);
  }

  lemma TwoBytes(b: Bytes, v: Vec) returns (c: int)
    requires CharLength(b) == 2 && v == b
    ensures IsScalar(c) && CharBytes(c) == b[..2]
  {
    c := (v[0] - 0xC0) * 0x40 + v[1] - 0x80;
    Digits(0, 0, v[0] - 0xC0, v[1] - 0x80);
    assert b[..2] == [b[0], b[1]];
  }

  lemma ThreeBytes(b: Bytes, v: Vec) returns (c: int)
    requires CharLength(b) == 3 && v == b
    ensures IsScalar(c) && CharBytes(c) == b[..3]
  {
    c := (v[0] - 0xE0) * 0x1000 + (v[1] - 0x80) * 0x40 + v[2] - 0x80;
    Digits(0, v[0] - 0xE0, v[1] - 0x80, v[2] - 0x80);
    assert b[..3] == [b[0], b[1], b[2]];
  }

  lemma FourBytes(b: Bytes, v: Vec) returns (c: int)
    requires CharLength(b) == 4 && v == b
    ensures IsScalar(c) && CharBytes(c) == b[..4]
  {
    c := (v[0] - 0xF0) * 0x4_0000 + (v[1] - 0x80) * 0x1000 + (v[2] - 0x80) * 0x40 + v[3] - 0x80;
    Digits(v[0] - 0xF0, v[1] - 0x80, v[2] - 0x80, v[3] - 0x80);
    assert b[..4] == [b[0], b[1], b[2], b[3]];
  }

  /** The first character of a byte string is the encoding of a scalar value. */
  lemma CharFound(b: Bytes) returns (c: int)
    requires CharLength(b) > 0
    ensures IsScalar(c) && CharBytes(c) == b[..CharLength(b)]
  {
    var v: Vec, n := b, CharLength(b);
    if n == 1 {
      c := v[0];
      assert b[..1] == [b[0]];
    } else {
      hide CharBytes;
      if n == 2 {
        c := TwoBytes(b, v);
      } else if n == 3 {
        c := ThreeBytes(b, v);
      } else {
        c := FourBytes(b, v);
      }
    }
  }

  /** The encoding of a scalar value is recognised whatever follows it. */
  lemma CharGiven(c: int, rest: Bytes)
    requires IsScalar(c)
    ensures CharLength(CharBytes(c) + rest) == |CharBytes(c)|
  {
    var b := CharBytes(c) + rest;
    if c < 0x80 {
      assert b[0] == c;
    } else if c < 0x800 {
      TwoGiven(c, b);
    } else if c < 0x1_0000 {
      ThreeGiven(c, b);
    } else {
      FourGiven(c, b);
    }
  }

  lemma TwoGiven(c: int, b: Bytes)
    requires 0x80 <= c < 0x800 && |b| >= 2 && b[0] == 0xC0 + c / 0x40 && b[1] == 0x80 + c % 0x40
    ensures CharLength(b) == 2
  {
  }

  lemma ThreeGiven(c: int, b: Bytes)
    requires 0x800 <= c < 0x1_0000 && IsScalar(c) && |b| >= 3
    requires b[0] == 0xE0 + c / 0x1000 && b[1] == 0x80 + c / 0x40 % 0x40 && b[2] == 0x80 + c % 0x40
    ensures CharLength(b) == 3
  {
    var x, z := c / 0x1000, c / 0x40 % 0x40;
    assert c / 0x40 == x * 0x40 + z;
  }

  lemma FourGiven(c: int, b: Bytes)
    requires 0x1_0000 <= c < 0x11_0000 && |b| >= 4
    requires b[0] == 0xF0 + c / 0x4_0000 && b[1] == 0x80 + c / 0x1000 % 0x40
    requires b[2] == 0x80 + c / 0x40 % 0x40 && b[3] == 0x80 + c % 0x40
    ensures CharLength(b) == 4
  {
    var x, y := c / 0x4_0000, c / 0x1000 % 0x40;
    assert c / 0x1000 == x * 0x40 + y;
  }

  lemma {:induction false} TextFound(b: Bytes) returns (cs: Vec)
    requires Utf8(b)
    ensures AreScalars(cs) && TextBytes(cs) == b
    decreases |b|
  {
    if b == [] {
      cs := [];
    } else {
      var n := CharLength(b);
      var c := CharFound(b);
      var rest := TextFound(b[n..]);
      cs := [c] + rest;
      assert cs[1..] == rest && b == b[..n] + b[n..];
    }
  }

  lemma {:induction false} TextGiven(cs: Vec)
    requires AreScalars(cs)
    ensures Utf8(TextBytes(cs))
    decreases |cs|
  {
    if cs != [] {
      var c, rest := CharBytes(cs[0]), TextBytes(cs[1..]);
      TextGiven(cs[1..]);
      CharGiven(cs[0], rest);
      assert (c + rest)[|c|..] == rest;
    }
  }

  /** Text is accepted exactly when it is the encoding of scalar values. */
  lemma Utf8Meaning(b: Bytes)
    ensures Utf8(b) <==> exists cs: Vec :: AreScalars(cs) && TextBytes(cs) == b
  {
    if Utf8(b) { var cs := TextFound(b); }
    forall cs: Vec | AreScalars(cs) && TextBytes(cs) == b ensures Utf8(b) { TextGiven(cs); }
  }

  // ---- the header, field by field --------------------------------------------------

  /** An unsigned field of w bytes at a position. */
  predicate IsField(file: Bytes, pos: nat, w: nat, u: nat, end: nat)
  {
    end == pos + w <= |file| && Holds(file[pos..end], u)
  }

  lemma FieldIs(file: Bytes, pos: nat, w: nat, u: nat, end: nat)
    requires w in {4, 8}
    ensures IsField(file, pos, w, u, end) <==> UnsignedAt(file, pos, w) == Some((u, end))
  {
    if pos + w <= |file| { HoldsValue(file[pos..pos + w], u); }
    hide Holds;
    hide FromLittleEndian;
  }

  /** A string: its length in eight bytes, at most 2^24, then UTF-8. */
  ghost predicate IsString(file: Bytes, pos: nat, b: Bytes, end: nat)
  {
    exists n: nat, at: nat ::
      && IsField(file, pos, 8, n, at) && n <= 0x100_0000 && end == at + n <= |file| && b == file[at..end]
      && exists cs: Vec :: AreScalars(cs) && TextBytes(cs) == b
  }

  lemma StringMeaning(file: Bytes, pos: nat, b: Bytes, end: nat)
    ensures StringAt(file, pos) == Some((b, end)) <==> IsString(file, pos, b, end)
  {
    Utf8Meaning(b);
    hide Utf8;
    hide IsField;
    hide AreScalars;
    hide TextBytes;
    var n := UnsignedAt(file, pos, 8);
    hide UnsignedAt;
    if n.Some? { FieldIs(file, pos, 8, n.value.0, n.value.1); }
    forall k: nat, at: nat | IsField(file, pos, 8, k, at) ensures n == Some((k, at)) { FieldIs(file, pos, 8, k, at); }
  }

  /** One number or string. */
  ghost predicate IsElement(file: Bytes, pos: nat, code: nat, v: Value, end: nat)
  {
    if code == 8 then v.Text? && IsString(file, pos, v.b, end)
    else v.Number? && v.vtype == code && exists w: nat :: IsNumber(file, pos, code, w, v.v, end)
  }

  ghost predicate IsNumber(file: Bytes, pos: nat, code: nat, w: nat, x: int, end: nat)
  {
    && HasWidth(code, w) && end == pos + w <= |file|
    && exists u :: Holds(file[pos..pos + w], u) && StandsFor(code, w, u, x)
  }

  lemma ElementMeaning(file: Bytes, pos: nat, code: nat, v: Value, end: nat)
    ensures ElementAt(file, pos, code) == Some((v, end)) <==> IsElement(file, pos, code, v, end)
  {
    if code == 8 {
      hide IsString;
      if v.Text? { StringMeaning(file, pos, v.b, end); }
      hide StringAt;
    } else {
      ScalarIs(code);
      if v.Number? && v.vtype == code {
        forall w: nat | HasWidth(code, w)
          ensures ElementAt(file, pos, code) == Some((v, end)) <==> IsNumber(file, pos, code, w, v.v, end)
        {
          NumberRead(file, pos, code, w, v.v, end);
        }
      }
      if ElementAt(file, pos, code).Some? { ElementShape(file, pos, code); }
      hide ElementAt;
      hide Holds;
      hide StandsFor;
    }
  }

  lemma ElementShape(file: Bytes, pos: nat, code: nat)
    requires code != 8 && ElementAt(file, pos, code).Some?
    ensures ScalarType(code).Some? && ElementAt(file, pos, code).value.0.Number?
    ensures ElementAt(file, pos, code).value.0.vtype == code
  {
    hide Scalar;
  }

  /** n elements of one type in a row. */
  ghost predicate AreElements(file: Bytes, pos: nat, code: nat, n: nat, vs: seq<Value>, end: nat)
    decreases n
  {
    |vs| == n &&
    if n == 0 then end == pos
    else
      var k: nat, front, last := n - 1, vs[..n - 1], vs[n - 1];
      exists at: nat :: AreElements(file, pos, code, k, front, at) && IsElement(file, at, code, last, end)
  }

  lemma {:induction false} ElementsMeaning(file: Bytes, pos: nat, code: nat, n: nat, vs: seq<Value>, end: nat)
    ensures ElementsAt(file, pos, code, n) == Some((vs, end)) <==> AreElements(file, pos, code, n, vs, end)
    decreases n
  {
    hide ElementAt;
    hide IsElement;
    if n > 0 && |vs| == n {
      var front, last := vs[..n - 1], vs[n - 1];
      assert vs == front + [last];
      var done := ElementsAt(file, pos, code, n - 1);
      if done.Some? {
        ElementsMeaning(file, pos, code, n - 1, done.value.0, done.value.1);
        ElementMeaning(file, done.value.1, code, last, end);
      }
      if AreElements(file, pos, code, n, vs, end) {
        var at: nat :| AreElements(file, pos, code, n - 1, front, at) && IsElement(file, at, code, last, end);
        ElementsMeaning(file, pos, code, n - 1, front, at);
      }
    }
  }

  /** A value: code 9 is an array of at most 2^24 elements that are not arrays. */
  ghost predicate IsValue(file: Bytes, pos: nat, code: nat, v: Value, end: nat)
  {
    if code != 9 then IsElement(file, pos, code, v, end)
    else
      && v.List? && v.etype != 9 && |v.items| <= 0x100_0000
      && IsField(file, pos, 4, v.etype, pos + 4) && IsField(file, pos + 4, 8, |v.items|, pos + 12)
      && AreElements(file, pos + 12, v.etype, |v.items|, v.items, end)
  }

  lemma ValueMeaning(file: Bytes, pos: nat, code: nat, v: Value, end: nat)
    ensures ValueAt(file, pos, code) == Some((v, end)) <==> IsValue(file, pos, code, v, end)
  {
    if code != 9 {
      ElementMeaning(file, pos, code, v, end);
    } else if v.List? {
      FieldIs(file, pos, 4, v.etype, pos + 4);
      FieldIs(file, pos + 4, 8, |v.items|, pos + 12);
      ElementsMeaning(file, pos + 12, v.etype, |v.items|, v.items, end);
      FieldEnds(file, pos, 4);
      FieldEnds(file, pos + 4, 8);
    }
    hide ElementAt;
    hide IsElement;
    hide ElementsAt;
    hide AreElements;
    hide IsField;
    hide UnsignedAt;
  }

  lemma FieldEnds(file: Bytes, pos: nat, w: nat)
    ensures UnsignedAt(file, pos, w).Some? ==> UnsignedAt(file, pos, w).value.1 == pos + w
  {
  }

  /** A metadata item: key, type code in four bytes, value. */
  ghost predicate IsItem(file: Bytes, pos: nat, i: Item, end: nat)
  {
    exists at: nat, code: nat, from: nat ::
      IsString(file, pos, i.key, at) && IsField(file, at, 4, code, from) && IsValue(file, from, code, i.value, end)
  }

  lemma ItemMeaning(file: Bytes, pos: nat, i: Item, end: nat)
    ensures ItemAt(file, pos) == Some((i, end)) <==> IsItem(file, pos, i, end)
  {
    hide StringAt;
    hide IsString;
    hide UnsignedAt;
    hide IsField;
    hide ValueAt;
    hide IsValue;
    if ItemAt(file, pos) == Some((i, end)) {
      var key := StringAt(file, pos).value;
      var code := UnsignedAt(file, key.1, 4).value;
      StringMeaning(file, pos, key.0, key.1);
      FieldIs(file, key.1, 4, code.0, code.1);
      ValueMeaning(file, code.1, code.0, i.value, end);
    }
    if IsItem(file, pos, i, end) {
      var at: nat, code: nat, from: nat :|
        IsString(file, pos, i.key, at) && IsField(file, at, 4, code, from) && IsValue(file, from, code, i.value, end);
      StringMeaning(file, pos, i.key, at);
      FieldIs(file, at, 4, code, from);
      ValueMeaning(file, from, code, i.value, end);
    }
  }

  /** n items with different keys, collected in a dictionary. */
  ghost predicate AreItems(file: Bytes, pos: nat, n: nat, m: map<Bytes, Value>, end: nat)
    decreases n
  {
    if n == 0 then m == map[] && end == pos
    else
      var k: nat := n - 1;
      exists before: map<Bytes, Value>, at: nat, i: Item ::
        && AreItems(file, pos, k, before, at) && IsItem(file, at, i, end)
        && i.key !in before && m == before[i.key := i.value]
  }

  lemma {:induction false} ItemsMeaning(file: Bytes, pos: nat, n: nat, m: map<Bytes, Value>, end: nat)
    ensures ItemsAt(file, pos, n) == Some((m, end)) <==> AreItems(file, pos, n, m, end)
    decreases n
  {
    hide ItemAt;
    hide IsItem;
    if n > 0 {
      var done := ItemsAt(file, pos, n - 1);
      if ItemsAt(file, pos, n) == Some((m, end)) {
        ItemsMeaning(file, pos, n - 1, done.value.0, done.value.1);
        ItemMeaning(file, done.value.1, ItemAt(file, done.value.1).value.0, end);
      }
      if AreItems(file, pos, n, m, end) {
        var before: map<Bytes, Value>, at: nat, i: Item :|
          && AreItems(file, pos, n - 1, before, at) && IsItem(file, at, i, end)
          && i.key !in before && m == before[i.key := i.value];
        ItemsMeaning(file, pos, n - 1, before, at);
        ItemMeaning(file, at, i, end);
      }
    }
  }

  /** Dimensions of eight bytes each. */
  predicate AreDims(file: Bytes, pos: nat, dims: seq<nat>)
  {
    forall i | 0 <= i < |dims| :: IsField(file, pos + 8 * i, 8, dims[i], pos + 8 * i + 8)
  }

  lemma {:induction false} DimsMeaning(file: Bytes, pos: nat, n: nat, dims: seq<nat>, end: nat)
    ensures DimsAt(file, pos, n) == Some((dims, end)) <==>
      |dims| == n && end == pos + 8 * n && AreDims(file, pos, dims)
    decreases n
  {
    hide UnsignedAt;
    hide IsField;
    if n > 0 {
      DimsEnd(file, pos, n - 1);
      FieldEnds(file, pos + 8 * (n - 1), 8);
      if |dims| == n {
        var front, last := dims[..n - 1], dims[n - 1];
        assert dims == front + [last];
        DimsMeaning(file, pos, n - 1, front, pos + 8 * (n - 1));
        FieldIs(file, pos + 8 * (n - 1), 8, last, pos + 8 * n);
        assert AreDims(file, pos, dims) <==>
          AreDims(file, pos, front) && IsField(file, pos + 8 * (n - 1), 8, last, pos + 8 * n);
      }
    }
  }

  lemma {:induction false} DimsEnd(file: Bytes, pos: nat, n: nat)
    ensures DimsAt(file, pos, n).Some? ==> DimsAt(file, pos, n).value.1 == pos + 8 * n
    decreases n
  {
    if n > 0 {
      DimsEnd(file, pos, n - 1);
      FieldEnds(file, pos + 8 * (n - 1), 8);
    }
    hide UnsignedAt;
  }

  /** A tensor entry: name, one to four dimensions, type, data offset. */
  ghost predicate IsTensor(file: Bytes, pos: nat, t: TensorInfo, end: nat)
  {
    exists at: nat ::
      && IsString(file, pos, t.name, at) && IsField(file, at, 4, |t.dims|, at + 4) && 1 <= |t.dims| <= 4
      && AreDims(file, at + 4, t.dims)
      && IsField(file, at + 4 + 8 * |t.dims|, 4, t.ggmlType, at + 8 + 8 * |t.dims|)
      && IsField(file, at + 8 + 8 * |t.dims|, 8, t.offset, end)
  }

  lemma TensorMeaning(file: Bytes, pos: nat, t: TensorInfo, end: nat)
    ensures TensorAt(file, pos) == Some((t, end)) <==> IsTensor(file, pos, t, end)
  {
    hide StringAt;
    hide IsString;
    hide UnsignedAt;
    hide IsField;
    hide DimsAt;
    hide AreDims;
    assert t == TensorInfo(t.name, t.dims, t.ggmlType, t.offset);
    var name := StringAt(file, pos);
    if name.Some? {
      StringMeaning(file, pos, name.value.0, name.value.1);
      TensorFields(file, name.value.1, t, end);
    }
    if IsTensor(file, pos, t, end) {
      var at: nat :| IsString(file, pos, t.name, at) && IsField(file, at, 4, |t.dims|, at + 4) && 1 <= |t.dims| <= 4
        && AreDims(file, at + 4, t.dims)
        && IsField(file, at + 4 + 8 * |t.dims|, 4, t.ggmlType, at + 8 + 8 * |t.dims|)
        && IsField(file, at + 8 + 8 * |t.dims|, 8, t.offset, end);
      StringMeaning(file, pos, t.name, at);
    }
  }

  /** The fields behind the name. */
  lemma TensorFields(file: Bytes, at: nat, t: TensorInfo, end: nat)
    ensures var d := |t.dims|;
      (&& UnsignedAt(file, at, 4) == Some((d, at + 4)) && DimsAt(file, at + 4, d) == Some((t.dims, at + 4 + 8 * d))
       && UnsignedAt(file, at + 4 + 8 * d, 4) == Some((t.ggmlType, at + 8 + 8 * d))
       && UnsignedAt(file, at + 8 + 8 * d, 8) == Some((t.offset, end)))
      <==>
      (&& IsField(file, at, 4, d, at + 4) && AreDims(file, at + 4, t.dims)
       && IsField(file, at + 4 + 8 * d, 4, t.ggmlType, at + 8 + 8 * d)
       && IsField(file, at + 8 + 8 * d, 8, t.offset, end))
    ensures forall n: nat :: DimsAt(file, at + 4, n).Some? ==> DimsAt(file, at + 4, n).value.1 == at + 4 + 8 * n
    ensures forall p: nat, w: nat :: UnsignedAt(file, p, w).Some? ==> UnsignedAt(file, p, w).value.1 == p + w
  {
    var d := |t.dims|;
    FieldIs(file, at, 4, d, at + 4);
    DimsMeaning(file, at + 4, d, t.dims, at + 4 + 8 * d);
    FieldIs(file, at + 4 + 8 * d, 4, t.ggmlType, at + 8 + 8 * d);
    FieldIs(file, at + 8 + 8 * d, 8, t.offset, end);
    forall n: nat
      ensures DimsAt(file, at + 4, n).Some? ==> DimsAt(file, at + 4, n).value.1 == at + 4 + 8 * n
    {
      DimsEnd(file, at + 4, n);
    }
    hide DimsAt;
    hide IsField;
    hide AreDims;
  }

  /** n tensor entries with different names. */
  ghost predicate AreTensors(file: Bytes, pos: nat, n: nat, ts: seq<TensorInfo>, end: nat)
    decreases n
  {
    |ts| == n &&
    if n == 0 then end == pos
    else
      var k: nat, front, last := n - 1, ts[..n - 1], ts[n - 1];
      && (forall i | 0 <= i < k :: ts[i].name != last.name)
      && exists at: nat :: AreTensors(file, pos, k, front, at) && IsTensor(file, at, last, end)
  }

  lemma {:induction false} TensorsMeaning(file: Bytes, pos: nat, n: nat, ts: seq<TensorInfo>, end: nat)
    ensures TensorsAt(file, pos, n) == Some((ts, end)) <==> AreTensors(file, pos, n, ts, end)
    decreases n
  {
    hide TensorAt;
    hide IsTensor;
    if n > 0 {
      TensorsLength(file, pos, n);
      if |ts| == n {
        var front, last := ts[..n - 1], ts[n - 1];
        assert ts == front + [last];
        assert Named(front, last.name) <==> exists i | 0 <= i < n - 1 :: ts[i].name == last.name;
        var done := TensorsAt(file, pos, n - 1);
        if done.Some? {
          TensorsMeaning(file, pos, n - 1, done.value.0, done.value.1);
          TensorMeaning(file, done.value.1, last, end);
        }
        if AreTensors(file, pos, n, ts, end) {
          var at: nat :| AreTensors(file, pos, n - 1, front, at) && IsTensor(file, at, last, end);
          TensorsMeaning(file, pos, n - 1, front, at);
        }
      }
    }
  }

  lemma {:induction false} TensorsLength(file: Bytes, pos: nat, n: nat)
    ensures TensorsAt(file, pos, n).Some? ==> |TensorsAt(file, pos, n).value.0| == n
    decreases n
  {
    hide TensorAt;
    if n > 0 { TensorsLength(file, pos, n - 1); }
  }

  /** A header: GGUF, version 2 or 3, at most 2^16 tensors, the items, then the
      tensor table; everything from its fixed place on. */
  ghost predicate IsHeader(file: Bytes, h: Header)
  {
    && |file| >= 4 && file[0] == 0x47 && file[1] == 0x47 && file[2] == 0x55 && file[3] == 0x46
    && IsField(file, 4, 4, h.version, 8) && 2 <= h.version <= 3
    && exists tensors: nat, items: nat, at: nat ::
         && IsField(file, 8, 8, tensors, 16) && IsField(file, 16, 8, items, 24) && tensors <= 0x1_0000
         && AreItems(file, 24, items, h.metadata, at) && AreTensors(file, at, tensors, h.tensors, h.headerBytes)
  }

  lemma HeaderFound(file: Bytes, h: Header)
    requires ReadHeader(file) == Some(h)
    ensures IsHeader(file, h)
  {
    hide ItemsAt;
    hide AreItems;
    hide TensorsAt;
    hide AreTensors;
    FieldEnds(file, 4, 4);
    FieldEnds(file, 8, 8);
    FieldEnds(file, 16, 8);
    var version, tensors := UnsignedAt(file, 4, 4).value, UnsignedAt(file, 8, 8).value;
    var items := UnsignedAt(file, 16, 8).value;
    var meta := ItemsAt(file, 24, items.0).value;
    assert file[0..4][0] == file[0] && file[0..4][1] == file[1] && file[0..4][2] == file[2] && file[0..4][3] == file[3];
    hide UnsignedAt;
    hide IsField;
    FieldIs(file, 4, 4, version.0, 8);
    FieldIs(file, 8, 8, tensors.0, 16);
    FieldIs(file, 16, 8, items.0, 24);
    ItemsMeaning(file, 24, items.0, meta.0, meta.1);
    TensorsMeaning(file, meta.1, tensors.0, h.tensors, h.headerBytes);
  }

  lemma HeaderGiven(file: Bytes, h: Header)
    requires IsHeader(file, h)
    ensures ReadHeader(file) == Some(h)
  {
    hide ItemsAt;
    hide AreItems;
    hide TensorsAt;
    hide AreTensors;
    hide UnsignedAt;
    hide IsField;
    var tensors: nat, items: nat, at: nat :|
      && IsField(file, 8, 8, tensors, 16) && IsField(file, 16, 8, items, 24) && tensors <= 0x1_0000
      && AreItems(file, 24, items, h.metadata, at) && AreTensors(file, at, tensors, h.tensors, h.headerBytes);
    assert file[0..4] == [file[0], file[1], file[2], file[3]];
    FieldIs(file, 4, 4, h.version, 8);
    FieldIs(file, 8, 8, tensors, 16);
    FieldIs(file, 16, 8, items, 24);
    ItemsMeaning(file, 24, items, h.metadata, at);
    TensorsMeaning(file, at, tensors, h.tensors, h.headerBytes);
    assert h == Header(h.version, h.metadata, h.tensors, h.headerBytes);
  }

  /** The reader returns h exactly when the bytes are those of h. */
  lemma HeaderMeaning(file: Bytes, h: Header)
    ensures ReadHeader(file) == Some(h) <==> IsHeader(file, h)
  {
    hide ReadHeader;
    hide IsHeader;
    if ReadHeader(file) == Some(h) { HeaderFound(file, h); }
    if IsHeader(file, h) { HeaderGiven(file, h); }
  }
}
