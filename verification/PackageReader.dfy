/** Opening a package: the structural checks, the name index and the value
    ranges of every scaled matrix. */
module PackageReader {
  import opened Arithmetic
  import opened ByteCodec
  import opened PackageLayout
  import opened PackageFile

  const MU_MIN: int := 0x4000_0000

  // ---- names ----------------------------------------------------------------------

  predicate InLayout(m: Shape, n: Name)
  {
    match n
    case Scaled(Layer(l, _), _) => l < m.layers
    case AttnNorm(l) => l < m.layers
    case FfnNorm(l) => l < m.layers
    case _ => true
  }

  function BaseRows(m: Shape, b: Base): nat { if b.Embed? then m.vocab else Rows(m, b.which) }

  function BaseCols(m: Shape, b: Base): nat { if b.Embed? then m.dModel else Cols(m, b.which) }

  function EntryFor(m: Shape, n: Name): (e: Entry)
    ensures e.name == n && e.dtype.width > 0
  {
    match n
    case Scaled(b, Q) => Entry(n, I8, [BaseRows(m, b), BaseCols(m, b)])
    case Scaled(b, Mu) => Entry(n, I32, [BaseRows(m, b)])
    case Scaled(b, K) => Entry(n, U8, [BaseRows(m, b)])
    case RopeCos => Entry(n, I32, [m.maxSeq, m.dHead / 2])
    case RopeSin => Entry(n, I32, [m.maxSeq, m.dHead / 2])
    case _ => Entry(n, I64, [m.dModel])
  }

  lemma LayerEntryFor(m: Shape, l: nat, i: nat)
    requires i < 23
    ensures var e := LayerEntries(m, l)[i];
      e == EntryFor(m, e.name) && (l < m.layers ==> InLayout(m, e.name))
  {
    hide Rows;
    hide Cols;
  }

  lemma GlobalEntryFor(m: Shape, i: nat)
    requires i < 6
    ensures var e := GlobalEntries(m)[i]; e == EntryFor(m, e.name) && InLayout(m, e.name)
  {
  }

  /** Each entry is the one of its name. */
  lemma {:induction false} EntryAt(m: Shape, n: nat, i: nat)
    requires n <= m.layers && i < 6 + 23 * n
    ensures var e := LayoutUpTo(m, n)[i]; e == EntryFor(m, e.name) && InLayout(m, e.name)
  {
    hide LayerEntries;
    hide GlobalEntries;
    hide EntryFor;
    hide InLayout;
    if n == 0 {
      GlobalEntryFor(m, i);
    } else if i < 6 + 23 * (n - 1) {
      EntryAt(m, n - 1, i);
    } else {
      LayerEntryFor(m, n - 1, i - 6 - 23 * (n - 1));
    }
  }

  /** Every name of the layout is found at its index. */
  lemma NameFound(m: Shape, n: Name)
    requires InLayout(m, n)
    ensures IndexOf(n) < |Layout(m)| && Layout(m)[IndexOf(n)] == EntryFor(m, n)
  {
    hide LayoutUpTo;
    var i := IndexOf(n);
    assert i < 6 + 23 * m.layers;
    EntryAt(m, m.layers, i);
    NamePosition(m, m.layers, i);
    SameIndex(Layout(m)[i].name, n);
  }

  lemma SameIndex(a: Name, b: Name)
    requires IndexOf(a) == IndexOf(b)
    ensures a == b
  {
    hide PartIndex;
    PlaceInLayer(a);
    PlaceInLayer(b);
    IndexParts(a);
    IndexParts(b);
  }

  /** The layer and the place within it that an index stands for. */
  lemma PlaceInLayer(n: Name)
    ensures IndexOf(n) < 6 <==> (n.FinalNorm? || n.RopeCos? || n.RopeSin? || (n.Scaled? && n.base.Embed?))
    ensures n.AttnNorm? || n.FfnNorm? ==> (IndexOf(n) - 6) / 23 == n.layer
    ensures n.Scaled? && n.base.Layer? ==> (IndexOf(n) - 6) / 23 == n.base.layer
  {
  }

  lemma IndexParts(n: Name)
    ensures n.AttnNorm? ==> (IndexOf(n) - 6) % 23 == 0
    ensures n.FfnNorm? ==> (IndexOf(n) - 6) % 23 == 13
    ensures n.Scaled? && n.base.Layer? ==> (IndexOf(n) - 6) % 23 == ProjectionIndex(n.base.which) + PartIndex(n.part)
    ensures n.Scaled? ==> n.part == if PartIndex(n.part) == 0 then Q else if PartIndex(n.part) == 1 then Mu else K
    ensures n.Scaled? ==> PartIndex(n.part) < 3
  {
  }

  /** The dictionary of entries loses none of them. */
  method IndexNames(m: Shape, ps: seq<Placement>) returns (index: map<Name, Placement>)
    requires ps == Place(Layout(m), 0)
    ensures forall n | InLayout(m, n) :: n in index && index[n] == ps[IndexOf(n)] && index[n].entry == EntryFor(m, n)
    ensures forall n | n in index :: InLayout(m, n)
  {
    hide Place;
    hide Layout;
    hide EntryFor;
    hide InLayout;
    hide IndexOf;
    index := map[];
    for i := 0 to |ps|
      invariant forall j | 0 <= j < i :: ps[j].entry.name in index && index[ps[j].entry.name] == ps[j]
      invariant forall n | n in index :: InLayout(m, n) && IndexOf(n) < i
    {
      PlacedEntry(m, i);
      index := index[ps[i].entry.name := ps[i]];
    }
    forall n | InLayout(m, n)
      ensures n in index && index[n] == ps[IndexOf(n)] && index[n].entry == EntryFor(m, n)
    {
      NamePlaced(m, n);
      assert ps[IndexOf(n)].entry.name == n;
    }
  }

  lemma PlacedEntry(m: Shape, i: nat)
    requires i < |Layout(m)|
    ensures var e := Place(Layout(m), 0)[i].entry;
      e == EntryFor(m, e.name) && InLayout(m, e.name) && IndexOf(e.name) == i
  {
    hide Place;
    hide LayoutUpTo;
    hide EntryFor;
    hide InLayout;
    hide IndexOf;
    PlacedWithin(Layout(m), 0, i);
    EntryAt(m, m.layers, i);
    NamePosition(m, m.layers, i);
  }

  lemma NamePlaced(m: Shape, n: Name)
    requires InLayout(m, n)
    ensures IndexOf(n) < |Place(Layout(m), 0)| && Place(Layout(m), 0)[IndexOf(n)].entry == EntryFor(m, n)
  {
    hide Place;
    hide LayoutUpTo;
    hide EntryFor;
    hide InLayout;
    NameFound(m, n);
    PlacedWithin(Layout(m), 0, IndexOf(n));
  }

  // ---- values ---------------------------------------------------------------------

  /** The values of a tensor by name. */
  function Tensor(file: Bytes, h: Header, n: Name): Vec
  {
    if HasHeader(file) && IndexOf(n) < |h.tensors| && h.tensors[IndexOf(n)].entry.dtype.width > 0 then
      TensorAt(file, h, IndexOf(n))
    else []
  }

  /** A row-major matrix of `n` rows. */
  function Unflatten(flat: Vec, cols: nat, n: nat): (r: Mat)
    ensures |r| == n
    decreases n
  {
    if n == 0 then [] else [flat[..Min(cols, |flat|)]] + Unflatten(flat[Min(cols, |flat|)..], cols, n - 1)
  }

  predicate RowPasses(q: Vec, mu: int, k: int)
  {
    && (forall j | 0 <= j < |q| :: q[j] != -128)
    && if mu == 0 then k == 16 && forall j | 0 <= j < |q| :: q[j] == 0
       else MU_MIN <= mu < TWO31 && 16 <= k <= 62
  }

  predicate RowsPass(q: Mat, mu: Vec, k: Vec)
  {
    forall r | 0 <= r < |q| && r < |mu| && r < |k| :: RowPasses(q[r], mu[r], k[r])
  }

  ghost predicate BaseOk(file: Bytes, h: Header, b: Base)
  {
    RowsPass(Unflatten(Tensor(file, h, Scaled(b, Q)), BaseCols(h.shape, b), BaseRows(h.shape, b)),
             Tensor(file, h, Scaled(b, Mu)), Tensor(file, h, Scaled(b, K)))
  }

  ghost predicate ValuesOk(file: Bytes, h: Header)
  {
    forall b: Base | InLayout(h.shape, Scaled(b, Q)) :: BaseOk(file, h, b)
  }

  method CheckRows(q: Mat, mu: Vec, k: Vec) returns (ok: bool)
    ensures ok <==> RowsPass(q, mu, k)
  {
    hide RowPasses;
    for r := 0 to Min(|q|, Min(|mu|, |k|))
      invariant forall i | 0 <= i < r :: RowPasses(q[i], mu[i], k[i])
    {
      if !RowPasses(q[r], mu[r], k[r]) {
        return false;
      }
    }
    ok := true;
  }

  method CheckValues(file: Bytes, h: Header) returns (ok: bool)
    requires h.tensors == Place(Layout(h.shape), 0)
    ensures ok <==> ValuesOk(file, h)
  {
    hide Place;
    hide Layout;
    hide Tensor;
    hide Unflatten;
    hide RowsPass;
    hide IndexOf;
    hide InLayout;
    hide EntryFor;
    for i := 0 to |h.tensors|
      invariant forall b: Base | InLayout(h.shape, Scaled(b, Q)) && IndexOf(Scaled(b, Q)) < i :: BaseOk(file, h, b)
    {
      PlacedEntry(h.shape, i);
      var n := h.tensors[i].entry.name;
      if n.Scaled? && n.part.Q? {
        var flat, mu, k := Tensor(file, h, n), Tensor(file, h, Scaled(n.base, Mu)), Tensor(file, h, Scaled(n.base, K));
        var rows := Unflatten(flat, BaseCols(h.shape, n.base), BaseRows(h.shape, n.base));
        var pass := CheckRows(rows, mu, k);
        assert BaseOk(file, h, n.base) <==> pass;
        if !pass {
          return false;
        }
      }
      forall b: Base | InLayout(h.shape, Scaled(b, Q)) && IndexOf(Scaled(b, Q)) < i + 1
        ensures BaseOk(file, h, b)
      {
        NamePlaced(h.shape, Scaled(b, Q));
        if IndexOf(Scaled(b, Q)) == i { assert h.tensors[i].entry.name == Scaled(b, Q); }
      }
    }
    forall b: Base | InLayout(h.shape, Scaled(b, Q))
      ensures BaseOk(file, h, b)
    {
      NamePlaced(h.shape, Scaled(b, Q));
    }
    ok := true;
  }

  method CheckPadding(file: Bytes, start: nat, ps: seq<Placement>) returns (ok: bool)
    ensures ok <==> Padding(file, start, ps)
  {
    hide AlignTo;
    hide EntryBytes;
    for i := 0 to |ps|
      invariant forall j | 0 <= j < i :: ZeroRange(file, start + ps[j].End(), start + AlignTo(ps[j].End(), ALIGN))
    {
      if !ZeroRange(file, start + ps[i].End(), start + AlignTo(ps[i].End(), ALIGN)) {
        return false;
      }
    }
    ok := true;
  }

  /** The checks on the model object, one after the other. */
  method CheckModel(m: Shape) returns (ok: bool)
    ensures ok <==> ValidShape(m)
  {
    if m.layers < 1 || m.dModel < 1 || m.heads < 1 || m.kvHeads < 1 || m.dHead < 1 || m.dFf < 1 || m.vocab < 1
       || m.maxSeq < 1 || m.eps < 1 || m.theta < 1 {
      return false;
    }
    if m.architecture == [] || !m.tied || |m.ropeLayers| != m.layers {
      return false;
    }
    for i := 0 to |m.ropeLayers|
      invariant forall j | 0 <= j < i :: m.ropeLayers[j] <= 1
    {
      if m.ropeLayers[i] != 0 && m.ropeLayers[i] != 1 {
        return false;
      }
    }
    if m.dModel != m.heads * m.dHead || m.dHead % 2 != 0 {
      return false;
    }
    ok := m.kvHeads <= m.heads && m.heads % m.kvHeads == 0;
  }

  /** The reader: it accepts a file just when some header makes it well formed
      with values in range, and it returns that header. */
  method OpenPackage(codec: Codec, file: Bytes) returns (r: Option<Header>)
    ensures r.Some? ==> WellFormed(codec, file, r.value) && ValuesOk(file, r.value)
    ensures r.None? ==> forall h :: !(WellFormed(codec, file, h) && ValuesOk(file, h))
  {
    hide Place;
    hide Layout;
    hide Total;
    hide AlignTo;
    hide EntryBytes;
    hide ValidShape;
    hide ValuesOk;
    hide Padding;
    hide ZeroRange;
    hide FromLittleEndian;
    if |file| < 16 || file[..8] != MAGIC {
      return None;
    }
    var hlen := HeaderLength(file);
    if hlen > |file| - 16 {
      return None;
    }
    var raw := HeaderText(file);
    var parsed := codec.parse(raw);
    if parsed.None? {
      return None;
    }
    var h := parsed.value;
    if codec.render(h) != raw || h.schema != SCHEMA || h.profile != PROFILE {
      return None;
    }
    var valid := CheckModel(h.shape);
    if !valid {
      return None;
    }
    var expected := HeaderTensors(h.shape);
    if h.tensors != expected {
      return None;
    }
    var start := DataStart(hlen);
    var last := expected[|expected| - 1];
    PlacedWithin(Layout(h.shape), 0, |expected| - 1);
    if |file| != start + AlignTo(last.End(), ALIGN) || !ZeroRange(file, 16 + hlen, start) {
      return None;
    }
    var zero := CheckPadding(file, start, expected);
    if !zero {
      return None;
    }
    var inRange := CheckValues(file, h);
    if !inRange {
      return None;
    }
    r := Some(h);
  }
}
