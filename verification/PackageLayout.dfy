/** Where the tensors of a package go. */
module PackageLayout {
  import opened ByteCodec

  const ALIGN: nat := 64

  /** The model object of the header. */
  datatype Shape = Shape(architecture: string, layers: nat, dModel: nat, heads: nat, kvHeads: nat, dHead: nat,
                         dFf: nat, vocab: nat, maxSeq: nat, eps: nat, theta: nat, ropeLayers: seq<nat>, tied: bool)

  /** What the reader demands of it. */
  predicate ValidShape(m: Shape)
  {
    && m.architecture != [] && m.tied && m.eps >= 1 && m.theta >= 1
    && |m.ropeLayers| == m.layers && (forall i | 0 <= i < |m.ropeLayers| :: m.ropeLayers[i] <= 1)
    && m.layers >= 1 && m.dModel >= 1 && m.heads >= 1 && m.kvHeads >= 1 && m.dHead >= 1 && m.dFf >= 1
    && m.vocab >= 1 && m.maxSeq >= 1
    && m.dModel == m.heads * m.dHead && m.dHead % 2 == 0 && m.kvHeads <= m.heads && m.heads % m.kvHeads == 0
  }

  datatype Projection = Wq | Wk | Wv | Wo | WGate | WUp | WDown

  datatype Base = Embed | Layer(layer: nat, which: Projection)

  datatype Part = Q | Mu | K

  datatype Name =
    | Scaled(base: Base, part: Part) | FinalNorm | RopeCos | RopeSin | AttnNorm(layer: nat) | FfnNorm(layer: nat)

  const I8 := IntType(1, true)
  const U8 := IntType(1, false)
  const I32 := IntType(4, true)
  const I64 := IntType(8, true)

  datatype Entry = Entry(name: Name, dtype: IntType, shape: seq<nat>)

  function Product(shape: seq<nat>): nat
  {
    if shape == [] then 1 else shape[0] * Product(shape[1..])
  }

  lemma Products(a: nat, b: nat)
    ensures Product([a]) == a && Product([a, b]) == a * b
  {
    assert [a, b][1..] == [b] && [a][1..] == [] && [b][1..] == [];
  }

  function EntryBytes(e: Entry): nat { Product(e.shape) * e.dtype.width }

  function ScaledEntries(base: Base, rows: nat, cols: nat): (r: seq<Entry>)
    ensures |r| == 3
  {
    [Entry(Scaled(base, Q), I8, [rows, cols]), Entry(Scaled(base, Mu), I32, [rows]), Entry(Scaled(base, K), U8, [rows])]
  }

  function Rows(m: Shape, p: Projection): nat
  {
    match p
    case Wq => m.heads * m.dHead
    case Wk => m.kvHeads * m.dHead
    case Wv => m.kvHeads * m.dHead
    case Wo => m.dModel
    case WGate => m.dFf
    case WUp => m.dFf
    case WDown => m.dModel
  }

  function Cols(m: Shape, p: Projection): nat
  {
    match p
    case Wo => m.heads * m.dHead
    case WDown => m.dFf
    case _ => m.dModel
  }

  function LayerMatrix(m: Shape, l: nat, p: Projection): (r: seq<Entry>)
    ensures |r| == 3
  {
    ScaledEntries(Layer(l, p), Rows(m, p), Cols(m, p))
  }

  function LayerEntries(m: Shape, l: nat): (r: seq<Entry>)
    ensures |r| == 23
  {
    [Entry(AttnNorm(l), I64, [m.dModel])]
    + LayerMatrix(m, l, Wq) + LayerMatrix(m, l, Wk) + LayerMatrix(m, l, Wv) + LayerMatrix(m, l, Wo)
    + [Entry(FfnNorm(l), I64, [m.dModel])]
    + LayerMatrix(m, l, WGate) + LayerMatrix(m, l, WUp) + LayerMatrix(m, l, WDown)
  }

  function GlobalEntries(m: Shape): (r: seq<Entry>)
    ensures |r| == 6
  {
    ScaledEntries(Embed, m.vocab, m.dModel)
    + [Entry(FinalNorm, I64, [m.dModel]),
       Entry(RopeCos, I32, [m.maxSeq, m.dHead / 2]), Entry(RopeSin, I32, [m.maxSeq, m.dHead / 2])]
  }

  /** The entries of the file up to and including the first `n` layers. */
  function LayoutUpTo(m: Shape, n: nat): (r: seq<Entry>)
    ensures |r| == 6 + 23 * n
  {
    if n == 0 then GlobalEntries(m) else LayoutUpTo(m, n - 1) + LayerEntries(m, n - 1)
  }

  /** Tensor entries in file order. */
  function Layout(m: Shape): (r: seq<Entry>)
    ensures |r| == 6 + 23 * m.layers
  {
    LayoutUpTo(m, m.layers)
  }

  method PackageEntries(m: Shape) returns (out: seq<Entry>)
    ensures out == Layout(m)
  {
    hide LayerEntries;
    out := GlobalEntries(m);
    for l := 0 to m.layers
      invariant out == LayoutUpTo(m, l)
    {
      out := out + LayerEntries(m, l);
    }
  }

  // ---- names are distinct ---------------------------------------------------------

  function PartIndex(p: Part): nat
  {
    match p
    case Q => 0
    case Mu => 1
    case K => 2
  }

  function ProjectionIndex(p: Projection): nat
  {
    match p
    case Wq => 1
    case Wk => 4
    case Wv => 7
    case Wo => 10
    case WGate => 14
    case WUp => 17
    case WDown => 20
  }

  /** The place of a name in every layout that has it. */
  function IndexOf(n: Name): nat
  {
    match n
    case Scaled(Embed, p) => PartIndex(p)
    case FinalNorm => 3
    case RopeCos => 4
    case RopeSin => 5
    case AttnNorm(l) => 6 + 23 * l
    case FfnNorm(l) => 6 + 23 * l + 13
    case Scaled(Layer(l, w), p) => 6 + 23 * l + ProjectionIndex(w) + PartIndex(p)
  }

  lemma LayerNames(m: Shape, l: nat, i: nat)
    requires i < 23
    ensures IndexOf(LayerEntries(m, l)[i].name) == 6 + 23 * l + i
  {
    hide Rows;
    hide Cols;
  }

  /** Entry `i` is the one its name points to, so no name occurs twice. */
  lemma {:induction false} NamePosition(m: Shape, n: nat, i: nat)
    requires i < 6 + 23 * n
    ensures IndexOf(LayoutUpTo(m, n)[i].name) == i
  {
    hide LayerEntries;
    if n > 0 {
      if i < 6 + 23 * (n - 1) {
        NamePosition(m, n - 1, i);
      } else {
        LayerNames(m, n - 1, i - 6 - 23 * (n - 1));
      }
    }
  }

  // ---- offsets --------------------------------------------------------------------

  datatype Placement = Placement(entry: Entry, offset: nat)
  {
    function End(): nat { offset + EntryBytes(entry) }
  }

  /** Entries one after the other, each on the next aligned offset. */
  function Place(layout: seq<Entry>, offset: nat): (r: seq<Placement>)
    ensures |r| == |layout|
  {
    if layout == [] then []
    else [Placement(layout[0], offset)] + Place(layout[1..], AlignTo(offset + EntryBytes(layout[0]), ALIGN))
  }

  function Total(layout: seq<Entry>, offset: nat): nat
  {
    if layout == [] then offset else Total(layout[1..], AlignTo(offset + EntryBytes(layout[0]), ALIGN))
  }

  /** The loop that fills the header's tensor table. */
  method HeaderTensors(m: Shape) returns (entries: seq<Placement>)
    ensures entries == Place(Layout(m), 0)
  {
    hide AlignTo;
    hide EntryBytes;
    hide Place;
    var layout := PackageEntries(m);
    entries := [];
    var offset: nat := 0;
    assert layout[0..] == layout;
    for i := 0 to |layout|
      invariant Place(layout, 0) == entries + Place(layout[i..], offset)
    {
      PlaceNext(layout, i, offset);
      entries := entries + [Placement(layout[i], offset)];
      offset := AlignTo(offset + EntryBytes(layout[i]), ALIGN);
    }
  }

  lemma PlaceNext(layout: seq<Entry>, i: nat, offset: nat)
    requires i < |layout|
    ensures Place(layout[i..], offset)
         == [Placement(layout[i], offset)] + Place(layout[i + 1..], AlignTo(offset + EntryBytes(layout[i]), ALIGN))
  {
    assert layout[i..][1..] == layout[i + 1..];
  }

  /** Every offset is aligned, at or after where the table starts, and the
      entry ends before the total. */
  lemma {:induction false} PlacedWithin(layout: seq<Entry>, offset: nat, i: nat)
    requires offset % ALIGN == 0 && i < |layout|
    ensures var p := Place(layout, offset)[i];
      && p.entry == layout[i] && p.offset % ALIGN == 0 && offset <= p.offset
      && AlignTo(p.End(), ALIGN) <= Total(layout, offset)
    ensures i + 1 == |layout| ==> AlignTo(Place(layout, offset)[i].End(), ALIGN) == Total(layout, offset)
  {
    hide EntryBytes;
    var next := AlignTo(offset + EntryBytes(layout[0]), ALIGN);
    if i > 0 {
      PlacedWithin(layout[1..], next, i - 1);
    } else {
      TotalGrows(layout[1..], next);
    }
  }

  lemma {:induction false} TotalGrows(layout: seq<Entry>, offset: nat)
    ensures offset <= Total(layout, offset)
  {
    hide EntryBytes;
    if layout != [] { TotalGrows(layout[1..], AlignTo(offset + EntryBytes(layout[0]), ALIGN)); }
  }

  /** Ranges are pairwise disjoint and in file order. */
  lemma {:induction false} PlacedApart(layout: seq<Entry>, offset: nat, i: nat, j: nat)
    requires offset % ALIGN == 0 && i < j < |layout|
    ensures AlignTo(Place(layout, offset)[i].End(), ALIGN) <= Place(layout, offset)[j].offset
  {
    hide EntryBytes;
    var next := AlignTo(offset + EntryBytes(layout[0]), ALIGN);
    if i > 0 {
      PlacedApart(layout[1..], next, i - 1, j - 1);
    } else {
      PlacedWithin(layout[1..], next, j - 1);
    }
  }
}
