/** From an accepted package to the model the engines run: the reader's checks
    give every precondition of the engines. */
module PackageModel {
  import opened Arithmetic
  import opened Exponential
  import ModernOps
  import ModernModel
  import opened ByteCodec
  import opened PackageLayout
  import opened PackageFile
  import opened PackageReader

  function Exponents(k: Vec): (r: seq<nat>)
    ensures |r| == |k|
  {
    seq(|k|, i requires 0 <= i < |k| => Max(k[i], 0))
  }

  function LoadScaled(file: Bytes, h: Header, b: Base): ModernOps.Scaled
  {
    ModernOps.Scaled(Unflatten(Tensor(file, h, Scaled(b, Q)), BaseCols(h.shape, b), BaseRows(h.shape, b)),
                     Tensor(file, h, Scaled(b, Mu)), Exponents(Tensor(file, h, Scaled(b, K))))
  }

  function LoadLayer(file: Bytes, h: Header, l: nat, rope: bool): ModernModel.Layer
  {
    ModernModel.Layer(rope, Tensor(file, h, AttnNorm(l)), Tensor(file, h, FfnNorm(l)),
                      LoadScaled(file, h, Layer(l, Wq)), LoadScaled(file, h, Layer(l, Wk)),
                      LoadScaled(file, h, Layer(l, Wv)), LoadScaled(file, h, Layer(l, Wo)),
                      LoadScaled(file, h, Layer(l, WGate)), LoadScaled(file, h, Layer(l, WUp)),
                      LoadScaled(file, h, Layer(l, WDown)))
  }

  function LoadTable(file: Bytes, h: Header, n: Name): Mat
  {
    Unflatten(Tensor(file, h, n), h.shape.dHead / 2, h.shape.maxSeq)
  }

  /** The model of a package; the exponential table is not part of the file. */
  function Load(file: Bytes, h: Header, table: Vec): ModernModel.Model
    requires |h.shape.ropeLayers| == h.shape.layers
  {
    var m := h.shape;
    ModernModel.Model(m.heads, m.kvHeads, m.dHead, m.dModel, m.dFf, m.vocab, m.maxSeq, m.eps, table,
                      LoadScaled(file, h, Embed), Tensor(file, h, FinalNorm),
                      LoadTable(file, h, RopeCos), LoadTable(file, h, RopeSin),
                      seq(m.layers, l requires 0 <= l < m.layers => LoadLayer(file, h, l, m.ropeLayers[l] != 0)))
  }

  // ---- what the bytes decode to -----------------------------------------------------

  /** Every tensor of a well-formed file has the shape and range of its entry. */
  lemma TensorShape(codec: Codec, file: Bytes, h: Header, n: Name)
    requires WellFormed(codec, file, h) && InLayout(h.shape, n)
    ensures var e, v := EntryFor(h.shape, n), Tensor(file, h, n); |v| == Product(e.shape) && AllFit(e.dtype, v)
  {
    hide Place;
    hide LayoutUpTo;
    hide EntryFor;
    hide InLayout;
    hide IndexOf;
    hide ValidShape;
    hide Padding;
    hide ZeroRange;
    hide Product;
    hide AllFit;
    hide DecodeAll;
    hide AlignTo;
    var start, i := DataStart(HeaderLength(file)), IndexOf(n);
    NamePlaced(h.shape, n);
    WellFormedIsSerialized(codec, file, h);
    hide Serialized;
    NameFound(h.shape, n);
    var blobs := Blobs(file, start, h.tensors);
    assert |blobs[i]| == EntryBytes(EntryFor(h.shape, n));
    AllOnto(EntryFor(h.shape, n).dtype, blobs[i], Product(EntryFor(h.shape, n).shape));
  }

  lemma {:induction false} UnflattenShape(flat: Vec, rows: nat, cols: nat, t: IntType)
    requires |flat| == rows * cols && AllFit(t, flat)
    ensures forall i | 0 <= i < rows :: var r := Unflatten(flat, cols, rows)[i]; |r| == cols && AllFit(t, r)
    decreases rows
  {
    hide Fits;
    if rows > 0 {
      Distribute(1, rows - 1, cols);
      MulMono(0, rows - 1, cols);
      UnflattenShape(flat[cols..], rows - 1, cols, t);
      var all, rest := Unflatten(flat, cols, rows), Unflatten(flat[cols..], cols, rows - 1);
      forall i | 0 <= i < rows
        ensures |all[i]| == cols && AllFit(t, all[i])
      {
        if i > 0 { assert all[i] == rest[i - 1]; }
      }
    }
  }

  lemma StorageMeans(v: int)
    ensures Fits(I8, v) ==> -128 <= v <= 127
    ensures Fits(U8, v) ==> 0 <= v
    ensures Fits(I32, v) ==> InI32(v)
    ensures Fits(I64, v) ==> InI64(v)
  {
    Pow256Values();
    hide Pow256;
  }

  lemma LoadedScaled(codec: Codec, file: Bytes, h: Header, b: Base)
    requires WellFormed(codec, file, h) && ValuesOk(file, h) && InLayout(h.shape, Scaled(b, Q))
    ensures ModernModel.ValidScaled(LoadScaled(file, h, b), BaseRows(h.shape, b), BaseCols(h.shape, b))
  {
    hide WellFormed;
    hide Tensor;
    hide Unflatten;
    hide Fits;
    hide BaseRows;
    hide BaseCols;
    hide Product;
    var m := h.shape;
    var rows, cols := BaseRows(m, b), BaseCols(m, b);
    assert InLayout(m, Scaled(b, Mu)) && InLayout(m, Scaled(b, K));
    TensorShape(codec, file, h, Scaled(b, Q));
    TensorShape(codec, file, h, Scaled(b, Mu));
    TensorShape(codec, file, h, Scaled(b, K));
    Products(rows, cols);
    UnflattenShape(Tensor(file, h, Scaled(b, Q)), rows, cols, I8);
    assert BaseOk(file, h, b);
    var q := Unflatten(Tensor(file, h, Scaled(b, Q)), cols, rows);
    var mu, k := Tensor(file, h, Scaled(b, Mu)), Tensor(file, h, Scaled(b, K));
    forall i | 0 <= i < rows
      ensures |q[i]| == cols && Bounded(q[i], 127) && 0 <= mu[i] < TWO31 && 16 <= k[i] <= 62
    {
      assert RowPasses(q[i], mu[i], k[i]);
      forall j | 0 <= j < |q[i]| ensures -128 <= q[i][j] <= 127 { StorageMeans(q[i][j]); }
    }
  }

  lemma LoadedGains(codec: Codec, file: Bytes, h: Header, n: Name)
    requires WellFormed(codec, file, h) && InLayout(h.shape, n) && (n.FinalNorm? || n.AttnNorm? || n.FfnNorm?)
    ensures ModernModel.ValidGains(Tensor(file, h, n), h.shape.dModel)
  {
    hide WellFormed;
    hide Tensor;
    hide Fits;
    hide Product;
    TensorShape(codec, file, h, n);
    Products(h.shape.dModel, 1);
    var v := Tensor(file, h, n);
    forall i | 0 <= i < |v| ensures InI64(v[i]) { StorageMeans(v[i]); }
  }

  lemma LoadedTable(codec: Codec, file: Bytes, h: Header, n: Name)
    requires WellFormed(codec, file, h) && (n.RopeCos? || n.RopeSin?)
    ensures ModernModel.ValidRope(LoadTable(file, h, n), h.shape.maxSeq, h.shape.dHead / 2)
  {
    hide WellFormed;
    hide Tensor;
    hide Unflatten;
    hide Fits;
    hide Product;
    var m := h.shape;
    TensorShape(codec, file, h, n);
    Products(m.maxSeq, m.dHead / 2);
    UnflattenShape(Tensor(file, h, n), m.maxSeq, m.dHead / 2, I32);
    var t := LoadTable(file, h, n);
    forall p, i | 0 <= p < |t| && 0 <= i < |t[p]| ensures InI32(t[p][i]) { StorageMeans(t[p][i]); }
  }

  lemma LoadedLayer(codec: Codec, file: Bytes, h: Header, m: ModernModel.Model, l: nat, rope: bool)
    requires WellFormed(codec, file, h) && ValuesOk(file, h) && l < h.shape.layers
    requires m.nHeads == h.shape.heads && m.nKv == h.shape.kvHeads && m.dHead == h.shape.dHead
    requires m.dModel == h.shape.dModel && m.dFf == h.shape.dFf
    ensures ModernModel.ValidLayer(m, LoadLayer(file, h, l, rope))
  {
    hide WellFormed;
    hide ValuesOk;
    hide LoadScaled;
    hide ModernModel.ValidScaled;
    hide ModernModel.ValidGains;
    hide Tensor;
    LoadedGains(codec, file, h, AttnNorm(l));
    LoadedGains(codec, file, h, FfnNorm(l));
    LoadedScaled(codec, file, h, Layer(l, Wq));
    LoadedScaled(codec, file, h, Layer(l, Wk));
    LoadedScaled(codec, file, h, Layer(l, Wv));
    LoadedScaled(codec, file, h, Layer(l, Wo));
    LoadedScaled(codec, file, h, Layer(l, WGate));
    LoadedScaled(codec, file, h, Layer(l, WUp));
    LoadedScaled(codec, file, h, Layer(l, WDown));
  }

  lemma AcceptedShape(codec: Codec, file: Bytes, h: Header)
    requires WellFormed(codec, file, h)
    ensures ValidShape(h.shape)
  {
  }

  /** The dimensions the limb arithmetic is made for. */
  predicate InnerDimensions(m: Shape)
  {
    && m.dModel < ModernModel.DIM_LIMIT && m.dFf < ModernModel.DIM_LIMIT
    && m.maxSeq < ModernModel.DIM_LIMIT && m.dHead < ModernModel.DIM_LIMIT
  }

  /** What the reader accepts, the engines can run: with a valid exponential
      table and dimensions in the range the limb arithmetic is made for. */
  lemma AcceptedIsValid(codec: Codec, file: Bytes, h: Header, table: Vec)
    requires WellFormed(codec, file, h) && ValuesOk(file, h) && ValidTable(table) && InnerDimensions(h.shape)
    ensures ValidShape(h.shape) && ModernModel.ValidModel(Load(file, h, table))
  {
    hide WellFormed;
    hide ValuesOk;
    hide LoadScaled;
    hide LoadTable;
    hide LoadLayer;
    hide Tensor;
    hide ModernModel.ValidScaled;
    hide ModernModel.ValidGains;
    hide ModernModel.ValidRope;
    hide ModernModel.ValidLayer;
    hide ValidTable;
    AcceptedShape(codec, file, h);
    var m := Load(file, h, table);
    LoadedScaled(codec, file, h, Embed);
    LoadedGains(codec, file, h, FinalNorm);
    LoadedTable(codec, file, h, RopeCos);
    LoadedTable(codec, file, h, RopeSin);
    forall l | 0 <= l < |m.layers|
      ensures ModernModel.ValidLayer(m, m.layers[l])
    {
      LoadedLayer(codec, file, h, m, l, h.shape.ropeLayers[l] != 0);
    }
  }
}
