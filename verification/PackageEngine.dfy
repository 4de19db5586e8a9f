/** From the source tensors to the logits: what is prepared, written, read and
    loaded is the model of the quantised source, and the fast engine on it gives
    the logits of that model. */
module PackageEngine {
  import opened Arithmetic
  import opened Exponential
  import opened Float64
  import ModernOps
  import ModernModel
  import opened SlowEngine
  import opened Stacking
  import opened TeacherForcing
  import Fast = FastEngine
  import opened ByteCodec
  import opened PackageLayout
  import opened PackageFile
  import opened PackageReader
  import opened PackageWriter
  import opened PackagePrepare
  import opened PackageModel

  // ---- the model of a source ------------------------------------------------------

  /** q, mu and k of a source matrix, straight from the quantiser. */
  function SourceScaled(src: Source, b: Base): ModernOps.Scaled
    requires QuantizeAll(src.rows(b)).Some?
  {
    var z := QuantizeAll(src.rows(b)).value;
    ModernOps.Scaled(Qs(z), Mus(z), Exponents(Ks(z)))
  }

  function SourceGains(src: Source, n: Name): Vec
    requires Gains(src.norm(n)).Some?
  {
    Gains(src.norm(n)).value
  }

  /** Every tensor of the source can be converted. */
  ghost predicate Convertible(m: Shape, src: Source)
  {
    && (forall b: Base | InLayout(m, Scaled(b, Q)) :: QuantizeAll(src.rows(b)).Some?)
    && (forall n: Name | InLayout(m, n) && IsNorm(n) :: Gains(src.norm(n)).Some?)
  }

  ghost function SourceLayer(m: Shape, src: Source, l: nat): ModernModel.Layer
    requires Convertible(m, src) && l < m.layers && |m.ropeLayers| == m.layers
  {
    ModernModel.Layer(m.ropeLayers[l] != 0, SourceGains(src, AttnNorm(l)), SourceGains(src, FfnNorm(l)),
                      SourceScaled(src, Layer(l, Wq)), SourceScaled(src, Layer(l, Wk)),
                      SourceScaled(src, Layer(l, Wv)), SourceScaled(src, Layer(l, Wo)),
                      SourceScaled(src, Layer(l, WGate)), SourceScaled(src, Layer(l, WUp)),
                      SourceScaled(src, Layer(l, WDown)))
  }

  /** The quantised source as a model, without any file. */
  ghost function SourceModel(m: Shape, src: Source, table: Vec): ModernModel.Model
    requires Convertible(m, src) && |m.ropeLayers| == m.layers
  {
    ModernModel.Model(m.heads, m.kvHeads, m.dHead, m.dModel, m.dFf, m.vocab, m.maxSeq, m.eps, table,
                      SourceScaled(src, Embed), SourceGains(src, FinalNorm), src.cos, src.sin,
                      seq(m.layers, l requires 0 <= l < m.layers => SourceLayer(m, src, l)))
  }

  // ---- loading what was prepared -------------------------------------------------

  lemma ReadBackConverts(codec: Codec, file: Bytes, h: Header, src: Source)
    requires ReadsBack(codec, file, h, src)
    ensures Convertible(h.shape, src)
  {
    hide WellFormed;
    hide ValuesOk;
    hide Tensor;
    hide QuantizeAll;
    hide Gains;
    forall b: Base | InLayout(h.shape, Scaled(b, Q))
      ensures QuantizeAll(src.rows(b)).Some?
    {
      assert Values(src, Scaled(b, Q)).Some?;
    }
    forall n: Name | InLayout(h.shape, n) && IsNorm(n)
      ensures Gains(src.norm(n)).Some?
    {
      assert Values(src, n).Some?;
    }
  }

  lemma ScaledLoads(codec: Codec, file: Bytes, h: Header, src: Source, b: Base)
    requires ReadsBack(codec, file, h, src) && SourceMatches(h.shape, src) && InLayout(h.shape, Scaled(b, Q))
    ensures QuantizeAll(src.rows(b)).Some? && LoadScaled(file, h, b) == SourceScaled(src, b)
  {
    hide WellFormed;
    hide ValuesOk;
    hide Tensor;
    hide QuantizeAll;
    hide Unflatten;
    hide Flatten;
    hide PackageLayout.Rows;
    hide PackageLayout.Cols;
    assert InLayout(h.shape, Scaled(b, Mu)) && InLayout(h.shape, Scaled(b, K));
    assert Values(src, Scaled(b, Q)) == Some(Tensor(file, h, Scaled(b, Q)));
    assert Values(src, Scaled(b, Mu)) == Some(Tensor(file, h, Scaled(b, Mu)));
    assert Values(src, Scaled(b, K)) == Some(Tensor(file, h, Scaled(b, K)));
    var z := QuantizeAll(src.rows(b)).value;
    var rows, cols := BaseRows(h.shape, b), BaseCols(h.shape, b);
    ScaledFits(src.rows(b), rows, cols, z);
    UnflattenFlatten(Qs(z), rows, cols);
  }

  lemma GainsLoad(codec: Codec, file: Bytes, h: Header, src: Source, n: Name)
    requires ReadsBack(codec, file, h, src) && InLayout(h.shape, n) && IsNorm(n)
    ensures Gains(src.norm(n)).Some? && Tensor(file, h, n) == SourceGains(src, n)
  {
    hide WellFormed;
    hide ValuesOk;
    hide Tensor;
    hide Gains;
    assert Values(src, n) == Some(Tensor(file, h, n));
  }

  lemma TablesLoad(codec: Codec, file: Bytes, h: Header, src: Source)
    requires ReadsBack(codec, file, h, src) && SourceMatches(h.shape, src)
    ensures LoadTable(file, h, RopeCos) == src.cos && LoadTable(file, h, RopeSin) == src.sin
  {
    hide WellFormed;
    hide ValuesOk;
    hide Tensor;
    hide Unflatten;
    hide Flatten;
    assert Values(src, RopeCos) == Some(Tensor(file, h, RopeCos));
    assert Values(src, RopeSin) == Some(Tensor(file, h, RopeSin));
    UnflattenFlatten(src.cos, h.shape.maxSeq, h.shape.dHead / 2);
    UnflattenFlatten(src.sin, h.shape.maxSeq, h.shape.dHead / 2);
  }

  lemma LayerLoads(codec: Codec, file: Bytes, h: Header, src: Source, l: nat)
    requires ReadsBack(codec, file, h, src) && SourceMatches(h.shape, src) && Convertible(h.shape, src)
    requires l < h.shape.layers == |h.shape.ropeLayers|
    ensures LoadLayer(file, h, l, h.shape.ropeLayers[l] != 0) == SourceLayer(h.shape, src, l)
  {
    hide ReadsBack;
    hide SourceMatches;
    hide LoadScaled;
    hide SourceScaled;
    hide SourceGains;
    hide Tensor;
    GainsLoad(codec, file, h, src, AttnNorm(l));
    GainsLoad(codec, file, h, src, FfnNorm(l));
    ScaledLoads(codec, file, h, src, Layer(l, Wq));
    ScaledLoads(codec, file, h, src, Layer(l, Wk));
    ScaledLoads(codec, file, h, src, Layer(l, Wv));
    ScaledLoads(codec, file, h, src, Layer(l, Wo));
    ScaledLoads(codec, file, h, src, Layer(l, WGate));
    ScaledLoads(codec, file, h, src, Layer(l, WUp));
    ScaledLoads(codec, file, h, src, Layer(l, WDown));
  }

  /** A file that reads back loads as the model of the quantised source. */
  lemma LoadIsSource(codec: Codec, file: Bytes, h: Header, src: Source, table: Vec)
    requires ReadsBack(codec, file, h, src) && SourceMatches(h.shape, src) && |h.shape.ropeLayers| == h.shape.layers
    ensures Convertible(h.shape, src) && Load(file, h, table) == SourceModel(h.shape, src, table)
  {
    hide ReadsBack;
    hide SourceMatches;
    hide Convertible;
    hide LoadScaled;
    hide LoadTable;
    hide LoadLayer;
    hide SourceScaled;
    hide SourceGains;
    hide SourceLayer;
    hide Tensor;
    ReadBackConverts(codec, file, h, src);
    var m, loaded := h.shape, Load(file, h, table);
    ScaledLoads(codec, file, h, src, Embed);
    GainsLoad(codec, file, h, src, FinalNorm);
    TablesLoad(codec, file, h, src);
    forall l | 0 <= l < m.layers
      ensures loaded.layers[l] == SourceLayer(m, src, l)
    {
      LayerLoads(codec, file, h, src, l);
    }
    SameLayers(m, src, table, loaded.layers);
  }

  lemma SameLayers(m: Shape, src: Source, table: Vec, layers: seq<ModernModel.Layer>)
    requires Convertible(m, src) && |layers| == m.layers == |m.ropeLayers|
    requires forall l | 0 <= l < m.layers :: layers[l] == SourceLayer(m, src, l)
    ensures SourceModel(m, src, table).layers == layers
  {
    hide SourceLayer;
    hide Convertible;
    hide SourceScaled;
    hide SourceGains;
  }

  // ---- the whole way -----------------------------------------------------------------

  datatype Outcome = Unprepared | Unforced | Forced(emits: seq<Emit>)

  /** Prepare the package, open it, load it and teacher-force sequences on it.
      A source that prepares is always accepted by the reader, and the fast
      engine then gives, at every position, the plain engine's logits for the
      quantised source, refusing exactly when that engine refuses. */
  method PrepareAndForce(codec: Codec, m: Shape, source: SourceInfo, src: Source, table: Vec, fpu: Fpu,
                         sequences: seq<seq<int>>)
    returns (r: Outcome)
    requires SourceMatches(m, src) && |codec.render(HeaderFor(m, source))| < TWO64
    requires ReadableHeader(codec, HeaderFor(m, source)) && InnerDimensions(m) && ValidTable(table) && ValidFpu(fpu)
    ensures r.Unprepared? <==> EncodedUpTo(src, Layout(m), |Layout(m)|).None?
    ensures !r.Unprepared? ==> Convertible(m, src) && |m.ropeLayers| == m.layers
    ensures !r.Unprepared? ==> ModernModel.ValidModel(SourceModel(m, src, table))
    ensures !r.Unprepared? ==> ForcedAs(SourceModel(m, src, table), sequences, r)
  {
    hide *;
    var prepared := PreparePackage(codec, m, source, src);
    if prepared.Refused? {
      return Unprepared;
    }
    ghost var h := HeaderFor(m, source);
    HeaderShape(codec, m, source);
    var header := OpenPackage(codec, prepared.file);
    AcceptedHeader(codec, prepared.file, h, src, header);
    AcceptedIsValid(codec, prepared.file, h, table);
    LoadIsSource(codec, prepared.file, h, src, table);
    var model := Load(prepared.file, header.value, table);
    var engine := new Fast.Engine(model, fpu);
    var emits := TeacherForced(engine, sequences);
    ForcedIs(model, sequences, emits);
    r := if emits.None? then Unforced else Forced(emits.value);
  }

  /** The answer of the fast engine, in terms of the plain one. */
  ghost predicate ForcedAs(m: ModernModel.Model, sequences: seq<seq<int>>, r: Outcome)
    requires ModernModel.ValidModel(m)
  {
    && (r.Unforced? <==>
        sequences == [] || exists s | 0 <= s < |sequences| :: sequences[s] == [] || SlowRun(m, sequences[s]).None?)
    && (r.Forced? ==> |r.emits| == Start(Lengths(sequences), |sequences|))
    && (r.Forced? ==> forall s, p | 0 <= s < |sequences| && 0 <= p < |sequences[s]| ::
          SlowRun(m, sequences[s]).Some?
          && r.emits[RowOf(Lengths(sequences), s, p)] == Emit(s, p, SlowRun(m, sequences[s]).value.logits[p]))
  }

  lemma ForcedIs(m: ModernModel.Model, sequences: seq<seq<int>>, emits: Option<seq<Emit>>)
    requires ModernModel.ValidModel(m)
    requires emits.None? <==>
      sequences == [] || exists s | 0 <= s < |sequences| :: sequences[s] == [] || SlowRun(m, sequences[s]).None?
    requires emits.Some? ==> |emits.value| == Start(Lengths(sequences), |sequences|)
    requires emits.Some? ==> forall s, p | 0 <= s < |sequences| && 0 <= p < |sequences[s]| ::
      emits.value[RowOf(Lengths(sequences), s, p)] == Emit(s, p, SlowRun(m, sequences[s]).value.logits[p])
    ensures ForcedAs(m, sequences, if emits.None? then Unforced else Forced(emits.value))
  {
    hide SlowRun;
    hide ModernModel.ValidModel;
  }

  lemma HeaderShape(codec: Codec, m: Shape, source: SourceInfo)
    ensures HeaderFor(m, source).shape == m
    ensures ReadableHeader(codec, HeaderFor(m, source)) ==> |m.ropeLayers| == m.layers
  {
  }

  /** The reader returns the very header that was written. */
  lemma AcceptedHeader(codec: Codec, file: Bytes, h: Header, src: Source, header: Option<Header>)
    requires ReadsBack(codec, file, h, src)
    requires header.Some? ==> WellFormed(codec, file, header.value)
    requires header.None? ==> forall g :: !(WellFormed(codec, file, g) && ValuesOk(file, g))
    ensures header == Some(h) && WellFormed(codec, file, h) && ValuesOk(file, h)
  {
    hide ValuesOk;
    hide Padding;
    hide ValidHeader;
  }
}
