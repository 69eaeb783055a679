/** `Nifti.open` from end to end: the header is read, the extension chain skipped, the values are
    taken from the same bytes or from the companion `.img` bytes, the grid is filled (packed bits
    for type code 1, one element at a time otherwise), rescaled when scl_slope is not 0, and
    given its axes, coordinate space and descriptive metadata. Any failure on the way, including
    a `BigDecimal.valueOf` of a NaN or an infinity, ends in the catch-all, which returns an empty
    bundle. */
module Nifti {
  import opened Outcomes
  import opened Floats
  import opened Stream
  import opened Header
  import opened HeaderReader
  import opened Extensions
  import opened Voxels
  import opened Indexing
  import opened Fill
  import opened Bits
  import opened Rescale
  import opened Coords

  datatype Option<T> = None | Some(value: T)

  /** The decoded grid with what `open` attaches to it. */
  datatype Dataset = Dataset(
    name: string,
    kind: Kind,
    dims: seq<int>,
    cells: map<seq<int>, Voxel>,
    axes: seq<Axis>,
    space: Space,
    metadata: map<string, string>)

  /** The bundle `open` returns: one dataset, or none after a failure. */
  datatype Bundle = Bundle(datasets: seq<Dataset>)

  /** Where the extension chain begins: right after the fixed header. */
  function HeaderSize(v: Version): nat
  {
    if v == Nifti1 then Nifti1Size else Nifti2Size
  }

  /** The first axis with a negative length, or the rank when there is none. */
  function FirstNegative(dims: seq<int>): (k: nat)
    ensures k <= |dims|
    ensures k < |dims| ==> dims[k] < 0
    ensures forall i :: 0 <= i < k ==> dims[i] >= 0
    ensures k == |dims| <==> NonNegative(dims)
  {
    if dims == [] then 0
    else if dims[0] < 0 then 0
    else 1 + FirstNegative(dims[1..])
  }

  /** Everything `open` settles before the first element is read. */
  datatype Layout = Layout(h: Header, values: seq<bv8>, start: nat, kind: Kind)

  /** The decisions taken before the fill loop, in the order the code takes them: header, the
      extension chain, the value source (the companion from its first byte, or the same bytes
      right after the chain), the element kind, and the dimension lengths the storage accepts. */
  function LayoutOf(bytes: seq<bv8>, companion: Option<seq<bv8>>): (r: Result<Layout>)
    ensures HeaderOf(bytes).Failure? ==> r == Failure(HeaderOf(bytes).error)
    ensures r.Success? ==>
      HeaderOf(bytes) == Success(r.value.h) && WellShaped(r.value.h) &&
      ChainEnd(bytes, HeaderSize(r.value.h.version), r.value.h.swap).Success? &&
      NonNegative(r.value.h.dims)
    ensures r.Success? && r.value.h.twoFiles ==> companion == Some(r.value.values) && r.value.start == 0
    ensures r.Success? && !r.value.h.twoFiles ==>
      r.value.values == bytes && Success(r.value.start) == ChainEnd(bytes, HeaderSize(r.value.h.version), r.value.h.swap)
    ensures r.Success? ==>
      if r.value.h.dataType == 1 then r.value.kind == U1
      else Dispatched(r.value.kind) && Code(r.value.kind) == r.value.h.dataType
  {
    var h :- HeaderOf(bytes);
    var end :- ChainEnd(bytes, HeaderSize(h.version), h.swap);
    var source :- if !h.twoFiles then Success((bytes, end))
                  else if companion.Some? then Success((companion.value, 0))
                  else Failure(MissingCompanion);
    var kind :- if h.dataType == 1 then Success(U1) else KindOf(h.dataType);
    if FirstNegative(h.dims) < |h.dims| then Failure(NegativeLength(FirstNegative(h.dims)))
    else Success(Layout(h, source.0, source.1, kind))
  }

  /** The three entries `open` adds to the grid's metadata under its own keys. */
  function Metadata(h: Header): (m: map<string, string>)
    ensures m.Keys == {"auxiliary file name", "description", "intent"}
  {
    map["auxiliary file name" := h.auxName, "description" := h.description, "intent" := h.intentName]
  }

  /** The kind after the optional rescale. */
  function FinalKind(k: Kind, slope: Float): Kind
  {
    if !IsZero(slope) && PlacementOf(k).NewGrid? then PlacementOf(k).kind else k
  }

  /** The cells after the optional rescale. */
  function FinalCells(cells: map<seq<int>, Voxel>, k: Kind, slope: Float, intercept: Float): map<seq<int>, Voxel>
  {
    if !IsZero(slope) then ScaleCells(cells, k, slope, intercept) else cells
  }

  /** The rescale, which runs only when scl_slope is not 0, throws on a grid with an element. */
  predicate RescaleRefused(h: Header, k: Kind)
    requires NonNegative(h.dims)
  {
    !IsZero(h.sclSlope) && Count(h.dims) > 0 && ScaleRefuses(k, h.sclSlope, h.sclInter)
  }

  /** What `open` makes of the filled cells: rescaled when scl_slope is not 0, then named,
      described axis by axis and placed in the coordinate space the statements leave in
      `cspace`. A conversion of a NaN or an infinity on the way throws. */
  function Finish(h: Header, k: Kind, cells: map<seq<int>, Voxel>): Result<Dataset>
    requires WellShaped(h) && NonNegative(h.dims)
  {
    if RescaleRefused(h, k) || !ScalesValued(h.rank, h.spacings, h.toffset) || !AffineValued(h.rank, h.srow) then
      Failure(NotFinite)
    else
      Success(Dataset("nifti file", FinalKind(k, h.sclSlope), h.dims, FinalCells(cells, k, h.sclSlope, h.sclInter),
                      AxesOf(h.rank, h.xyztUnits, h.spacings),
                      SpaceAsWritten(h.rank, h.srow, h.spacings, OffsetsOf(h.rank, h.toffset)),
                      Metadata(h)))
  }

  /** The grid's orientation flags, as the sign tests of the fill loops compute them. */
  function FlipsOfHeader(h: Header): (f: Flips)
    requires WellShaped(h)
    ensures WithinRank(f, |h.dims|)
  {
    FlipsOf(h.rank, h.isAnalyze, h.srow)
  }

  /** Everything before the fill loop, as the code does it: the header is read, the extensions
      skipped, the value stream chosen, the element kind looked up and the dimensions checked.
      The stream handed back sits where the layout says the values begin. */
  method Prepare(bytes: seq<bv8>, companion: Option<seq<bv8>>) returns (res: Result<(Header, Reader, Kind)>)
    ensures LayoutOf(bytes, companion).Failure? ==> res == Failure(LayoutOf(bytes, companion).error)
    ensures LayoutOf(bytes, companion).Success? ==>
      res.Success? && fresh(res.value.1) && res.value.1.Valid() &&
      LayoutOf(bytes, companion).value == Layout(res.value.0, res.value.1.bytes, res.value.1.pos, res.value.2)
  {
    var hdr := new Reader(bytes);
    var h :- ReadHeader(hdr);
    var skipped :- SkipExtensions(hdr, h.swap);
    var values: Reader;
    if h.twoFiles {
      if companion.None? {
        return Failure(MissingCompanion);
      }
      values := new Reader(companion.value);
    } else {
      values := hdr;
    }
    var kind: Kind;
    if h.dataType == 1 {
      kind := U1;
    } else {
      kind :- KindOf(h.dataType);
    }
    var k := FirstNegative(h.dims);
    if k < |h.dims| {
      return Failure(NegativeLength(k));
    }
    res := Success((h, values, kind));
  }

  /** `if (scl_slope != 0)` after either fill loop: the grid `scale` returns, or the grid as
      filled. */
  method RescaleStep(g: Grid, h: Header) returns (res: Result<Grid>)
    requires NonNegative(h.dims) && g.dims == h.dims
    modifies g
    ensures RescaleRefused(h, old(g.kind)) ==> res == Failure(NotFinite)
    ensures !RescaleRefused(h, old(g.kind)) ==>
      res.Success? && res.value.dims == h.dims && res.value.kind == FinalKind(old(g.kind), h.sclSlope) &&
      res.value.cells == FinalCells(old(g.cells), old(g.kind), h.sclSlope, h.sclInter)
  {
    if !IsZero(h.sclSlope) {
      res := Scale(g, h.sclSlope, h.sclInter);
    } else {
      res := Success(g);
    }
  }

  /** The fill loop the type code selects, then the rescale when scl_slope is not 0, which can
      refuse the slope or the intercept. */
  method FillAndScale(values: Reader, h: Header, kind: Kind) returns (res: Result<Grid>, ghost raw: map<seq<int>, Voxel>)
    requires values.Valid() && WellShaped(h) && NonNegative(h.dims)
    requires if h.dataType == 1 then kind == U1 else Dispatched(kind)
    modifies values
    ensures kind == U1 ==>
      var f := FlipsOfHeader(h);
      if |h.dims| == 0 then res == Failure(NoAxisZero)
      else if Passes(values.bytes, old(values.pos), Columns(h.dims, f, Count(h.dims))).Failure? then res == Failure(Truncated)
      else
        raw == Laid(h.dims, f, Passes(values.bytes, old(values.pos), Columns(h.dims, f, Count(h.dims))).value.bits, Count(h.dims)) &&
        res.Success? && res.value.dims == h.dims &&
        res.value.kind == FinalKind(U1, h.sclSlope) && res.value.cells == FinalCells(raw, U1, h.sclSlope, h.sclInter)
    ensures kind != U1 ==>
      if old(values.pos) + Span(Count(h.dims), Width(kind)) > |values.bytes| then res == Failure(Truncated)
      else
        Holds(raw, Laid(h.dims, FlipsOfHeader(h), Offsets(old(values.pos), Width(kind), Count(h.dims)), Count(h.dims)),
              values.bytes, kind, h.swap) &&
        if RescaleRefused(h, kind) then res == Failure(NotFinite)
        else
          res.Success? && res.value.dims == h.dims &&
          res.value.kind == FinalKind(kind, h.sclSlope) && res.value.cells == FinalCells(raw, kind, h.sclSlope, h.sclInter)
  {
    raw := map[];
    var f := FlipsOf(h.rank, h.isAnalyze, h.srow);
    var g := new Grid(h.dims, kind);
    if kind == U1 {
      var filled :- FillBits(values, g, f);
    } else {
      var buf128 := new bv8[16];
      var filled :- FillVoxels(values, g, h.swap, f, buf128);
    }
    raw := g.cells;
    res := RescaleStep(g, h);
  }

  /** The decode proper. The result is the failure the layout stops at, or the failure of the
      fill loop when the values run out, or the finished dataset over the cells the fill loop
      wrote: for packed bits those of Passes over the oriented axis-0 columns, otherwise cells
      holding the element at each cell's offset (`raw`, before the rescale). */
  method Decode(bytes: seq<bv8>, companion: Option<seq<bv8>>)
    returns (res: Result<Dataset>, ghost raw: map<seq<int>, Voxel>)
    ensures LayoutOf(bytes, companion).Failure? ==> res == Failure(LayoutOf(bytes, companion).error)
    ensures LayoutOf(bytes, companion).Success? && LayoutOf(bytes, companion).value.kind == U1 ==>
      var L := LayoutOf(bytes, companion).value;
      var f := FlipsOfHeader(L.h);
      if |L.h.dims| == 0 then res == Failure(NoAxisZero)
      else if Passes(L.values, L.start, Columns(L.h.dims, f, Count(L.h.dims))).Failure? then res == Failure(Truncated)
      else
        raw == Laid(L.h.dims, f, Passes(L.values, L.start, Columns(L.h.dims, f, Count(L.h.dims))).value.bits, Count(L.h.dims)) &&
        res == Finish(L.h, U1, raw)
    ensures LayoutOf(bytes, companion).Success? && LayoutOf(bytes, companion).value.kind != U1 ==>
      var L := LayoutOf(bytes, companion).value;
      if L.start + Span(Count(L.h.dims), Width(L.kind)) > |L.values| then res == Failure(Truncated)
      else
        Holds(raw, Laid(L.h.dims, FlipsOfHeader(L.h), Offsets(L.start, Width(L.kind), Count(L.h.dims)), Count(L.h.dims)),
              L.values, L.kind, L.h.swap) &&
        res == Finish(L.h, L.kind, raw)
  {
    raw := map[];
    var prepared :- Prepare(bytes, companion);
    var (h, values, kind) := prepared;
    var g;
    g, raw := FillAndScale(values, h, kind);
    if g.Failure? {
      return Failure(g.error), raw;
    }
    var grid := g.value;
    if !ScalesValued(h.rank, h.spacings, h.toffset) {
      return Failure(NotFinite), raw;
    }
    var cspace :- ChooseSpace(h.rank, h.srow, h.spacings, OffsetsOf(h.rank, h.toffset));
    res := Success(Dataset("nifti file", grid.kind, grid.dims, grid.cells,
                           AxesOf(h.rank, h.xyztUnits, h.spacings), cspace, Metadata(h)));
  }

  /** Whether the decode reaches a dataset: the layout is accepted, the value bytes hold what
      the fill loop reads (packed bits also need an axis 0), and every conversion to BigDecimal
      after the fill meets a finite value. */
  ghost predicate Decodable(bytes: seq<bv8>, companion: Option<seq<bv8>>)
  {
    LayoutOf(bytes, companion).Success? &&
    var L := LayoutOf(bytes, companion).value;
    (if L.kind == U1 then
       |L.h.dims| > 0 && Passes(L.values, L.start, Columns(L.h.dims, FlipsOfHeader(L.h), Count(L.h.dims))).Success?
     else L.start + Span(Count(L.h.dims), Width(L.kind)) <= |L.values|) &&
    !RescaleRefused(L.h, L.kind) && ScalesValued(L.h.rank, L.h.spacings, L.h.toffset) && AffineValued(L.h.rank, L.h.srow)
  }

  /** `open`: the catch-all turns every failure into an empty bundle; a decoded grid is the
      bundle's one dataset, finished from the cells the fill loop wrote. */
  method Open(bytes: seq<bv8>, companion: Option<seq<bv8>>) returns (bundle: Bundle)
    ensures |bundle.datasets| == if Decodable(bytes, companion) then 1 else 0
    ensures Decodable(bytes, companion) ==>
      exists cells :: Finish(LayoutOf(bytes, companion).value.h, LayoutOf(bytes, companion).value.kind, cells) == Success(bundle.datasets[0])
  {
    var res, raw := Decode(bytes, companion);
    bundle := if res.Success? then Bundle([res.value]) else Bundle([]);
    if Decodable(bytes, companion) {
      assert Finish(LayoutOf(bytes, companion).value.h, LayoutOf(bytes, companion).value.kind, raw) == Success(bundle.datasets[0]);
    }
  }

  /** A first int that is neither 348 nor 540 in either byte order ends the decode before
      anything else is read, whatever follows. */
  lemma UnrecognisedSizeRefused(bytes: seq<bv8>, companion: Option<seq<bv8>>)
    requires |bytes| >= 4 && RouteOf(IntAt(bytes, 0, false)) == Unrecognised
    ensures LayoutOf(bytes, companion) == Failure(UnknownHeaderSize(IntAt(bytes, 0, false)))
    ensures !Decodable(bytes, companion)
  {
  }

  /** A single-file header never looks at the companion bytes; a two-file header takes its values
      from them alone, so the bytes after the header chain do not matter. */
  lemma CompanionUse(bytes: seq<bv8>, c: Option<seq<bv8>>, c': Option<seq<bv8>>)
    requires HeaderOf(bytes).Success?
    ensures !HeaderOf(bytes).value.twoFiles ==> LayoutOf(bytes, c) == LayoutOf(bytes, c')
    ensures HeaderOf(bytes).value.twoFiles && c == None ==> LayoutOf(bytes, c).Failure?
    ensures HeaderOf(bytes).value.twoFiles && c == None ==>
      ChainEnd(bytes, HeaderSize(HeaderOf(bytes).value.version), HeaderOf(bytes).value.swap).Success? ==>
      LayoutOf(bytes, c) == Failure(MissingCompanion)
    ensures HeaderOf(bytes).value.twoFiles && c.Some? && LayoutOf(bytes, c).Success? ==>
      LayoutOf(bytes, c).value.values == c.value && LayoutOf(bytes, c).value.start == 0
  {
  }

  /** A zero scl_slope, positive or negative, leaves the kind and the cells as the fill loop
      wrote them; any other slope rescales every cell and keeps the set of cells. */
  lemma SlopeDecidesRescale(h: Header, k: Kind, cells: map<seq<int>, Voxel>)
    requires WellShaped(h) && NonNegative(h.dims) && Finish(h, k, cells).Success?
    ensures IsZero(h.sclSlope) ==> Finish(h, k, cells).value.kind == k && Finish(h, k, cells).value.cells == cells
    ensures !IsZero(h.sclSlope) ==> Finish(h, k, cells).value.cells == ScaleCells(cells, k, h.sclSlope, h.sclInter)
    ensures Finish(h, k, cells).value.cells.Keys == cells.Keys
    ensures Finish(h, k, cells).value.dims == h.dims && |Finish(h, k, cells).value.axes| == h.rank
  {
  }

  /** The finished dataset never has the 2-D affine space: a 3-D grid with a transform other
      than the identity gets the 3-D one, and every other grid, a 2-D one included, the linear
      space of its spacings and offsets. */
  lemma FinishedSpace(h: Header, k: Kind, cells: map<seq<int>, Voxel>)
    requires WellShaped(h) && NonNegative(h.dims) && Finish(h, k, cells).Success?
    ensures !Finish(h, k, cells).value.space.Affine2d?
    ensures h.rank == 3 && !Identity3(h.srow) ==> Finish(h, k, cells).value.space == Affine3d(h.srow)
    ensures !(h.rank == 3 && !Identity3(h.srow)) ==>
      Finish(h, k, cells).value.space == LinearNd(h.spacings, OffsetsOf(h.rank, h.toffset))
  {
  }

  /** A NaN or infinite spacing, toffset from rank 4 on, entry of the affine transform the rank
      chooses, slope or intercept of a non-empty 64-bit integer grid, or intercept of a non-empty
      quad grid ends the decode; when every float of the header is finite, nothing after the fill
      is refused. */
  lemma NonFiniteRefused(h: Header, k: Kind, cells: map<seq<int>, Voxel>, i: nat)
    requires WellShaped(h) && NonNegative(h.dims)
    ensures i < h.rank && !Finite(h.spacings[i]) ==> Finish(h, k, cells) == Failure(NotFinite)
    ensures h.rank > 3 && !Finite(h.toffset) ==> Finish(h, k, cells) == Failure(NotFinite)
    ensures (k in {U64, I64} && !IsZero(h.sclSlope) && Count(h.dims) > 0 &&
             (!Finite(h.sclSlope) || !Finite(h.sclInter))) ==> Finish(h, k, cells) == Failure(NotFinite)
    ensures (k in {Quad, CQuad} && !IsZero(h.sclSlope) && Count(h.dims) > 0 &&
             !Finite(h.sclInter)) ==> Finish(h, k, cells) == Failure(NotFinite)
    ensures (h.rank == 2 && !Identity2(h.srow) && !AllFinite(Entries2(h.srow))) ==>
      Finish(h, k, cells) == Failure(NotFinite)
    ensures (h.rank == 3 && !Identity3(h.srow) && !AllFinite(h.srow)) ==>
      Finish(h, k, cells) == Failure(NotFinite)
    ensures (AllFinite(h.spacings) && Finite(h.toffset) && AllFinite(h.srow) &&
             Finite(h.sclSlope) && Finite(h.sclInter)) ==> Finish(h, k, cells).Success?
  {
    RefusingKinds(k, h.sclSlope, h.sclInter);
    if AllFinite(h.srow) {
      assert AllFinite(Entries2(h.srow));
    }
  }
}
