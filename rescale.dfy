/** `scale`: when scl_slope is not 0, every element x of the filled grid becomes
    x * scl_slope + scl_inter. The integer kinds up to 32 bits, the bit kind and binary32 go to a
    new binary64 grid, the 64-bit integers to a new BigDecimal grid and binary32 complex to a new
    binary64 complex grid; binary64, binary128 and the BigDecimal kinds are rescaled in place, and
    colour grids are left alone. A NaN or infinite slope or intercept handed to
    `BigDecimal.valueOf` throws, which `open` turns into an empty bundle. */
module Rescale {
  import opened Outcomes
  import opened Floats
  import opened ByteOrder
  import opened Voxels
  import opened Indexing
  import opened Fill

  /** Where `scale` puts its result. */
  datatype Placement = NewGrid(kind: Kind) | InPlace | Unchanged

  /** The branch of `scale` each element kind takes. */
  function PlacementOf(k: Kind): Placement
  {
    match k
    case U1 | U8 | I8 | U16 | I16 | U32 | I32 | Float32 => NewGrid(Float64)
    case U64 | I64 => NewGrid(HP)
    case CF32 => NewGrid(CF64)
    case Float64 | CF64 | Quad | CQuad | HP | CHP => InPlace
    case Rgb | Argb => Unchanged
  }

  /** The arithmetic each branch computes in: BigDecimal for the 64-bit integers and the
      BigDecimal kinds, Float128 for the quad kinds, double otherwise. */
  function ArithOf(k: Kind): Arith
  {
    match k
    case U64 | I64 | HP | CHP => Decimal
    case Quad | CQuad => Float128
    case _ => Double
  }

  /** Java's reading of a byte as a signed value. */
  function Signed8(b: bv8): (r: int)
    ensures -0x80 <= r < 0x80
    ensures b < 0x80 <==> r >= 0
  {
    if b < 0x80 then b as int else b as int - 0x100
  }

  /** Elements that hold one number. */
  predicate Scalar(v: Voxel)
  {
    v.Bit? || v.Byte? || v.Short? || v.Int? || v.Long? || v.Real? || v.Quad128? || v.Number?
  }

  /** The number `v()` returns for an element of a real kind: an integer exactly, signed or
      unsigned as its kind reads it; a float as stored; a computed element as computed. */
  function ValueOf(v: Voxel, k: Kind): Term
    requires Scalar(v)
  {
    match v
    case Bit(on) => Exact(if on then 1 else 0)
    case Byte(b) => Exact(if k.I8? then Signed8(b) else b as int)
    case Short(x) => Exact(if k.I16? then Signed16(x) else x as int)
    case Int(x) => Exact(if k.I32? then Signed32(x) else x as int)
    case Long(x) => Exact(if k.I64? then Signed64(x) else x as int)
    case Real(f) => Stored(f)
    case Quad128(q) => StoredQuad(q)
    case Number(t) => t
  }

  /** The intercept 0 the quad branches add to the imaginary part. */
  const PlusZero: Float := F64(0)

  /** The BigDecimal complex branch as written: the scaled real part is stored with `setR`, and
      then the scaled imaginary part is stored with `setR` as well, so the real part ends up
      holding the scaled imaginary part and the imaginary part is never set. */
  function ScaleChpAsWritten(re: Term, im: Term, slope: Float, intercept: Float): Voxel
  {
    ComplexNumber(Affine(im, slope, intercept, Decimal), Unwritten)
  }

  /** The BigDecimal complex branch as evidently intended: each part is stored in its own place,
      as the binary32 and binary64 complex branches do. */
  function ScaleChp(re: Term, im: Term, slope: Float, intercept: Float): Voxel
  {
    ComplexNumber(Affine(re, slope, intercept, Decimal), Affine(im, slope, intercept, Decimal))
  }

  /** The real part of the as-written result does not depend on the real part of the input: it
      is lost. Whenever the two parts differ, the result is not the intended one. */
  lemma ChpRealPartLost(re: Term, re': Term, im: Term, slope: Float, intercept: Float)
    ensures ScaleChpAsWritten(re, im, slope, intercept) == ScaleChpAsWritten(re', im, slope, intercept)
    ensures re != im ==> ScaleChpAsWritten(re, im, slope, intercept) != ScaleChp(re, im, slope, intercept)
  {
  }

  /** The corrected branch keeps the parts apart: scaling a complex value whose imaginary part is
      unchanged leaves the imaginary result unchanged, and likewise for the real part. */
  lemma ChpPartsKept(re: Term, re': Term, im: Term, im': Term, slope: Float, intercept: Float)
    ensures ScaleChp(re, im, slope, intercept).reT == ScaleChp(re, im', slope, intercept).reT
    ensures ScaleChp(re, im, slope, intercept).imT == ScaleChp(re', im, slope, intercept).imT
    ensures ScaleChp(re, im, slope, intercept) == ScaleChp(re', im', slope, intercept) <==> re == re' && im == im'
  {
  }

  /** One element after `scale` on a grid of kind k. Complex elements scale both parts; the quad
      complex branch adds the intercept to the real part only, and the BigDecimal complex branch
      is taken as written. Colours, and elements of a shape
      the fills never give their kind, stay as they are. */
  function ScaleVoxel(v: Voxel, k: Kind, slope: Float, intercept: Float): Voxel
  {
    if PlacementOf(k).Unchanged? then v
    else
      match v
      case Complex(re, im) =>
        ComplexNumber(Affine(Stored(re), slope, intercept, Double), Affine(Stored(im), slope, intercept, Double))
      case ComplexQuad(re, im) =>
        ComplexNumber(Affine(StoredQuad(re), slope, intercept, Float128), Affine(StoredQuad(im), slope, PlusZero, Float128))
      case ComplexNumber(re, im) => ScaleChpAsWritten(re, im, slope, intercept)
      case Color(_, _, _) => v
      case ColorAlpha(_, _, _, _) => v
      case _ => Number(Affine(ValueOf(v, k), slope, intercept, ArithOf(k)))
  }

  /** The cells after `scale`: the same indices, each element rescaled on its own. */
  function ScaleCells(cells: map<seq<int>, Voxel>, k: Kind, slope: Float, intercept: Float): map<seq<int>, Voxel>
  {
    map j | j in cells :: ScaleVoxel(cells[j], k, slope, intercept)
  }

  /** Whether the per-element procedure of kind k meets a `BigDecimal.valueOf` of a NaN or an
      infinity: the 64-bit integer and BigDecimal branches convert the slope and the intercept,
      the quad branches only the intercept, the others neither. */
  predicate ScaleRefuses(k: Kind, slope: Float, intercept: Float)
  {
    match ArithOf(k)
    case Decimal => !Finite(slope) || !Finite(intercept)
    case Float128 => !Finite(intercept)
    case Double => false
  }

  /** Only the branches that convert to BigDecimal can throw, and for them a finite slope and
      intercept are what is needed. */
  lemma RefusingKinds(k: Kind, slope: Float, intercept: Float)
    ensures ScaleRefuses(k, slope, intercept) ==> k in {U64, I64, Quad, CQuad, HP, CHP}
    ensures k in {U64, I64} ==> (ScaleRefuses(k, slope, intercept) <==> !Finite(slope) || !Finite(intercept))
    ensures k in {Quad, CQuad} ==> (ScaleRefuses(k, slope, intercept) <==> !Finite(intercept))
    ensures Finite(slope) && Finite(intercept) ==> !ScaleRefuses(k, slope, intercept)
  {
  }

  /** `scale(data, type, slope, intercept)`: the rescaled cells go to a new grid of the wider
      kind, or replace the grid's own cells, or the grid is returned untouched. The procedure runs
      once per element of the grid, so a refused conversion throws as soon as there is one
      element, before anything is written. */
  method Scale(g: Grid, slope: Float, intercept: Float) returns (res: Result<Grid>)
    requires NonNegative(g.dims)
    modifies g
    ensures Count(g.dims) > 0 && ScaleRefuses(old(g.kind), slope, intercept) ==>
      res == Failure(NotFinite) && unchanged(g)
    ensures !(Count(g.dims) > 0 && ScaleRefuses(old(g.kind), slope, intercept)) ==> res.Success?
    ensures res.Success? && PlacementOf(old(g.kind)).NewGrid? ==>
      var out := res.value;
      fresh(out) && out.dims == g.dims && out.kind == PlacementOf(old(g.kind)).kind &&
      out.cells == ScaleCells(old(g.cells), old(g.kind), slope, intercept) && unchanged(g)
    ensures res.Success? && PlacementOf(old(g.kind)).InPlace? ==>
      res.value == g && g.kind == old(g.kind) && g.cells == ScaleCells(old(g.cells), old(g.kind), slope, intercept)
    ensures res.Success? && PlacementOf(old(g.kind)).Unchanged? ==> res.value == g && unchanged(g)
  {
    var k := g.kind;
    if Count(g.dims) > 0 && ScaleRefuses(k, slope, intercept) {
      return Failure(NotFinite);
    }
    match PlacementOf(k)
    case NewGrid(target) =>
      var out := new Grid(g.dims, target);
      out.cells := ScaleCells(g.cells, k, slope, intercept);
      res := Success(out);
    case InPlace =>
      g.cells := ScaleCells(g.cells, k, slope, intercept);
      res := Success(g);
    case Unchanged =>
      res := Success(g);
  }

  /** A new grid is made exactly for the bit kind, the integer kinds, binary32 and binary32
      complex; the grid it makes is of a kind that `scale` itself would rescale in place, so a
      second rescale makes no further grid; only the colour kinds are left alone. */
  lemma PlacementWidens(k: Kind)
    ensures PlacementOf(k).NewGrid? <==> k in {U1, U8, I8, U16, I16, U32, I32, Float32, U64, I64, CF32}
    ensures PlacementOf(k).NewGrid? ==> PlacementOf(PlacementOf(k).kind).InPlace?
    ensures PlacementOf(k).Unchanged? <==> k == Rgb || k == Argb
  {
  }

  /** Every value an element of a small integer kind holds lies within 2^53 of zero, so the
      binary64 grid the rescale makes represents each of them exactly before scaling; a 64-bit
      element can lie beyond, which is why those go to BigDecimal. */
  lemma SmallIntegersExact(v: Voxel, k: Kind)
    requires PlacementOf(k) == NewGrid(Float64) && k != Float32 && Shaped(v, k)
    ensures Scalar(v) && ValueOf(v, k).Exact?
    ensures -0x20_0000_0000_0000 <= ValueOf(v, k).i <= 0x20_0000_0000_0000
  {
  }

  lemma WideIntegerBeyondDouble()
    ensures ValueOf(Long(0xFFFF_FFFF_FFFF_FFFF), U64) == Exact(0xFFFF_FFFF_FFFF_FFFF)
    ensures ValueOf(Long(0xFFFF_FFFF_FFFF_FFFF), U64).i > 0x20_0000_0000_0000
  {
  }

  /** The value an integer element holds lies in the range of its Java type: signed kinds read
      two's complement, unsigned kinds read the bits as they are. */
  lemma IntegerRanges(v: Voxel, k: Kind)
    requires Shaped(v, k) && k in {U1, U8, I8, U16, I16, U32, I32, U64, I64}
    ensures Scalar(v) && ValueOf(v, k).Exact?
    ensures k == U1 ==> 0 <= ValueOf(v, k).i <= 1
    ensures k == U8 ==> 0 <= ValueOf(v, k).i < 0x100
    ensures k == I8 ==> -0x80 <= ValueOf(v, k).i < 0x80
    ensures k == U16 ==> 0 <= ValueOf(v, k).i < 0x1_0000
    ensures k == I16 ==> -0x8000 <= ValueOf(v, k).i < 0x8000
    ensures k == U32 ==> 0 <= ValueOf(v, k).i < 0x1_0000_0000
    ensures k == I32 ==> -0x8000_0000 <= ValueOf(v, k).i < 0x8000_0000
    ensures k == U64 ==> 0 <= ValueOf(v, k).i < 0x1_0000_0000_0000_0000
    ensures k == I64 ==> -0x8000_0000_0000_0000 <= ValueOf(v, k).i < 0x8000_0000_0000_0000
  {
  }

  /** The binary32 and binary64 complex branches add the intercept to both parts; the quad
      complex branch adds it to the real part only. */
  lemma ComplexIntercepts(re: Float, im: Float, qre: seq<bv8>, qim: seq<bv8>, slope: Float, intercept: Float)
    ensures ScaleVoxel(Complex(re, im), CF32, slope, intercept).imT.intercept == intercept
    ensures ScaleVoxel(Complex(re, im), CF64, slope, intercept).imT.intercept == intercept
    ensures ScaleVoxel(ComplexQuad(qre, qim), CQuad, slope, intercept).reT.intercept == intercept
    ensures ScaleVoxel(ComplexQuad(qre, qim), CQuad, slope, intercept).imT.intercept == PlusZero
  {
  }

  /** Rescaling the cells one update at a time agrees with rescaling them afterwards: `scale`
      acts on each element on its own, whatever order the fill wrote them in. */
  lemma ScaleCellsUpdate(cells: map<seq<int>, Voxel>, j: seq<int>, v: Voxel, k: Kind, slope: Float, intercept: Float)
    ensures ScaleCells(cells[j := v], k, slope, intercept) ==
      ScaleCells(cells, k, slope, intercept)[j := ScaleVoxel(v, k, slope, intercept)]
  {
    var a := ScaleCells(cells[j := v], k, slope, intercept);
    var b := ScaleCells(cells, k, slope, intercept)[j := ScaleVoxel(v, k, slope, intercept)];
    assert a.Keys == b.Keys;
    forall i | i in a
      ensures a[i] == b[i]
    {
    }
  }

  /** Colour grids keep every element. */
  lemma ColoursKept(cells: map<seq<int>, Voxel>, k: Kind, slope: Float, intercept: Float)
    requires k == Rgb || k == Argb
    ensures ScaleCells(cells, k, slope, intercept) == cells
  {
  }
}
