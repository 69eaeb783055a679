/** The voxel-type dispatch of Nifti.java: `value` (type code to element kind) and `readValue`
    (one element from the stream), plus the byte layout each element kind has in the file. */
module Voxels {
  import opened Outcomes
  import opened ByteOrder
  import opened Floats
  import opened Stream

  /** Element kinds: the sixteen NIfTI voxel types, the packed bit type, and the two
      high-precision kinds that only a rescale produces. */
  datatype Kind =
    | U1 | U8 | I16 | I32 | Float32 | CF32 | Float64 | Rgb | I8 | U16 | U32 | I64 | U64
    | Quad | CF64 | CQuad | Argb | HP | CHP

  /** Kinds that `value` and `readValue` handle: those with a type code other than 1. */
  predicate Dispatched(k: Kind)
  {
    !(k.U1? || k.HP? || k.CHP?)
  }

  /** The NIfTI type code of each kind stored in files. */
  function Code(k: Kind): int
    requires !k.HP? && !k.CHP?
  {
    match k
    case U1 => 1
    case U8 => 2
    case I16 => 4
    case I32 => 8
    case Float32 => 16
    case CF32 => 32
    case Float64 => 64
    case Rgb => 128
    case I8 => 256
    case U16 => 512
    case U32 => 768
    case I64 => 1024
    case U64 => 1280
    case Quad => 1536
    case CF64 => 1792
    case CQuad => 2048
    case Argb => 2304
  }

  const Codes: set<int> := {2, 4, 8, 16, 32, 64, 128, 256, 512, 768, 1024, 1280, 1536, 1792, 2048, 2304}

  /** value(data_type): code 1 is refused (the bit type has its own fill loop), so are unknown codes. */
  function KindOf(code: int): (r: Result<Kind>)
    ensures r.Success? <==> code in Codes
    ensures r.Success? ==> Dispatched(r.value) && Code(r.value) == code
    ensures code == 1 ==> r == Failure(BitTypeNotHere)
    ensures code != 1 && code !in Codes ==> r == Failure(UnknownVoxelType(code))
  {
    if code == 1 then Failure(BitTypeNotHere)
    else if code == 2 then Success(U8)
    else if code == 4 then Success(I16)
    else if code == 8 then Success(I32)
    else if code == 16 then Success(Float32)
    else if code == 32 then Success(CF32)
    else if code == 64 then Success(Float64)
    else if code == 128 then Success(Rgb)
    else if code == 256 then Success(I8)
    else if code == 512 then Success(U16)
    else if code == 768 then Success(U32)
    else if code == 1024 then Success(I64)
    else if code == 1280 then Success(U64)
    else if code == 1536 then Success(Quad)
    else if code == 1792 then Success(CF64)
    else if code == 2048 then Success(CQuad)
    else if code == 2304 then Success(Argb)
    else Failure(UnknownVoxelType(code))
  }

  /** The dispatch table is a bijection between the sixteen codes and the dispatched kinds. */
  lemma KindOfCode(k: Kind)
    requires Dispatched(k)
    ensures KindOf(Code(k)) == Success(k)
  {
  }

  /** Bytes one element of each kind occupies in the file. */
  function Width(k: Kind): (w: nat)
    requires Dispatched(k)
    ensures w in {1, 2, 3, 4, 8, 16, 32}
  {
    match k
    case U8 | I8 => 1
    case I16 | U16 => 2
    case Rgb => 3
    case I32 | U32 | Float32 | Argb => 4
    case CF32 | Float64 | I64 | U64 => 8
    case Quad | CF64 => 16
    case CQuad => 32
  }

  /** One decoded element, kept as the bits read from the file (after any byte swap). */
  datatype Voxel =
    | Bit(on: bool)
    | Byte(b: bv8)
    | Short(s: bv16)
    | Int(i: bv32)
    | Long(l: bv64)
    | Real(f: Float)
    | Complex(re: Float, im: Float)
    | Color(r: bv8, g: bv8, b: bv8)
    | ColorAlpha(r: bv8, g: bv8, b: bv8, a: bv8)
    | Quad128(bits: seq<bv8>)
    | ComplexQuad(reBits: seq<bv8>, imBits: seq<bv8>)
    | Number(t: Term)                      // an element a rescale computed
    | ComplexNumber(reT: Term, imT: Term)

  /** The arithmetic a rescale computes in: Java double, BigDecimal, or zorbage's Float128. */
  datatype Arith = Double | Decimal | Float128

  /** A number as a rescale computes it. Floating-point and decimal arithmetic are not evaluated:
      a computed value is recorded as the expression it came from. */
  datatype Term =
    | Exact(i: int)                        // an integer element's value, exactly
    | Stored(f: Float)                     // a binary32 or binary64 element's value
    | StoredQuad(q: seq<bv8>)              // a binary128 element's value, as its 16 bytes
    | Affine(x: Term, slope: Float, intercept: Float, arith: Arith)   // x * slope + intercept
    | Unwritten                            // a part the computation never sets

  /** The 16 bytes handed to the quad-precision decoder: the whole group reversed when swapping. */
  function QuadAt(bs: seq<bv8>, p: nat, swap: bool): (q: seq<bv8>)
    requires p + 16 <= |bs|
    ensures |q| == 16
  {
    if swap then Reverse(bs[p..p + 16]) else bs[p..p + 16]
  }

  /** The element of kind k whose bytes start at p. Composite kinds are read field by field:
      real part then imaginary part, red, green, blue (then alpha). */
  function VoxelAt(bs: seq<bv8>, p: nat, k: Kind, swap: bool): (v: Voxel)
    requires Dispatched(k) && p + Width(k) <= |bs|
    ensures Shaped(v, k)
  {
    match k
    case U8 | I8 => Byte(bs[p])
    case I16 | U16 => Short(ShortAt(bs, p, swap))
    case I32 | U32 => Int(IntAt(bs, p, swap))
    case I64 | U64 => Long(LongAt(bs, p, swap))
    case Float32 => Real(FloatAt(bs, p, swap))
    case Float64 => Real(DoubleAt(bs, p, swap))
    case CF32 => Complex(FloatAt(bs, p, swap), FloatAt(bs, p + 4, swap))
    case CF64 => Complex(DoubleAt(bs, p, swap), DoubleAt(bs, p + 8, swap))
    case Rgb => Color(bs[p], bs[p + 1], bs[p + 2])
    case Argb => ColorAlpha(bs[p], bs[p + 1], bs[p + 2], bs[p + 3])
    case Quad => Quad128(QuadAt(bs, p, swap))
    case CQuad => ComplexQuad(QuadAt(bs, p, swap), QuadAt(bs, p + 16, swap))
  }

  /** A voxel has the shape its kind produces. */
  predicate Shaped(v: Voxel, k: Kind)
  {
    match k
    case U8 | I8 => v.Byte?
    case I16 | U16 => v.Short?
    case I32 | U32 => v.Int?
    case I64 | U64 => v.Long?
    case Float32 => v.Real? && v.f.F32?
    case Float64 => v.Real? && v.f.F64?
    case CF32 => v.Complex? && v.re.F32? && v.im.F32?
    case CF64 => v.Complex? && v.re.F64? && v.im.F64?
    case Rgb => v.Color?
    case Argb => v.ColorAlpha?
    case Quad => v.Quad128? && |v.bits| == 16
    case CQuad => v.ComplexQuad? && |v.reBits| == 16 && |v.imBits| == 16
    case U1 => v.Bit?
    case HP => v.Number?
    case CHP => v.ComplexNumber?
  }

  function Ordered(b: seq<bv8>, swap: bool): seq<bv8>
  {
    if swap then Reverse(b) else b
  }

  function FloatBytes(f: Float, swap: bool): seq<bv8>
  {
    match f
    case F32(b) => Ordered(Bytes32(b), swap)
    case F64(b) => Ordered(Bytes64(b), swap)
  }

  /** How a writer lays an element out in a file of the given byte order (swap = the file's order
      is the reverse of Java's big-endian order). */
  function Encode(v: Voxel, swap: bool): seq<bv8>
  {
    match v
    case Bit(_) => []
    case Byte(b) => [b]
    case Short(s) => Ordered(Bytes16(s), swap)
    case Int(i) => Ordered(Bytes32(i), swap)
    case Long(l) => Ordered(Bytes64(l), swap)
    case Real(f) => FloatBytes(f, swap)
    case Complex(re, im) => FloatBytes(re, swap) + FloatBytes(im, swap)
    case Color(r, g, b) => [r, g, b]
    case ColorAlpha(r, g, b, a) => [r, g, b, a]
    case Quad128(q) => Ordered(q, swap)
    case ComplexQuad(re, im) => Ordered(re, swap) + Ordered(im, swap)
    case Number(_) => []
    case ComplexNumber(_, _) => []
  }

  lemma ReverseReverse<T>(s: seq<T>)
    ensures Reverse(Reverse(s)) == s
  {
  }

  /** Decoding what a writer encoded gives the element back, in either byte order, and takes
      exactly Width(k) bytes. */
  lemma DecodeEncode(v: Voxel, k: Kind, swap: bool, rest: seq<bv8>)
    requires Dispatched(k) && Shaped(v, k)
    ensures |Encode(v, swap)| == Width(k)
    ensures VoxelAt(Encode(v, swap) + rest, 0, k, swap) == v
  {
    if v.Short? || v.Int? || v.Long? {
      IntegerRoundTrip(v, k, swap, rest);
    } else if v.Real? || v.Complex? {
      RealRoundTrip(v, k, swap, rest);
    } else if v.Quad128? || v.ComplexQuad? {
      QuadRoundTrip(v, k, swap, rest);
    }
  }

  lemma RealRoundTrip(v: Voxel, k: Kind, swap: bool, rest: seq<bv8>)
    requires Dispatched(k) && Shaped(v, k) && (v.Real? || v.Complex?)
    ensures |Encode(v, swap)| == Width(k)
    ensures VoxelAt(Encode(v, swap) + rest, 0, k, swap) == v
  {
    var bs := Encode(v, swap) + rest;
    match v
    case Real(f) =>
      assert bs[0..|FloatBytes(f, swap)|] == FloatBytes(f, swap);
      FloatRoundTrip(f, swap, bs, 0);
    case Complex(re, im) =>
      var n := |FloatBytes(re, swap)|;
      assert bs[0..n] == FloatBytes(re, swap);
      assert bs[n..n + |FloatBytes(im, swap)|] == FloatBytes(im, swap);
      FloatRoundTrip(re, swap, bs, 0);
      FloatRoundTrip(im, swap, bs, n);
  }

  lemma QuadRoundTrip(v: Voxel, k: Kind, swap: bool, rest: seq<bv8>)
    requires Dispatched(k) && Shaped(v, k) && (v.Quad128? || v.ComplexQuad?)
    ensures |Encode(v, swap)| == Width(k)
    ensures VoxelAt(Encode(v, swap) + rest, 0, k, swap) == v
  {
    var bs := Encode(v, swap) + rest;
    match v
    case Quad128(q) =>
      assert bs[0..16] == Ordered(q, swap);
      ReverseReverse(q);
    case ComplexQuad(re, im) =>
      assert bs[0..16] == Ordered(re, swap);
      assert bs[16..32] == Ordered(im, swap);
      ReverseReverse(re);
      ReverseReverse(im);
  }

  lemma IntegerRoundTrip(v: Voxel, k: Kind, swap: bool, rest: seq<bv8>)
    requires Dispatched(k) && Shaped(v, k) && (v.Short? || v.Int? || v.Long?)
    ensures |Encode(v, swap)| == Width(k)
    ensures VoxelAt(Encode(v, swap) + rest, 0, k, swap) == v
  {
    var bs := Encode(v, swap) + rest;
    match v
    case Short(s) => ShortRoundTrip(s, swap, bs);
    case Int(i) => IntRoundTrip(i, swap, bs);
    case Long(l) => LongRoundTrip(l, swap, bs);
  }

  lemma ShortRoundTrip(s: bv16, swap: bool, bs: seq<bv8>)
    requires 2 <= |bs| && bs[..2] == Ordered(Bytes16(s), swap)
    ensures ShortAt(bs, 0, swap) == s
  {
    ReverseReverse(Bytes16(s));
    ShortAtBytes(bs, 0, swap);
    Bytes16Injective(ShortAt(bs, 0, swap), s);
  }

  lemma IntRoundTrip(i: bv32, swap: bool, bs: seq<bv8>)
    requires 4 <= |bs| && bs[..4] == Ordered(Bytes32(i), swap)
    ensures IntAt(bs, 0, swap) == i
  {
    ReverseReverse(Bytes32(i));
    IntAtBytes(bs, 0, swap);
    Bytes32Injective(IntAt(bs, 0, swap), i);
  }

  lemma LongRoundTrip(l: bv64, swap: bool, bs: seq<bv8>)
    requires 8 <= |bs| && bs[..8] == Ordered(Bytes64(l), swap)
    ensures LongAt(bs, 0, swap) == l
  {
    ReverseReverse(Bytes64(l));
    LongAtBytes(bs, 0, swap);
    Bytes64Injective(LongAt(bs, 0, swap), l);
  }

  lemma FloatRoundTrip(f: Float, swap: bool, bs: seq<bv8>, p: nat)
    requires p + |FloatBytes(f, swap)| <= |bs|
    requires bs[p..p + |FloatBytes(f, swap)|] == FloatBytes(f, swap)
    ensures f.F32? ==> |FloatBytes(f, swap)| == 4 && FloatAt(bs, p, swap) == f
    ensures f.F64? ==> |FloatBytes(f, swap)| == 8 && DoubleAt(bs, p, swap) == f
  {
    match f
    case F32(b) =>
      ReverseReverse(Bytes32(b));
      IntAtBytes(bs, p, swap);
      Bytes32Injective(IntAt(bs, p, swap), b);
    case F64(b) =>
      ReverseReverse(Bytes64(b));
      LongAtBytes(bs, p, swap);
      Bytes64Injective(LongAt(bs, p, swap), b);
  }

  /** readValue: one element of kind k; the scratch buffer serves the quad-precision kinds. */
  method ReadValue(r: Reader, k: Kind, swap: bool, buf128: array<bv8>) returns (res: Result<Voxel>)
    requires Dispatched(k) && r.Valid() && buf128.Length == 16
    modifies r, buf128
    ensures r.Valid()
    ensures old(r.pos) + Width(k) <= |r.bytes| ==>
      res == Success(VoxelAt(r.bytes, old(r.pos), k, swap)) && r.pos == old(r.pos) + Width(k)
    ensures old(r.pos) + Width(k) > |r.bytes| ==> res == Failure(Truncated)
  {
    if k.U8? || k.I8? || k.I16? || k.U16? || k.I32? || k.U32? || k.I64? || k.U64? {
      res := ReadInteger(r, k, swap);
    } else if k.Float32? || k.Float64? || k.CF32? || k.CF64? {
      res := ReadReal(r, k, swap);
    } else if k.Rgb? || k.Argb? {
      res := ReadColor(r, k);
    } else {
      res := ReadQuad(r, k, swap, buf128);
    }
  }

  method ReadInteger(r: Reader, k: Kind, swap: bool) returns (res: Result<Voxel>)
    requires k.U8? || k.I8? || k.I16? || k.U16? || k.I32? || k.U32? || k.I64? || k.U64?
    requires r.Valid()
    modifies r
    ensures r.Valid()
    ensures old(r.pos) + Width(k) <= |r.bytes| ==>
      res == Success(VoxelAt(r.bytes, old(r.pos), k, swap)) && r.pos == old(r.pos) + Width(k)
    ensures old(r.pos) + Width(k) > |r.bytes| ==> res == Failure(Truncated)
  {
    if k.U8? || k.I8? {
      var b :- r.ReadByte();
      res := Success(Byte(b));
    } else if k.I16? || k.U16? {
      var s :- r.ReadShort(swap);
      res := Success(Short(s));
    } else if k.I32? || k.U32? {
      var i :- r.ReadInt(swap);
      res := Success(Int(i));
    } else {
      var l :- r.ReadLong(swap);
      res := Success(Long(l));
    }
  }

  method ReadReal(r: Reader, k: Kind, swap: bool) returns (res: Result<Voxel>)
    requires k.Float32? || k.Float64? || k.CF32? || k.CF64?
    requires r.Valid()
    modifies r
    ensures r.Valid()
    ensures old(r.pos) + Width(k) <= |r.bytes| ==>
      res == Success(VoxelAt(r.bytes, old(r.pos), k, swap)) && r.pos == old(r.pos) + Width(k)
    ensures old(r.pos) + Width(k) > |r.bytes| ==> res == Failure(Truncated)
  {
    if k.Float32? {
      var f :- r.ReadFloat(swap);
      res := Success(Real(f));
    } else if k.Float64? {
      var d :- r.ReadDouble(swap);
      res := Success(Real(d));
    } else if k.CF32? {
      var re :- r.ReadFloat(swap);
      var im :- r.ReadFloat(swap);
      res := Success(Complex(re, im));
    } else {
      var re :- r.ReadDouble(swap);
      var im :- r.ReadDouble(swap);
      res := Success(Complex(re, im));
    }
  }

  method ReadColor(r: Reader, k: Kind) returns (res: Result<Voxel>)
    requires k.Rgb? || k.Argb?
    requires r.Valid()
    modifies r
    ensures r.Valid()
    ensures old(r.pos) + Width(k) <= |r.bytes| ==>
      res == Success(VoxelAt(r.bytes, old(r.pos), k, false)) && r.pos == old(r.pos) + Width(k)
    ensures old(r.pos) + Width(k) > |r.bytes| ==> res == Failure(Truncated)
  {
    var red :- r.ReadByte();
    var green :- r.ReadByte();
    var blue :- r.ReadByte();
    if k.Rgb? {
      res := Success(Color(red, green, blue));
    } else {
      var alpha :- r.ReadByte();
      res := Success(ColorAlpha(red, green, blue, alpha));
    }
  }

  method ReadQuad(r: Reader, k: Kind, swap: bool, buf128: array<bv8>) returns (res: Result<Voxel>)
    requires k.Quad? || k.CQuad?
    requires r.Valid() && buf128.Length == 16
    modifies r, buf128
    ensures r.Valid()
    ensures old(r.pos) + Width(k) <= |r.bytes| ==>
      res == Success(VoxelAt(r.bytes, old(r.pos), k, swap)) && r.pos == old(r.pos) + Width(k)
    ensures old(r.pos) + Width(k) > |r.bytes| ==> res == Failure(Truncated)
  {
    var re :- r.ReadFloat128(swap, buf128);
    if k.Quad? {
      res := Success(Quad128(re));
    } else {
      var im :- r.ReadFloat128(swap, buf128);
      res := Success(ComplexQuad(re, im));
    }
  }
}
