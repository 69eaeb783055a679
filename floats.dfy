/** Header floats are kept as the IEEE 754 bit patterns the decoder reads (Float.intBitsToFloat and
    Double.longBitsToDouble only reinterpret the bits). The decoder never computes with them; it only
    compares them with 0 and 1, and these comparisons are defined here on the bits. A NIfTI-1 float
    widened to double keeps its sign, zero-ness, NaN-ness and value, so both widths share one type. */
module Floats {

  datatype Float = F32(bits: bv32) | F64(bits64: bv64)

  predicate SignBit(f: Float)
  {
    match f
    case F32(b) => b >= 0x8000_0000
    case F64(b) => b >= 0x8000_0000_0000_0000
  }

  /** Exponent all ones and a nonzero fraction. */
  predicate IsNaN(f: Float)
  {
    match f
    case F32(b) => (b & 0x7f80_0000) == 0x7f80_0000 && (b & 0x007f_ffff) != 0
    case F64(b) => (b & 0x7ff0_0000_0000_0000) == 0x7ff0_0000_0000_0000 && (b & 0x000f_ffff_ffff_ffff) != 0
  }

  /** `f == 0` in Java: true for +0 and -0. */
  predicate IsZero(f: Float)
  {
    match f
    case F32(b) => (b & 0x7fff_ffff) == 0
    case F64(b) => (b & 0x7fff_ffff_ffff_ffff) == 0
  }

  /** Exponent not all ones: neither NaN nor an infinity. `BigDecimal.valueOf(double)` accepts
      exactly these and throws NumberFormatException for the rest. */
  predicate Finite(f: Float)
  {
    match f
    case F32(b) => (b & 0x7f80_0000) != 0x7f80_0000
    case F64(b) => (b & 0x7ff0_0000_0000_0000) != 0x7ff0_0000_0000_0000
  }

  /** `f == 1` in Java: the one bit pattern of 1.0. */
  predicate IsOne(f: Float)
  {
    match f
    case F32(b) => b == 0x3f80_0000
    case F64(b) => b == 0x3ff0_0000_0000_0000
  }

  /** `f < 0`: false for NaN and for -0. */
  predicate IsNegative(f: Float)
  {
    SignBit(f) && !IsNaN(f) && !IsZero(f)
  }

  /** `f > 0`: false for NaN and for +0. */
  predicate IsPositive(f: Float)
  {
    !SignBit(f) && !IsNaN(f) && !IsZero(f)
  }

  /** Every float is exactly one of: negative, zero, positive, NaN (IEEE 754 comparison is a total
      order except for NaN, which is unordered). */
  lemma Trichotomy(f: Float)
    ensures IsNegative(f) || IsZero(f) || IsPositive(f) || IsNaN(f)
    ensures !(IsNegative(f) && IsPositive(f))
    ensures IsZero(f) ==> !IsNaN(f) && !IsNegative(f) && !IsPositive(f)
    ensures IsOne(f) ==> IsPositive(f)
  {
  }

  /** NaN is never finite, zero and one always are; what is not finite is NaN or an infinity,
      and an infinity is ordered (it is negative or positive). */
  lemma FiniteCases(f: Float)
    ensures IsNaN(f) ==> !Finite(f)
    ensures IsZero(f) || IsOne(f) ==> Finite(f)
    ensures !Finite(f) && !IsNaN(f) ==> IsNegative(f) || IsPositive(f)
    ensures !Finite(F32(0x7fc0_0000)) && !Finite(F32(0x7f80_0000)) && !Finite(F64(0xfff0_0000_0000_0000))
  {
  }
}
