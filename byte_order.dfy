/** Java's fixed-width integers as bit-vectors, DataInputStream's big-endian assembly of bytes,
    and the three byte-reversal helpers of the decoder (swapShort, swapInt, swapLong). */
module ByteOrder {

  /** The bytes of a value, most significant first (the order DataInputStream reads them). */
  function Bytes16(x: bv16): (r: seq<bv8>)
  {
    [(x >> 8) as bv8, (x & 0xff) as bv8]
  }

  function Bytes32(x: bv32): (r: seq<bv8>)
  {
    [(x >> 24) as bv8, ((x >> 16) & 0xff) as bv8, ((x >> 8) & 0xff) as bv8, (x & 0xff) as bv8]
  }

  /** The high and the low 32-bit word of a 64-bit value. */
  function High(x: bv64): bv32
  {
    (x >> 32) as bv32
  }

  function Low(x: bv64): bv32
  {
    (x & 0xffff_ffff) as bv32
  }

  /** The two words of a long joined back together. */
  function Join(h: bv32, l: bv32): (r: bv64)
    ensures High(r) == h && Low(r) == l
  {
    (h as bv64 << 32) | l as bv64
  }

  lemma JoinHighLow(x: bv64)
    ensures Join(High(x), Low(x)) == x
  {
  }

  function Bytes64(x: bv64): (r: seq<bv8>)
  {
    Bytes32(High(x)) + Bytes32(Low(x))
  }

  /** Big-endian assembly of a 16-, 32- and 64-bit value, as readShort/readInt/readLong of
      DataInputStream do it. */
  function Be16(b: seq<bv8>): bv16
    requires |b| == 2
  {
    (b[0] as bv16 << 8) | b[1] as bv16
  }

  function Be32(b: seq<bv8>): bv32
    requires |b| == 4
  {
    (b[0] as bv32 << 24) | (b[1] as bv32 << 16) | (b[2] as bv32 << 8) | b[3] as bv32
  }

  function Be64(b: seq<bv8>): bv64
    requires |b| == 8
  {
    Join(Be32(b[..4]), Be32(b[4..]))
  }

  /** Assembling bytes big-endian and splitting the value again gives back the bytes. */
  lemma Be16Bytes(b: seq<bv8>)
    requires |b| == 2
    ensures Bytes16(Be16(b)) == b
  {
  }

  lemma Be32Bytes(b: seq<bv8>)
    requires |b| == 4
    ensures Bytes32(Be32(b)) == b
  {
  }

  lemma Be64Bytes(b: seq<bv8>)
    requires |b| == 8
    ensures Bytes64(Be64(b)) == b
  {
    Be32Bytes(b[..4]);
    Be32Bytes(b[4..]);
  }

  /** A sequence with its elements in the opposite order. */
  function Reverse<T>(s: seq<T>): (r: seq<T>)
    ensures |r| == |s|
    ensures forall k :: 0 <= k < |s| ==> r[k] == s[|s| - 1 - k]
  {
    seq(|s|, k requires 0 <= k < |s| => s[|s| - 1 - k])
  }

  /** swapShort: the low byte moves up, the high byte moves down. */
  function SwapShort(x: bv16): bv16
  {
    var b0 := x & 0xff;
    var b1 := (x >> 8) & 0xff;
    (b0 << 8) | b1
  }

  /** swapInt: the four bytes in the opposite order. */
  function SwapInt(x: bv32): bv32
  {
    var b0 := x & 0xff;
    var b1 := (x >> 8) & 0xff;
    var b2 := (x >> 16) & 0xff;
    var b3 := (x >> 24) & 0xff;
    (b0 << 24) | (b1 << 16) | (b2 << 8) | b3
  }

  /** swapLong: the eight bytes in the opposite order. */
  function SwapLong(x: bv64): (r: bv64)
  {
    var b0 := x & 0xff;
    var b1 := (x >> 8) & 0xff;
    var b2 := (x >> 16) & 0xff;
    var b3 := (x >> 24) & 0xff;
    var b4 := (x >> 32) & 0xff;
    var b5 := (x >> 40) & 0xff;
    var b6 := (x >> 48) & 0xff;
    var b7 := (x >> 56) & 0xff;
    (b0 << 56) | (b1 << 48) | (b2 << 40) | (b3 << 32) | (b4 << 24) | (b5 << 16) | (b6 << 8) | b7
  }

  /** swapShort and swapInt put byte k of their argument at the mirrored position. */
  lemma SwapShortBytes(x: bv16)
    ensures Bytes16(SwapShort(x)) == Reverse(Bytes16(x))
  {
  }

  lemma SwapIntBytes(x: bv32)
    ensures Bytes32(SwapInt(x)) == Reverse(Bytes32(x))
  {
  }

  /** swapLong swaps the two words and reverses the bytes of each. */
  lemma SwapLongWords(x: bv64)
    ensures SwapLong(x) == Join(SwapInt(Low(x)), SwapInt(High(x)))
  {
  }

  lemma ReverseConcat<T>(a: seq<T>, b: seq<T>)
    ensures Reverse(a + b) == Reverse(b) + Reverse(a)
  {
  }

  /** swapLong puts byte k of its argument at position 7 - k. */
  lemma SwapLongBytes(x: bv64)
    ensures Bytes64(SwapLong(x)) == Reverse(Bytes64(x))
  {
    SwapLongWords(x);
    SwapIntBytes(Low(x));
    SwapIntBytes(High(x));
    ReverseConcat(Bytes32(High(x)), Bytes32(Low(x)));
  }

  /** Each swap undoes itself. */
  lemma SwapShortInvolution(x: bv16)
    ensures SwapShort(SwapShort(x)) == x
  {
  }

  lemma SwapIntInvolution(x: bv32)
    ensures SwapInt(SwapInt(x)) == x
  {
  }

  lemma SwapLongInvolution(x: bv64)
    ensures SwapLong(SwapLong(x)) == x
  {
  }

  /** Two's-complement readings of the bit patterns, as Java's short, int and long see them. */
  function Signed16(x: bv16): (r: int)
    ensures -0x8000 <= r < 0x8000
    ensures x < 0x8000 <==> r >= 0
  {
    if x < 0x8000 then x as int else x as int - 0x1_0000
  }

  function Signed32(x: bv32): (r: int)
    ensures x < 0x8000_0000 <==> r >= 0
  {
    if x < 0x8000_0000 then x as int else x as int - 0x1_0000_0000
  }

  function Signed64(x: bv64): (r: int)
    ensures x < 0x8000_0000_0000_0000 <==> r >= 0
  {
    if x < 0x8000_0000_0000_0000 then x as int else x as int - 0x1_0000_0000_0000_0000
  }
}
