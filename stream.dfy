/** The byte stream the decoder reads: a cursor over a byte sequence. It stands for the
    DataInputStream of Nifti.open together with the private read helpers of Nifti.java
    (readByte, readShort, readInt, readLong, readFloat, readDouble, readString, readFloat128). */
module Stream {
  import opened Outcomes
  import opened ByteOrder
  import opened Floats

  /** Where skipping n bytes from offset p of a stream of the given length ends: nowhere when n
      is not positive, past the end of the stream when too few bytes are left. */
  function Skip(p: nat, n: int, length: nat): (r: Result<nat>)
    requires p <= length
    ensures r.Success? ==> p <= r.value <= length
    ensures r.Success? <==> n <= 0 || p + n <= length
  {
    if n <= 0 then Success(p)
    else if p + n > length then Failure(Truncated)
    else Success(p + n)
  }

  /** The value of the two bytes at p, in file order or reversed when swapping. */
  function ShortAt(bs: seq<bv8>, p: nat, swap: bool): bv16
    requires p + 2 <= |bs|
  {
    var v := Be16(bs[p..p + 2]);
    if swap then SwapShort(v) else v
  }

  function IntAt(bs: seq<bv8>, p: nat, swap: bool): bv32
    requires p + 4 <= |bs|
  {
    var v := Be32(bs[p..p + 4]);
    if swap then SwapInt(v) else v
  }

  function LongAt(bs: seq<bv8>, p: nat, swap: bool): bv64
    requires p + 8 <= |bs|
  {
    var v := Be64(bs[p..p + 8]);
    if swap then SwapLong(v) else v
  }

  /** The value read has the file's bytes as its big-endian bytes, or those bytes reversed
      when swapping. */
  lemma ShortAtBytes(bs: seq<bv8>, p: nat, swap: bool)
    requires p + 2 <= |bs|
    ensures Bytes16(ShortAt(bs, p, swap)) == if swap then Reverse(bs[p..p + 2]) else bs[p..p + 2]
  {
    Be16Bytes(bs[p..p + 2]);
    SwapShortBytes(Be16(bs[p..p + 2]));
  }

  lemma IntAtBytes(bs: seq<bv8>, p: nat, swap: bool)
    requires p + 4 <= |bs|
    ensures Bytes32(IntAt(bs, p, swap)) == if swap then Reverse(bs[p..p + 4]) else bs[p..p + 4]
  {
    Be32Bytes(bs[p..p + 4]);
    SwapIntBytes(Be32(bs[p..p + 4]));
  }

  lemma LongAtBytes(bs: seq<bv8>, p: nat, swap: bool)
    requires p + 8 <= |bs|
    ensures Bytes64(LongAt(bs, p, swap)) == if swap then Reverse(bs[p..p + 8]) else bs[p..p + 8]
  {
    Be64Bytes(bs[p..p + 8]);
    SwapLongBytes(Be64(bs[p..p + 8]));
  }

  /** readFloat / readDouble: the (possibly swapped) bits reinterpreted. */
  function FloatAt(bs: seq<bv8>, p: nat, swap: bool): Float
    requires p + 4 <= |bs|
  {
    F32(IntAt(bs, p, swap))
  }

  function DoubleAt(bs: seq<bv8>, p: nat, swap: bool): Float
    requires p + 8 <= |bs|
  {
    F64(LongAt(bs, p, swap))
  }

  lemma Bytes16Injective(x: bv16, y: bv16)
    requires Bytes16(x) == Bytes16(y)
    ensures x == y
  {
  }

  lemma Bytes32Injective(x: bv32, y: bv32)
    requires Bytes32(x) == Bytes32(y)
    ensures x == y
  {
  }

  lemma Bytes64Injective(x: bv64, y: bv64)
    requires Bytes64(x) == Bytes64(y)
    ensures x == y
  {
    assert Bytes32(High(x)) == Bytes64(x)[..4];
    assert Bytes32(High(y)) == Bytes64(y)[..4];
    assert Bytes32(Low(x)) == Bytes64(x)[4..];
    assert Bytes32(Low(y)) == Bytes64(y)[4..];
    Bytes32Injective(High(x), High(y));
    Bytes32Injective(Low(x), Low(y));
    JoinHighLow(x);
    JoinHighLow(y);
  }

  /** Byte-order invariance: a value written in the opposite byte order and read with the swap
      flag set is the value written in file order and read without it. */
  lemma SwappedShortAgrees(bs: seq<bv8>, p: nat)
    requires p + 2 <= |bs|
    ensures ShortAt(bs, p, true) == ShortAt(Reverse(bs[p..p + 2]), 0, false)
  {
    var r := Reverse(bs[p..p + 2]);
    assert r[0..2] == r;
    ShortAtBytes(bs, p, true);
    ShortAtBytes(r, 0, false);
    Bytes16Injective(ShortAt(bs, p, true), ShortAt(r, 0, false));
  }

  lemma SwappedIntAgrees(bs: seq<bv8>, p: nat)
    requires p + 4 <= |bs|
    ensures IntAt(bs, p, true) == IntAt(Reverse(bs[p..p + 4]), 0, false)
  {
    var r := Reverse(bs[p..p + 4]);
    assert r[0..4] == r;
    IntAtBytes(bs, p, true);
    IntAtBytes(r, 0, false);
    Bytes32Injective(IntAt(bs, p, true), IntAt(r, 0, false));
  }

  lemma SwappedLongAgrees(bs: seq<bv8>, p: nat)
    requires p + 8 <= |bs|
    ensures LongAt(bs, p, true) == LongAt(Reverse(bs[p..p + 8]), 0, false)
  {
    var r := Reverse(bs[p..p + 8]);
    assert r[0..8] == r;
    LongAtBytes(bs, p, true);
    LongAtBytes(r, 0, false);
    Bytes64Injective(LongAt(bs, p, true), LongAt(r, 0, false));
  }

  /** Java's `(char) b` for a signed byte b: the byte is sign-extended, so 0x80..0xFF become
      U+FF80..U+FFFF. */
  function ByteChar(b: bv8): (c: char)
    ensures c == 0 as char <==> b == 0
  {
    if b < 0x80 then (b as int) as char else (0xff00 + b as int) as char
  }

  /** The text of a fixed-width field: the characters of the bytes before the first zero byte,
      all of them when there is none. */
  function CString(bs: seq<bv8>): (s: string)
    ensures |s| <= |bs|
  {
    if bs == [] || bs[0] == 0 then [] else [ByteChar(bs[0])] + CString(bs[1..])
  }

  /** The text is the characters of a zero-free prefix of the field, ended by the field's end or
      by a zero byte. */
  lemma {:induction false} CStringShape(bs: seq<bv8>)
    ensures |CString(bs)| <= |bs|
    ensures forall k :: 0 <= k < |CString(bs)| ==>
      bs[k] != 0 && CString(bs)[k] == ByteChar(bs[k]) && CString(bs)[k] != 0 as char
    ensures |CString(bs)| < |bs| ==> bs[|CString(bs)|] == 0
  {
    if bs != [] && bs[0] != 0 {
      CStringShape(bs[1..]);
    }
  }

  /** One more byte: once a zero has been seen nothing is added. */
  lemma {:induction false} CStringSnoc(bs: seq<bv8>, b: bv8)
    ensures CString(bs + [b]) ==
      if |CString(bs)| < |bs| then CString(bs)
      else if b == 0 then CString(bs)
      else CString(bs) + [ByteChar(b)]
  {
    if bs == [] {
      assert bs + [b] == [b];
    } else if bs[0] == 0 {
    } else {
      assert (bs + [b])[1..] == bs[1..] + [b];
      CStringSnoc(bs[1..], b);
    }
  }

  /** The step of readString's loop: the `done` flag records that a zero byte has been seen. */
  lemma CStringStep(seen: seq<bv8>, b: bv8, str: string, done: bool)
    requires str == CString(seen) && (done <==> |str| < |seen|)
    ensures var done' := done || b == 0;
      (if done' then str else str + [ByteChar(b)]) == CString(seen + [b]) &&
      (done' <==> |if done' then str else str + [ByteChar(b)]| < |seen| + 1)
  {
    CStringShape(seen);
    CStringSnoc(seen, b);
  }

  /** A string padded with zero bytes to its field width reads back as itself. */
  lemma {:induction false} CStringOfPadded(text: seq<bv8>, pad: seq<bv8>)
    requires forall k :: 0 <= k < |text| ==> text[k] != 0
    requires pad == [] || pad[0] == 0
    ensures CString(text + pad) == seq(|text|, k requires 0 <= k < |text| => ByteChar(text[k]))
  {
    if text != [] {
      assert (text + pad)[1..] == text[1..] + pad;
      CStringOfPadded(text[1..], pad);
    } else {
      assert text + pad == pad;
    }
  }

  class Reader {
    const bytes: seq<bv8>
    var pos: nat

    /** The cursor never passes the end of the bytes. */
    ghost predicate Valid()
      reads this
    {
      pos <= |bytes|
    }

    constructor (bs: seq<bv8>)
      ensures Valid() && bytes == bs && pos == 0
    {
      bytes := bs;
      pos := 0;
    }

    method ReadByte() returns (r: Result<bv8>)
      requires Valid()
      modifies this
      ensures Valid()
      ensures old(pos) < |bytes| ==> r == Success(bytes[old(pos)]) && pos == old(pos) + 1
      ensures old(pos) >= |bytes| ==> r == Failure(Truncated) && pos == old(pos)
    {
      if pos < |bytes| {
        r := Success(bytes[pos]);
        pos := pos + 1;
      } else {
        r := Failure(Truncated);
      }
    }

    method ReadShort(swap: bool) returns (r: Result<bv16>)
      requires Valid()
      modifies this
      ensures Valid()
      ensures old(pos) + 2 <= |bytes| ==> r == Success(ShortAt(bytes, old(pos), swap)) && pos == old(pos) + 2
      ensures old(pos) + 2 > |bytes| ==> r == Failure(Truncated) && pos == old(pos)
    {
      if pos + 2 <= |bytes| {
        var v := Be16(bytes[pos..pos + 2]);
        if swap {
          v := SwapShort(v);
        }
        r := Success(v);
        pos := pos + 2;
      } else {
        r := Failure(Truncated);
      }
    }

    method ReadInt(swap: bool) returns (r: Result<bv32>)
      requires Valid()
      modifies this
      ensures Valid()
      ensures old(pos) + 4 <= |bytes| ==> r == Success(IntAt(bytes, old(pos), swap)) && pos == old(pos) + 4
      ensures old(pos) + 4 > |bytes| ==> r == Failure(Truncated) && pos == old(pos)
    {
      if pos + 4 <= |bytes| {
        var v := Be32(bytes[pos..pos + 4]);
        if swap {
          v := SwapInt(v);
        }
        r := Success(v);
        pos := pos + 4;
      } else {
        r := Failure(Truncated);
      }
    }

    method ReadLong(swap: bool) returns (r: Result<bv64>)
      requires Valid()
      modifies this
      ensures Valid()
      ensures old(pos) + 8 <= |bytes| ==> r == Success(LongAt(bytes, old(pos), swap)) && pos == old(pos) + 8
      ensures old(pos) + 8 > |bytes| ==> r == Failure(Truncated) && pos == old(pos)
    {
      if pos + 8 <= |bytes| {
        var v := Be64(bytes[pos..pos + 8]);
        if swap {
          v := SwapLong(v);
        }
        r := Success(v);
        pos := pos + 8;
      } else {
        r := Failure(Truncated);
      }
    }

    method ReadFloat(swap: bool) returns (r: Result<Float>)
      requires Valid()
      modifies this
      ensures Valid()
      ensures old(pos) + 4 <= |bytes| ==> r == Success(FloatAt(bytes, old(pos), swap)) && pos == old(pos) + 4
      ensures old(pos) + 4 > |bytes| ==> r == Failure(Truncated) && pos == old(pos)
    {
      var b :- ReadInt(swap);
      r := Success(F32(b));
    }

    method ReadDouble(swap: bool) returns (r: Result<Float>)
      requires Valid()
      modifies this
      ensures Valid()
      ensures old(pos) + 8 <= |bytes| ==> r == Success(DoubleAt(bytes, old(pos), swap)) && pos == old(pos) + 8
      ensures old(pos) + 8 > |bytes| ==> r == Failure(Truncated) && pos == old(pos)
    {
      var b :- ReadLong(swap);
      r := Success(F64(b));
    }

    /** The `for (i = 0; i < n; i++) readByte(...)` loops of open: n bytes read and dropped,
        none when n is not positive. */
    method Discard(n: int) returns (r: Result<()>)
      requires Valid()
      modifies this
      ensures Valid()
      ensures n <= 0 ==> r == Success(()) && pos == old(pos)
      ensures 0 < n && old(pos) + n <= |bytes| ==> r == Success(()) && pos == old(pos) + n
      ensures 0 < n && old(pos) + n > |bytes| ==> r == Failure(Truncated)
      ensures Skip(old(pos), n, |bytes|) == if r.Success? then Success(pos) else Failure(Truncated)
    {
      var i := 0;
      while i < n
        invariant 0 <= i <= if n > 0 then n else 0
        invariant pos == old(pos) + i <= |bytes|
      {
        var _ :- ReadByte();
        i := i + 1;
      }
      r := Success(());
    }

    /** readString: always consumes maxChars bytes; keeps those before the first zero byte. */
    method ReadString(maxChars: nat) returns (r: Result<string>)
      requires Valid()
      modifies this
      ensures Valid()
      ensures old(pos) + maxChars <= |bytes| ==>
        r == Success(CString(bytes[old(pos)..old(pos) + maxChars])) && pos == old(pos) + maxChars
      ensures old(pos) + maxChars > |bytes| ==> r == Failure(Truncated)
    {
      var str: string := [];
      var done := false;
      ghost var seen: seq<bv8> := [];
      for i := 0 to maxChars
        invariant pos == old(pos) + i <= |bytes|
        invariant seen == bytes[old(pos)..pos]
        invariant str == CString(seen)
        invariant done <==> |str| < i
      {
        var b :- ReadByte();
        var ch := ByteChar(b);
        CStringStep(seen, b, str, done);
        seen := seen + [b];
        if ch == 0 as char {
          done := true;
        }
        if !done {
          str := str + [ch];
        }
      }
      r := Success(str);
    }

    /** readFloat128: the 16 bytes of a binary128 value into `buffer`, filled from the last slot
        down when swapping, so that the whole group is reversed. The filled buffer is returned:
        its decoding into a number happens in a library call outside this model. */
    method ReadFloat128(swap: bool, buffer: array<bv8>) returns (r: Result<seq<bv8>>)
      requires Valid()
      modifies this, buffer
      ensures Valid()
      ensures buffer.Length != 16 ==> r == Failure(BadBufferSize)
      ensures buffer.Length == 16 && old(pos) + 16 <= |bytes| ==>
        pos == old(pos) + 16 &&
        r == Success(buffer[..]) &&
        buffer[..] == if swap then Reverse(bytes[old(pos)..old(pos) + 16]) else bytes[old(pos)..old(pos) + 16]
      ensures buffer.Length == 16 && old(pos) + 16 > |bytes| ==> r == Failure(Truncated)
    {
      if buffer.Length != 16 {
        return Failure(BadBufferSize);
      }
      if swap {
        var i := 15;
        while i >= 0
          invariant -1 <= i <= 15
          invariant pos == old(pos) + (15 - i) <= |bytes|
          invariant forall k :: i < k < 16 ==> buffer[k] == bytes[old(pos) + 15 - k]
        {
          var b :- ReadByte();
          buffer[i] := b;
          i := i - 1;
        }
      } else {
        var i := 0;
        while i < 16
          invariant 0 <= i <= 16
          invariant pos == old(pos) + i <= |bytes|
          invariant forall k :: 0 <= k < i ==> buffer[k] == bytes[old(pos) + k]
        {
          var b :- ReadByte();
          buffer[i] := b;
          i := i + 1;
        }
      }
      r := Success(buffer[..]);
    }
  }
}
