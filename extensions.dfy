/** The extension loop of `Nifti.open`: after the header, 4-byte sentinels are read; while the
    first sentinel byte is nonzero, an extension (esize, ecode, then esize - 8 bytes) is skipped. */
module Extensions {
  import opened Outcomes
  import opened ByteOrder
  import opened Stream

  /** Java's `esize - 8` on ints: a 32-bit subtraction, which wraps for the most negative sizes. */
  function SkipCount(esize: bv32): (n: int)
    ensures Signed32(esize) >= -0x7FFF_FFF8 ==> n == Signed32(esize) - 8
  {
    var n := Signed32(esize) - 8;
    if n < -0x8000_0000 then n + 0x1_0000_0000 else n
  }

  /** The most negative sizes wrap around: the loop then skips about two gigabytes. */
  lemma SkipCountWraps()
    ensures SkipCount(0x8000_0000) == 0x7FFF_FFF8
  {
  }

  /** Where an extension whose sentinel ends at q ends: after its size, its code and the
      size less eight further bytes (none when that count is not positive). */
  function ExtensionEnd(bs: seq<bv8>, q: nat, swap: bool): (r: Result<nat>)
    ensures r.Success? ==> q + 8 <= r.value <= |bs|
  {
    if q + 8 > |bs| then Failure(Truncated)
    else Skip(q + 8, SkipCount(IntAt(bs, q, swap)), |bs|)
  }

  /** One pass of the loop body from offset p: whether another pass follows, and where it starts. */
  function NextSentinel(bs: seq<bv8>, p: nat, swap: bool): (r: Result<(bool, nat)>)
    ensures r.Success? ==> p < r.value.1 <= |bs|
    ensures r.Success? && !r.value.0 ==> r.value.1 == p + 4 && bs[p] == 0
  {
    if p + 4 > |bs| then Failure(Truncated)
    else if bs[p] == 0 then Success((false, p + 4))
    else
      match ExtensionEnd(bs, p + 4, swap)
      case Failure(e) => Failure(e)
      case Success(q) => Success((true, q))
  }

  /** Where the stream is left once the loop ends, starting from offset p. */
  function ChainEnd(bs: seq<bv8>, p: nat, swap: bool): (r: Result<nat>)
    ensures r.Success? ==> p + 4 <= r.value <= |bs| && bs[r.value - 4] == 0
    decreases |bs| - p
  {
    match NextSentinel(bs, p, swap)
    case Failure(e) => Failure(e)
    case Success((more, q)) => if more then ChainEnd(bs, q, swap) else Success(q)
  }

  /** An extension as a writer lays it out: a sentinel whose first byte is nonzero, the code, and
      the payload; esize counts the payload and the two size and code ints. */
  datatype Extension = Extension(sentinel: seq<bv8>, size: bv32, code: bv32, payload: seq<bv8>)

  predicate WellFormed(e: Extension)
  {
    |e.sentinel| == 4 && e.sentinel[0] != 0 && SkipCount(e.size) == |e.payload|
  }

  function IntBytes(x: bv32, swap: bool): (r: seq<bv8>)
    ensures |r| == 4
  {
    if swap then Reverse(Bytes32(x)) else Bytes32(x)
  }

  function EncodeExtension(e: Extension, swap: bool): seq<bv8>
  {
    e.sentinel + IntBytes(e.size, swap) + IntBytes(e.code, swap) + e.payload
  }

  function EncodeChain(es: seq<Extension>, swap: bool): seq<bv8>
  {
    if es == [] then [] else EncodeExtension(es[0], swap) + EncodeChain(es[1..], swap)
  }

  lemma IntBytesRead(x: bv32, swap: bool, bs: seq<bv8>, p: nat)
    requires p + 4 <= |bs| && bs[p..p + 4] == IntBytes(x, swap)
    ensures IntAt(bs, p, swap) == x
  {
    IntAtBytes(bs, p, swap);
    if swap {
      assert Reverse(Reverse(Bytes32(x))) == Bytes32(x);
    }
    Bytes32Injective(IntAt(bs, p, swap), x);
  }

  lemma SliceOfSlice<T>(bs: seq<T>, p: nat, s: seq<T>, i: nat, j: nat)
    requires p + |s| <= |bs| && bs[p..p + |s|] == s && i <= j <= |s|
    ensures bs[p + i..p + j] == s[i..j]
  {
    forall k | 0 <= k < j - i
      ensures bs[p + i..p + j][k] == s[i..j][k]
    {
      assert bs[p + i + k] == bs[p..p + |s|][i + k];
    }
  }

  lemma MiddleSlice<T>(a: seq<T>, b: seq<T>, c: seq<T>)
    ensures (a + b + c)[|a|..|a| + |b|] == b
  {
    forall k | 0 <= k < |b|
      ensures (a + b + c)[|a|..|a| + |b|][k] == b[k]
    {
      assert (a + b + c)[|a| + k] == b[k];
    }
  }

  lemma ChainEndStop(bs: seq<bv8>, p: nat, swap: bool)
    requires p + 4 <= |bs| && bs[p] == 0
    ensures ChainEnd(bs, p, swap) == Success(p + 4)
  {
  }

  lemma ChainEndStep(bs: seq<bv8>, p: nat, swap: bool, q: nat)
    requires NextSentinel(bs, p, swap) == Success((true, q))
    ensures ChainEnd(bs, p, swap) == ChainEnd(bs, q, swap)
  {
  }

  /** The layout of an encoded extension. */
  lemma EncodeLayout(e: Extension, swap: bool)
    requires WellFormed(e)
    ensures |EncodeExtension(e, swap)| == 12 + |e.payload|
    ensures EncodeExtension(e, swap)[0] != 0
    ensures EncodeExtension(e, swap)[4..8] == IntBytes(e.size, swap)
    ensures SkipCount(e.size) == |e.payload|
  {
    var head := e.sentinel + IntBytes(e.size, swap);
    assert EncodeExtension(e, swap) == head + (IntBytes(e.code, swap) + e.payload);
    assert head[4..8] == IntBytes(e.size, swap);
  }

  /** What the loop looks at of a chain found at offset p: each extension's first sentinel
      byte and its size field, and the zero byte of the closing sentinel. */
  ghost predicate LaidOut(bs: seq<bv8>, p: nat, es: seq<Extension>, swap: bool)
    decreases |es|
  {
    if es == [] then p + 4 <= |bs| && bs[p] == 0
    else
      var e := es[0];
      p + 12 + |e.payload| <= |bs| && bs[p] != 0
      && SkipCount(IntAt(bs, p + 4, swap)) == |e.payload|
      && LaidOut(bs, p + 12 + |e.payload|, es[1..], swap)
  }

  /** The total length of an encoded chain. */
  function ChainLength(es: seq<Extension>): nat
  {
    if es == [] then 0 else 12 + |es[0].payload| + ChainLength(es[1..])
  }

  /** The first extension of a laid-out chain is skipped, and the rest is laid out after it. */
  lemma LaidOutHead(bs: seq<bv8>, p: nat, es: seq<Extension>, swap: bool)
    requires LaidOut(bs, p, es, swap) && es != []
    ensures NextSentinel(bs, p, swap) == Success((true, p + 12 + |es[0].payload|))
    ensures LaidOut(bs, p + 12 + |es[0].payload|, es[1..], swap)
  {
  }

  /** A chain laid out from offset p is skipped exactly: the loop stops just past the closing
      sentinel. */
  lemma {:induction false} ChainAt(bs: seq<bv8>, p: nat, es: seq<Extension>, swap: bool)
    requires LaidOut(bs, p, es, swap)
    ensures ChainEnd(bs, p, swap) == Success(p + ChainLength(es) + 4)
    decreases |es|
  {
    if es == [] {
      ChainEndStop(bs, p, swap);
    } else {
      var q := p + 12 + |es[0].payload|;
      LaidOutHead(bs, p, es, swap);
      ChainAt(bs, q, es[1..], swap);
      ChainEndStep(bs, p, swap, q);
    }
  }

  /** What the loop looks at of one encoded extension. */
  lemma EncodedHead(pre: seq<bv8>, e: Extension, after: seq<bv8>, swap: bool)
    requires WellFormed(e)
    ensures |EncodeExtension(e, swap)| == 12 + |e.payload|
    ensures (pre + EncodeExtension(e, swap) + after)[|pre|] != 0
    ensures SkipCount(IntAt(pre + EncodeExtension(e, swap) + after, |pre| + 4, swap)) == |e.payload|
  {
    var block := EncodeExtension(e, swap);
    var bs := pre + block + after;
    EncodeLayout(e, swap);
    assert bs[|pre|..|pre| + |block|] == block by {
      MiddleSlice(pre, block, after);
    }
    assert bs[|pre| + 4..|pre| + 8] == IntBytes(e.size, swap) by {
      SliceOfSlice(bs, |pre|, block, 4, 8);
    }
    IntBytesRead(e.size, swap, bs, |pre| + 4);
    assert bs[|pre|] == block[0];
  }

  lemma Regroup<T>(a: seq<T>, b: seq<T>, c: seq<T>, d: seq<T>, e: seq<T>)
    ensures a + (b + c) + d + e == a + b + (c + d + e) == (a + b) + c + d + e
  {
  }

  /** Placing one more extension in front of a laid-out chain. */
  lemma LaidOutCons(pre: seq<bv8>, e: Extension, es: seq<Extension>, tail: seq<bv8>,
                    stop: seq<bv8>, rest: seq<bv8>, swap: bool)
    requires WellFormed(e)
    requires LaidOut(pre + EncodeExtension(e, swap) + tail + stop + rest,
                     |pre + EncodeExtension(e, swap)|, es, swap)
    ensures LaidOut(pre + (EncodeExtension(e, swap) + tail) + stop + rest, |pre|, [e] + es, swap)
  {
    var block := EncodeExtension(e, swap);
    Regroup(pre, block, tail, stop, rest);
    EncodedHead(pre, e, tail + stop + rest, swap);
    assert ([e] + es)[1..] == es;
  }

  /** The encoding of a chain lays it out where it is placed. */
  lemma {:induction false} EncodedIsLaidOut(pre: seq<bv8>, es: seq<Extension>, stop: seq<bv8>,
                                            rest: seq<bv8>, swap: bool)
    requires forall k :: 0 <= k < |es| ==> WellFormed(es[k])
    requires |stop| == 4 && stop[0] == 0
    ensures |EncodeChain(es, swap)| == ChainLength(es)
    ensures LaidOut(pre + EncodeChain(es, swap) + stop + rest, |pre|, es, swap)
    decreases |es|
  {
    if es == [] {
      assert (pre + stop + rest)[|pre|] == stop[0];
    } else {
      var e := es[0];
      var block := EncodeExtension(e, swap);
      var tail := EncodeChain(es[1..], swap);
      assert LaidOut(pre + block + tail + stop + rest, |pre + block|, es[1..], swap)
          && |tail| == ChainLength(es[1..]) by {
        assert forall k :: 0 <= k < |es[1..]| ==> WellFormed(es[1..][k]);
        EncodedIsLaidOut(pre + block, es[1..], stop, rest, swap);
      }
      assert LaidOut(pre + (block + tail) + stop + rest, |pre|, [e] + es[1..], swap)
          && |block| == 12 + |e.payload| by {
        EncodeLayout(e, swap);
        LaidOutCons(pre, e, es[1..], tail, stop, rest, swap);
      }
      assert EncodeChain(es, swap) == block + tail;
      assert [e] + es[1..] == es;
    }
  }

  /** A stream holding a chain of well-formed extensions and then a sentinel starting with a
      zero byte: the loop leaves it just past that sentinel. */
  lemma ChainRoundTrip(pre: seq<bv8>, es: seq<Extension>, stop: seq<bv8>, rest: seq<bv8>, swap: bool)
    requires forall k :: 0 <= k < |es| ==> WellFormed(es[k])
    requires |stop| == 4 && stop[0] == 0
    ensures ChainEnd(pre + EncodeChain(es, swap) + stop + rest, |pre|, swap)
         == Success(|pre| + |EncodeChain(es, swap)| + 4)
  {
    EncodedIsLaidOut(pre, es, stop, rest, swap);
    ChainAt(pre + EncodeChain(es, swap) + stop + rest, |pre|, es, swap);
  }

  /** The size, the code and the rest of one extension. */
  method SkipExtension(r: Reader, swapBytes: bool) returns (res: Result<()>)
    requires r.Valid()
    modifies r
    ensures r.Valid()
    ensures res.Success? ==> ExtensionEnd(r.bytes, old(r.pos), swapBytes) == Success(r.pos)
    ensures res.Failure? ==> res == Failure(Truncated) && ExtensionEnd(r.bytes, old(r.pos), swapBytes) == Failure(Truncated)
  {
    ghost var q := r.pos;
    var esize :- r.ReadInt(swapBytes);
    var ecode :- r.ReadInt(swapBytes);
    var n := SkipCount(esize);
    res := r.Discard(n);
  }

  /** One pass of the do-while body: four sentinel bytes, then, after a nonzero first byte,
      one extension. */
  method SkipOne(r: Reader, swapBytes: bool) returns (res: Result<bool>)
    requires r.Valid()
    modifies r
    ensures r.Valid()
    ensures res.Success? ==> NextSentinel(r.bytes, old(r.pos), swapBytes) == Success((res.value, r.pos))
    ensures res.Failure? ==> res == Failure(Truncated) && NextSentinel(r.bytes, old(r.pos), swapBytes) == Failure(Truncated)
  {
    var ext0 :- r.ReadByte();
    var ext1 :- r.ReadByte();
    var ext2 :- r.ReadByte();
    var ext3 :- r.ReadByte();
    if ext0 != 0 {
      var done :- SkipExtension(r, swapBytes);
    }
    return Success(ext0 != 0);
  }

  /** The do-while loop of `open`: sentinels and extensions until a sentinel's first byte is 0. */
  method SkipExtensions(r: Reader, swapBytes: bool) returns (res: Result<()>)
    requires r.Valid()
    modifies r
    ensures r.Valid()
    ensures res.Success? ==> ChainEnd(r.bytes, old(r.pos), swapBytes) == Success(r.pos)
    ensures res.Failure? ==> res == Failure(Truncated) && ChainEnd(r.bytes, old(r.pos), swapBytes) == Failure(Truncated)
  {
    var more := true;
    while more
      invariant r.Valid()
      invariant more ==> ChainEnd(r.bytes, old(r.pos), swapBytes) == ChainEnd(r.bytes, r.pos, swapBytes)
      invariant !more ==> ChainEnd(r.bytes, old(r.pos), swapBytes) == Success(r.pos)
      decreases |r.bytes| - r.pos, more
    {
      more :- SkipOne(r, swapBytes);
    }
    res := Success(());
  }
}
