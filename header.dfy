/** The header half of `Nifti.open`: routing on the first int, the byte-order decision taken on
    the rank field, and the NIfTI-1 (348-byte) and NIfTI-2 (540-byte) field layouts, given by
    absolute offsets. The sequential readers in module HeaderReader are proved to agree with them. */
module Header {
  import opened Outcomes
  import opened ByteOrder
  import opened Floats
  import opened Stream

  const Nifti1Size: nat := 348
  const Nifti2Size: nat := 540

  /** Which parser the first int of the file selects. */
  datatype Route = ToNifti1 | ToNifti2 | Unrecognised

  function RouteOf(first: bv32): Route
  {
    if first == 348 || SwapInt(first) == 348 then ToNifti1
    else if first == 540 || SwapInt(first) == 540 then ToNifti2
    else Unrecognised
  }

  /** Exactly two bit patterns select each parser: the size written big-endian or little-endian. */
  lemma RouteExact(first: bv32)
    ensures RouteOf(first) == ToNifti1 <==> first == 348 || first == 0x5C01_0000
    ensures RouteOf(first) == ToNifti2 <==> first == 540 || first == 0x1C02_0000
  {
    SwapIntInvolution(first);
    assert SwapInt(348) == 0x5C01_0000;
    assert SwapInt(540) == 0x1C02_0000;
  }

  /** The route does not depend on the byte order the size was written in. */
  lemma RouteOrderFree(first: bv32)
    ensures RouteOf(SwapInt(first)) == RouteOf(first)
  {
    SwapIntInvolution(first);
  }

  /** Outcome of the rank test: whether every later multi-byte read is swapped, and the rank. */
  datatype Decision = Decision(swap: bool, rank: int)

  function DecideRank16(raw: bv16): (d: Decision)
    ensures !d.swap ==> 0 <= d.rank <= 7 && d.rank == raw as int
    ensures -0x8000 <= d.rank < 0x8000
  {
    if 0 <= Signed16(raw) <= 7 then Decision(false, Signed16(raw))
    else Decision(true, Signed16(SwapShort(raw)))
  }

  function DecideRank64(raw: bv64): (d: Decision)
    ensures !d.swap ==> 0 <= d.rank <= 7 && d.rank == raw as int
  {
    if 0 <= Signed64(raw) <= 7 then Decision(false, Signed64(raw))
    else Decision(true, Signed64(SwapLong(raw)))
  }

  /** A rank of 1 to 7 is recognised in either byte order and reports the file's order; a rank of
      0 reads the same both ways, so such a little-endian file is taken as big-endian. */
  lemma RankDecision16(n: bv16)
    requires n <= 7
    ensures DecideRank16(n) == Decision(false, n as int)
    ensures DecideRank16(SwapShort(n)) == Decision(n != 0, n as int)
  {
    SwapShortInvolution(n);
    if n == 0 {
      assert SwapShort(n) == 0;
    } else {
      assert SwapShort(n) == n << 8;
    }
  }

  lemma RankDecision64(n: bv64)
    requires n <= 7
    ensures DecideRank64(n) == Decision(false, n as int)
    ensures DecideRank64(SwapLong(n)) == Decision(n != 0, n as int)
  {
    SwapLongInvolution(n);
    SwapLongWords(n);
    assert High(n) == 0 && Low(n) == n as bv32;
    assert SwapLong(n) == Join(SwapInt(n as bv32), 0);
    if n != 0 {
      assert SwapInt(n as bv32) == (n as bv32) << 24;
      assert 0 < (n as bv32) << 24 < 0x8000_0000;
      assert High(SwapLong(n)) == (n as bv32) << 24;
      assert SwapLong(n) >= 0x1_0000_0000;
      assert Signed64(SwapLong(n)) >= 0x1_0000_0000;
    }
  }

  datatype Version = Nifti1 | Nifti2

  /** The header fields the decoder goes on to use, already shaped to the rank. */
  datatype Header = Header(
    version: Version,
    swap: bool,
    twoFiles: bool,
    isAnalyze: bool,
    rank: int,
    dims: seq<int>,
    dataType: int,
    bitpix: int,
    spacings: seq<Float>,
    sclSlope: Float,
    sclInter: Float,
    xyztUnits: bv32,
    toffset: Float,
    description: string,
    auxName: string,
    srow: seq<Float>,
    intentName: string)

  predicate WellShaped(h: Header)
  {
    0 <= h.rank <= 7 && |h.dims| == h.rank && |h.spacings| == h.rank && |h.srow| == 12
  }

  const OneFile1: seq<bv8> := [0x6E, 0x2B, 0x31, 0]  // "n+1\0"
  const TwoFiles1: seq<bv8> := [0x6E, 0x69, 0x31, 0] // "ni1\0"
  const OneFile2: seq<bv8> := [0x6E, 0x2B, 0x32, 0]  // "n+2\0"
  const TwoFiles2: seq<bv8> := [0x6E, 0x69, 0x32, 0] // "ni2\0"

  /** Java widens the xyzt_units byte with its sign. */
  function SignExtend(b: bv8): (x: bv32)
    ensures x & 0xFF == b as bv32
  {
    if b < 0x80 then b as bv32 else (b as bv32) | 0xFFFF_FF00
  }

  function ShortsAt(bs: seq<bv8>, p: nat, n: nat, swap: bool): seq<bv16>
    requires p + 2 * n <= |bs|
  {
    seq(n, i requires 0 <= i < n => ShortAt(bs, p + 2 * i, swap))
  }

  function IntsAt(bs: seq<bv8>, p: nat, n: nat, swap: bool): seq<bv32>
    requires p + 4 * n <= |bs|
  {
    seq(n, i requires 0 <= i < n => IntAt(bs, p + 4 * i, swap))
  }

  function LongsAt(bs: seq<bv8>, p: nat, n: nat, swap: bool): seq<bv64>
    requires p + 8 * n <= |bs|
  {
    seq(n, i requires 0 <= i < n => LongAt(bs, p + 8 * i, swap))
  }

  function FloatsAt(bs: seq<bv8>, p: nat, n: nat, swap: bool): seq<Float>
    requires p + 4 * n <= |bs|
  {
    seq(n, i requires 0 <= i < n => FloatAt(bs, p + 4 * i, swap))
  }

  function DoublesAt(bs: seq<bv8>, p: nat, n: nat, swap: bool): seq<Float>
    requires p + 8 * n <= |bs|
  {
    seq(n, i requires 0 <= i < n => DoubleAt(bs, p + 8 * i, swap))
  }

  /** pixdim[0..7], scl_slope and scl_inter. */
  datatype Scaling = Scaling(pixdim: seq<Float>, sclSlope: Float, sclInter: Float)

  /** srow_x, srow_y, srow_z (twelve values, row by row), intent_name and the magic. */
  datatype Tail = Tail(srow: seq<Float>, intentName: string, magic: seq<bv8>)

  /** dims[i] = dim[i+1] and spacings[i] = pixdim[i+1] for i < rank; the magic decides the file
      layout (NIfTI-1: "ni1" two files, "n+1" one file, anything else ANALYZE with two files;
      NIfTI-2: "ni2" two files, "n+2" one file). */
  function Assemble(v: Version, d: Decision, dim: seq<int>, dataType: bv16, bitpix: bv16,
                    xyztUnits: bv32, s: Scaling, toffset: Float, labels: (string, string),
                    t: Tail): (h: Header)
    requires 0 <= d.rank <= 7 && |dim| == 7 && |s.pixdim| == 8 && |t.srow| == 12
    ensures WellShaped(h)
  {
    Header(
      version := v,
      swap := d.swap,
      twoFiles := if v == Nifti1 then t.magic != OneFile1 else t.magic == TwoFiles2,
      isAnalyze := v == Nifti1 && t.magic != OneFile1 && t.magic != TwoFiles1,
      rank := d.rank,
      dims := dim[..d.rank],
      dataType := Signed16(dataType),
      bitpix := Signed16(bitpix),
      spacings := s.pixdim[1..d.rank + 1],
      sclSlope := s.sclSlope,
      sclInter := s.sclInter,
      xyztUnits := xyztUnits,
      toffset := toffset,
      description := labels.0,
      auxName := labels.1,
      srow := t.srow,
      intentName := t.intentName)
  }

  // ---- NIfTI-1 ----

  /** dim[1..7], from offset 42. */
  function Dim1At(bs: seq<bv8>, swap: bool): seq<int>
    requires |bs| >= 56
  {
    seq(7, i requires 0 <= i < 7 => Signed16(ShortAt(bs, 42 + 2 * i, swap)))
  }

  /** pixdim at 76, scl_slope at 112, scl_inter at 116. */
  function Scaling1At(bs: seq<bv8>, swap: bool): Scaling
    requires |bs| >= 120
  {
    Scaling(FloatsAt(bs, 76, 8, swap), FloatAt(bs, 112, swap), FloatAt(bs, 116, swap))
  }

  /** descrip (80 bytes) and aux_file (24 bytes) from offset p. */
  function LabelsAt(bs: seq<bv8>, p: nat): (string, string)
    requires p + 104 <= |bs|
  {
    (CString(bs[p..p + 80]), CString(bs[p + 80..p + 104]))
  }

  /** srow_x/y/z at 280, intent_name at 328, magic at 344. */
  function Tail1At(bs: seq<bv8>, swap: bool): Tail
    requires |bs| >= Nifti1Size
  {
    Tail(FloatsAt(bs, 280, 12, swap), CString(bs[328..344]), bs[344..348])
  }

  /** The NIfTI-1 header: the rank at 40 decides the byte order; then datatype at 70, bitpix at 72,
      xyzt_units at 123, toffset at 136 and descrip/aux_file from 148. */
  function Nifti1Header(bs: seq<bv8>): Result<Header>
  {
    if |bs| < 56 then Failure(Truncated)
    else
      var d := DecideRank16(ShortAt(bs, 40, false));
      if !(0 <= d.rank <= 7) then Failure(RankOutOfRange(d.rank))
      else if |bs| < Nifti1Size then Failure(Truncated)
      else Success(Nifti1Fields(bs, d))
  }

  function Nifti1Fields(bs: seq<bv8>, d: Decision): Header
    requires |bs| >= Nifti1Size && 0 <= d.rank <= 7
  {
    Assemble(Nifti1, d, Dim1At(bs, d.swap), ShortAt(bs, 70, d.swap), ShortAt(bs, 72, d.swap),
             SignExtend(bs[123]), Scaling1At(bs, d.swap), FloatAt(bs, 136, d.swap),
             LabelsAt(bs, 148), Tail1At(bs, d.swap))
  }

  /** A NIfTI-1 header is accepted exactly when it is complete and its rank is 0..7 in one of
      the two byte orders. */
  lemma Nifti1Outcome(bs: seq<bv8>)
    ensures Nifti1Header(bs).Success? <==>
      |bs| >= Nifti1Size && 0 <= DecideRank16(ShortAt(bs, 40, false)).rank <= 7
  {
  }

  /** The magic at 344 chooses between one file, two files and ANALYZE mode. */
  lemma Nifti1Magic(bs: seq<bv8>)
    requires Nifti1Header(bs).Success?
    ensures WellShaped(Nifti1Header(bs).value) && Nifti1Header(bs).value.version == Nifti1
    ensures Nifti1Header(bs).value.twoFiles <==> bs[344..348] != OneFile1
    ensures Nifti1Header(bs).value.isAnalyze <==> bs[344..348] != OneFile1 && bs[344..348] != TwoFiles1
  {
  }


  // ---- NIfTI-2 ----

  /** dim[1..7], from offset 24. */
  function Dim2At(bs: seq<bv8>, swap: bool): seq<int>
    requires |bs| >= 80
  {
    seq(7, i requires 0 <= i < 7 => Signed64(LongAt(bs, 24 + 8 * i, swap)))
  }

  /** pixdim at 104, scl_slope at 176, scl_inter at 184. */
  function Scaling2At(bs: seq<bv8>, swap: bool): Scaling
    requires |bs| >= 192
  {
    Scaling(DoublesAt(bs, 104, 8, swap), DoubleAt(bs, 176, swap), DoubleAt(bs, 184, swap))
  }

  /** srow_x/y/z at 400, intent_name at 508; the magic sits at 4. */
  function Tail2At(bs: seq<bv8>, swap: bool): Tail
    requires |bs| >= Nifti2Size
  {
    Tail(DoublesAt(bs, 400, 12, swap), CString(bs[508..524]), bs[4..8])
  }

  /** Swapped afterwards when the rank says so, as datatype and bitpix are in the source. */
  function LateSwap(x: bv16, swap: bool): bv16
  {
    if swap then SwapShort(x) else x
  }

  /** The NIfTI-2 header: the magic at 4 is checked first (only its first four bytes); datatype at
      12 and bitpix at 14 are read before the rank at 16 decides the byte order; toffset at 216,
      descrip/aux_file from 240, xyzt_units at 500. */
  function Nifti2Header(bs: seq<bv8>): Result<Header>
  {
    if |bs| < 12 then Failure(Truncated)
    else if bs[4..8] != OneFile2 && bs[4..8] != TwoFiles2 then Failure(BadMagic)
    else if |bs| < 80 then Failure(Truncated)
    else
      var d := DecideRank64(LongAt(bs, 16, false));
      if !(0 <= d.rank <= 7) then Failure(RankOutOfRange(d.rank))
      else if |bs| < Nifti2Size then Failure(Truncated)
      else Success(Nifti2Fields(bs, d))
  }

  function Nifti2Fields(bs: seq<bv8>, d: Decision): Header
    requires |bs| >= Nifti2Size && 0 <= d.rank <= 7
  {
    Assemble(Nifti2, d, Dim2At(bs, d.swap),
             LateSwap(ShortAt(bs, 12, false), d.swap), LateSwap(ShortAt(bs, 14, false), d.swap),
             IntAt(bs, 500, d.swap), Scaling2At(bs, d.swap), DoubleAt(bs, 216, d.swap),
             LabelsAt(bs, 240), Tail2At(bs, d.swap))
  }

  /** A bad magic is reported whenever the first eight bytes are present, before anything else is
      looked at; a NIfTI-2 header is accepted exactly when it is complete, its magic is one of the
      two NIfTI-2 magics and its rank is 0..7 in one of the two byte orders. */
  lemma Nifti2Outcome(bs: seq<bv8>)
    ensures Nifti2Header(bs) == Failure(BadMagic) <==>
      |bs| >= 12 && bs[4..8] != OneFile2 && bs[4..8] != TwoFiles2
    ensures Nifti2Header(bs).Success? <==>
      |bs| >= Nifti2Size && (bs[4..8] == OneFile2 || bs[4..8] == TwoFiles2) &&
      0 <= DecideRank64(LongAt(bs, 16, false)).rank <= 7
  {
  }

  lemma Nifti2Magic(bs: seq<bv8>)
    requires Nifti2Header(bs).Success?
    ensures WellShaped(Nifti2Header(bs).value) && Nifti2Header(bs).value.version == Nifti2
    ensures !Nifti2Header(bs).value.isAnalyze
    ensures Nifti2Header(bs).value.twoFiles <==> bs[4..8] == TwoFiles2
  {
  }


  /** Swapping datatype and bitpix after the fact gives what reading them in the final byte
      order gives: they end up in the same order as every later field. */
  lemma Nifti2TypeOrder(bs: seq<bv8>, d: Decision)
    requires |bs| >= Nifti2Size && 0 <= d.rank <= 7
    ensures var h := Nifti2Fields(bs, d);
      h.dataType == Signed16(ShortAt(bs, 12, d.swap)) && h.bitpix == Signed16(ShortAt(bs, 14, d.swap))
  {
  }

  /** The full header result: the route on the first int, then the selected layout. */
  function HeaderOf(bs: seq<bv8>): (r: Result<Header>)
    ensures |bs| >= 4 && RouteOf(IntAt(bs, 0, false)) == Unrecognised ==>
      r == Failure(UnknownHeaderSize(IntAt(bs, 0, false)))
    ensures r.Success? ==> |bs| >= 4 && WellShaped(r.value)
    ensures r.Success? && r.value.version == Nifti1 ==> RouteOf(IntAt(bs, 0, false)) == ToNifti1
    ensures r.Success? && r.value.version == Nifti2 ==> RouteOf(IntAt(bs, 0, false)) == ToNifti2
  {
    if |bs| < 4 then Failure(Truncated)
    else
      match RouteOf(IntAt(bs, 0, false))
      case ToNifti1 => Nifti1Header(bs)
      case ToNifti2 => Nifti2Header(bs)
      case Unrecognised => Failure(UnknownHeaderSize(IntAt(bs, 0, false)))
  }
}
