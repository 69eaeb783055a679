/** The header half of `Nifti.open` as the source performs it: one read after another on the
    stream, with the swap flag set once the rank has been seen. Each reader is proved to produce
    the offset-based header of module Header. */
module HeaderReader {
  import opened Outcomes
  import opened ByteOrder
  import opened Floats
  import opened Stream
  import opened Header

  // ---- runs of consecutive reads ----

  method ReadShorts(r: Reader, n: nat, swap: bool) returns (res: Result<seq<bv16>>)
    requires r.Valid()
    modifies r
    ensures r.Valid()
    ensures old(r.pos) + 2 * n <= |r.bytes| ==>
      res == Success(ShortsAt(r.bytes, old(r.pos), n, swap)) && r.pos == old(r.pos) + 2 * n
    ensures old(r.pos) + 2 * n > |r.bytes| ==> res == Failure(Truncated)
  {
    var vs := [];
    for i := 0 to n
      invariant r.Valid() && r.pos == old(r.pos) + 2 * i
      invariant vs == ShortsAt(r.bytes, old(r.pos), i, swap)
    {
      var v :- r.ReadShort(swap);
      vs := vs + [v];
    }
    res := Success(vs);
  }

  method ReadInts(r: Reader, n: nat, swap: bool) returns (res: Result<seq<bv32>>)
    requires r.Valid()
    modifies r
    ensures r.Valid()
    ensures old(r.pos) + 4 * n <= |r.bytes| ==>
      res == Success(IntsAt(r.bytes, old(r.pos), n, swap)) && r.pos == old(r.pos) + 4 * n
    ensures old(r.pos) + 4 * n > |r.bytes| ==> res == Failure(Truncated)
  {
    var vs := [];
    for i := 0 to n
      invariant r.Valid() && r.pos == old(r.pos) + 4 * i
      invariant vs == IntsAt(r.bytes, old(r.pos), i, swap)
    {
      var v :- r.ReadInt(swap);
      vs := vs + [v];
    }
    res := Success(vs);
  }

  method ReadLongs(r: Reader, n: nat, swap: bool) returns (res: Result<seq<bv64>>)
    requires r.Valid()
    modifies r
    ensures r.Valid()
    ensures old(r.pos) + 8 * n <= |r.bytes| ==>
      res == Success(LongsAt(r.bytes, old(r.pos), n, swap)) && r.pos == old(r.pos) + 8 * n
    ensures old(r.pos) + 8 * n > |r.bytes| ==> res == Failure(Truncated)
  {
    var vs := [];
    for i := 0 to n
      invariant r.Valid() && r.pos == old(r.pos) + 8 * i
      invariant vs == LongsAt(r.bytes, old(r.pos), i, swap)
    {
      var v :- r.ReadLong(swap);
      vs := vs + [v];
    }
    res := Success(vs);
  }

  method ReadFloats(r: Reader, n: nat, swap: bool) returns (res: Result<seq<Float>>)
    requires r.Valid()
    modifies r
    ensures r.Valid()
    ensures old(r.pos) + 4 * n <= |r.bytes| ==>
      res == Success(FloatsAt(r.bytes, old(r.pos), n, swap)) && r.pos == old(r.pos) + 4 * n
    ensures old(r.pos) + 4 * n > |r.bytes| ==> res == Failure(Truncated)
  {
    var vs := [];
    for i := 0 to n
      invariant r.Valid() && r.pos == old(r.pos) + 4 * i
      invariant vs == FloatsAt(r.bytes, old(r.pos), i, swap)
    {
      var v :- r.ReadFloat(swap);
      vs := vs + [v];
    }
    res := Success(vs);
  }

  method ReadDoubles(r: Reader, n: nat, swap: bool) returns (res: Result<seq<Float>>)
    requires r.Valid()
    modifies r
    ensures r.Valid()
    ensures old(r.pos) + 8 * n <= |r.bytes| ==>
      res == Success(DoublesAt(r.bytes, old(r.pos), n, swap)) && r.pos == old(r.pos) + 8 * n
    ensures old(r.pos) + 8 * n > |r.bytes| ==> res == Failure(Truncated)
  {
    var vs := [];
    for i := 0 to n
      invariant r.Valid() && r.pos == old(r.pos) + 8 * i
      invariant vs == DoublesAt(r.bytes, old(r.pos), i, swap)
    {
      var v :- r.ReadDouble(swap);
      vs := vs + [v];
    }
    res := Success(vs);
  }

  /** The magic bytes, one readByte each. */
  method ReadMagic(r: Reader, n: nat) returns (res: Result<seq<bv8>>)
    requires r.Valid()
    modifies r
    ensures r.Valid()
    ensures old(r.pos) + n <= |r.bytes| ==>
      res == Success(r.bytes[old(r.pos)..old(r.pos) + n]) && r.pos == old(r.pos) + n
    ensures old(r.pos) + n > |r.bytes| ==> res == Failure(Truncated)
  {
    var magic := [];
    for i := 0 to n
      invariant r.Valid() && r.pos == old(r.pos) + i
      invariant magic == r.bytes[old(r.pos)..r.pos]
    {
      var b :- r.ReadByte();
      magic := magic + [b];
    }
    res := Success(magic);
  }

  /** descrip (80 bytes) then aux_file (24 bytes). */
  method ReadLabels(r: Reader) returns (res: Result<(string, string)>)
    requires r.Valid()
    modifies r
    ensures r.Valid()
    ensures old(r.pos) + 104 <= |r.bytes| ==>
      res == Success(LabelsAt(r.bytes, old(r.pos))) && r.pos == old(r.pos) + 104
    ensures old(r.pos) + 104 > |r.bytes| ==> res == Failure(Truncated)
  {
    var description :- r.ReadString(80);
    var auxName :- r.ReadString(24);
    res := Success((description, auxName));
  }

  // ---- NIfTI-1 ----

  /** The NIfTI-1 branch of `open`, from just after the size field to the end of the magic. */
  method ReadNifti1(r: Reader) returns (res: Result<Header>)
    requires r.Valid() && r.pos == 4
    modifies r
    ensures r.Valid()
    ensures res == Nifti1Header(r.bytes)
    ensures res.Success? ==> r.pos == Nifti1Size
  {
    var prefix :- ReadPrefix1(r);
    var d := prefix.0;
    if !(0 <= d.rank <= 7) {
      return Failure(RankOutOfRange(d.rank));
    }
    var types :- ReadTypes1(r, d.swap);
    var scaling :- ReadScaling1(r, d.swap);
    var timing :- ReadTiming1(r, d.swap);
    var labels :- ReadLabels(r);
    var srow :- ReadAffine1(r, d.swap);
    var ending :- ReadEnding1(r);
    res := Success(Assemble(Nifti1, d, prefix.1, types.0, types.1, timing.0, scaling, timing.1,
                            labels, Tail(srow, ending.0, ending.1)));
  }

  /** Offsets 4 to 56: 35 skipped bytes, dim_info, the rank (read unswapped, then swapped with
      swapBytes set when it is outside [0,7]) and dim[1..7] in the decided order. */
  method ReadPrefix1(r: Reader) returns (res: Result<(Decision, seq<int>)>)
    requires r.Valid() && r.pos == 4
    modifies r
    ensures r.Valid()
    ensures |r.bytes| >= 56 ==>
      var d := DecideRank16(ShortAt(r.bytes, 40, false));
      res == Success((d, Dim1At(r.bytes, d.swap))) && r.pos == 56
    ensures |r.bytes| < 56 ==> res == Failure(Truncated)
  {
    var unused :- r.Discard(35);
    var dimInfo :- r.ReadByte();
    var numD :- r.ReadShort(false);
    var swapBytes := false;
    if !(0 <= Signed16(numD) <= 7) {
      numD := SwapShort(numD);
      swapBytes := true;
    }
    var dim :- ReadShorts(r, 7, swapBytes);
    var dims := seq(7, i requires 0 <= i < 7 => Signed16(dim[i]));
    assert dims == Dim1At(r.bytes, swapBytes);
    res := Success((Decision(swapBytes, Signed16(numD)), dims));
  }

  /** Offsets 56 to 76: the intent parameters and code, datatype, bitpix and slice_start. */
  method ReadTypes1(r: Reader, swapBytes: bool) returns (res: Result<(bv16, bv16)>)
    requires r.Valid() && r.pos == 56
    modifies r
    ensures r.Valid()
    ensures |r.bytes| >= 76 ==>
      res == Success((ShortAt(r.bytes, 70, swapBytes), ShortAt(r.bytes, 72, swapBytes))) && r.pos == 76
    ensures |r.bytes| < 76 ==> res == Failure(Truncated)
  {
    var intentParams :- ReadFloats(r, 3, swapBytes);
    var intentCode :- r.ReadShort(swapBytes);
    var dataType :- r.ReadShort(swapBytes);
    var bitpix :- r.ReadShort(swapBytes);
    var sliceStart :- r.ReadShort(swapBytes);
    res := Success((dataType, bitpix));
  }

  /** Offsets 76 to 120: pixdim, vox_offset, scl_slope, scl_inter. */
  method ReadScaling1(r: Reader, swapBytes: bool) returns (res: Result<Scaling>)
    requires r.Valid() && r.pos == 76
    modifies r
    ensures r.Valid()
    ensures |r.bytes| >= 120 ==> res == Success(Scaling1At(r.bytes, swapBytes)) && r.pos == 120
    ensures |r.bytes| < 120 ==> res == Failure(Truncated)
  {
    var pixdim :- ReadFloats(r, 8, swapBytes);
    var voxOffset :- r.ReadFloat(swapBytes);
    var sclSlope :- r.ReadFloat(swapBytes);
    var sclInter :- r.ReadFloat(swapBytes);
    res := Success(Scaling(pixdim, sclSlope, sclInter));
  }

  /** Offsets 120 to 148: slice_end, slice_code, xyzt_units (sign-extended), cal_max, cal_min,
      slice_duration, toffset and two unused ints. */
  method ReadTiming1(r: Reader, swapBytes: bool) returns (res: Result<(bv32, Float)>)
    requires r.Valid() && r.pos == 120
    modifies r
    ensures r.Valid()
    ensures |r.bytes| >= 148 ==>
      res == Success((SignExtend(r.bytes[123]), FloatAt(r.bytes, 136, swapBytes))) && r.pos == 148
    ensures |r.bytes| < 148 ==> res == Failure(Truncated)
  {
    var sliceEnd :- r.ReadShort(swapBytes);
    var sliceCode :- r.ReadByte();
    var xyztUnits :- r.ReadByte();
    var cal :- ReadFloats(r, 2, swapBytes);
    var sliceDuration :- r.ReadFloat(swapBytes);
    var toffset :- r.ReadFloat(swapBytes);
    var unused :- ReadInts(r, 2, swapBytes);
    res := Success((SignExtend(xyztUnits), toffset));
  }

  /** Offsets 252 to 328: qform_code, sform_code, the quaternion, srow_x/y/z. */
  method ReadAffine1(r: Reader, swapBytes: bool) returns (res: Result<seq<Float>>)
    requires r.Valid() && r.pos == 252
    modifies r
    ensures r.Valid()
    ensures |r.bytes| >= 328 ==> res == Success(FloatsAt(r.bytes, 280, 12, swapBytes)) && r.pos == 328
    ensures |r.bytes| < 328 ==> res == Failure(Truncated)
  {
    var qformCode :- r.ReadShort(swapBytes);
    var sformCode :- r.ReadShort(swapBytes);
    var quatern :- ReadFloats(r, 6, swapBytes);
    var srow :- ReadFloats(r, 12, swapBytes);
    res := Success(srow);
  }

  /** Offsets 328 to 348: intent_name and the magic. */
  method ReadEnding1(r: Reader) returns (res: Result<(string, seq<bv8>)>)
    requires r.Valid() && r.pos == 328
    modifies r
    ensures r.Valid()
    ensures |r.bytes| >= Nifti1Size ==>
      res == Success((CString(r.bytes[328..344]), r.bytes[344..348])) && r.pos == Nifti1Size
    ensures |r.bytes| < Nifti1Size ==> res == Failure(Truncated)
  {
    var intentName :- r.ReadString(16);
    var magic :- ReadMagic(r, 4);
    res := Success((intentName, magic));
  }

  // ---- NIfTI-2 ----

  /** The NIfTI-2 branch of `open`, from just after the size field to the end of the unused
      bytes; a bad magic ends the decode before anything else is read. */
  method ReadNifti2(r: Reader) returns (res: Result<Header>)
    requires r.Valid() && r.pos == 4
    modifies r
    ensures r.Valid()
    ensures res == Nifti2Header(r.bytes)
    ensures res.Success? ==> r.pos == Nifti2Size
  {
    var magic :- ReadMagic(r, 8);
    assert magic[..4] == r.bytes[4..8];
    if magic[..4] != OneFile2 && magic[..4] != TwoFiles2 {
      return Failure(BadMagic);
    }
    var dataType :- r.ReadShort(false);
    var bitpix :- r.ReadShort(false);
    var prefix :- ReadPrefix2(r);
    var d := prefix.0;
    if !(0 <= d.rank <= 7) {
      return Failure(RankOutOfRange(d.rank));
    }
    if d.swap {
      dataType := SwapShort(dataType);
      bitpix := SwapShort(bitpix);
    }
    var h :- ReadBody2(r, d, dataType, bitpix, magic[..4]);
    res := Success(h);
  }

  /** Offsets 80 to 540, once the byte order is known. */
  method ReadBody2(r: Reader, d: Decision, dataType: bv16, bitpix: bv16, magic: seq<bv8>)
    returns (res: Result<Header>)
    requires r.Valid() && r.pos == 80 && 0 <= d.rank <= 7
    requires dataType == LateSwap(ShortAt(r.bytes, 12, false), d.swap)
    requires bitpix == LateSwap(ShortAt(r.bytes, 14, false), d.swap)
    requires magic == r.bytes[4..8]
    requires |r.bytes| >= 80
    modifies r
    ensures r.Valid()
    ensures |r.bytes| >= Nifti2Size ==>
      res == Success(Nifti2Fields(r.bytes, d)) && r.pos == Nifti2Size
    ensures |r.bytes| < Nifti2Size ==> res == Failure(Truncated)
  {
    var scaling :- ReadScaling2(r, d.swap);
    var toffset :- ReadTiming2(r, d.swap);
    var labels :- ReadLabels(r);
    var srow :- ReadAffine2(r, d.swap);
    var ending :- ReadEnding2(r, d.swap);
    res := Success(Assemble(Nifti2, d, Dim2At(r.bytes, d.swap), dataType, bitpix, ending.0, scaling,
                            toffset, labels, Tail(srow, ending.1, magic)));
  }

  /** Offsets 16 to 80: the rank (read unswapped, then swapped with swapBytes set when it is
      outside [0,7]) and dim[1..7] in the decided order. */
  method ReadPrefix2(r: Reader) returns (res: Result<(Decision, seq<int>)>)
    requires r.Valid() && r.pos == 16
    modifies r
    ensures r.Valid()
    ensures |r.bytes| >= 80 ==>
      var d := DecideRank64(LongAt(r.bytes, 16, false));
      res == Success((d, Dim2At(r.bytes, d.swap))) && r.pos == 80
    ensures |r.bytes| < 80 ==> res == Failure(Truncated)
  {
    var numD :- r.ReadLong(false);
    var swapBytes := false;
    if !(0 <= Signed64(numD) <= 7) {
      numD := SwapLong(numD);
      swapBytes := true;
    }
    var dim :- ReadLongs(r, 7, swapBytes);
    var dims := seq(7, i requires 0 <= i < 7 => Signed64(dim[i]));
    assert dims == Dim2At(r.bytes, swapBytes);
    res := Success((Decision(swapBytes, Signed64(numD)), dims));
  }

  /** Offsets 80 to 192: the intent parameters, pixdim, vox_offset, scl_slope, scl_inter. */
  method ReadScaling2(r: Reader, swapBytes: bool) returns (res: Result<Scaling>)
    requires r.Valid() && r.pos == 80
    modifies r
    ensures r.Valid()
    ensures |r.bytes| >= 192 ==> res == Success(Scaling2At(r.bytes, swapBytes)) && r.pos == 192
    ensures |r.bytes| < 192 ==> res == Failure(Truncated)
  {
    var intentParams :- ReadDoubles(r, 3, swapBytes);
    var pixdim :- ReadDoubles(r, 8, swapBytes);
    var voxOffset :- r.ReadLong(swapBytes);
    var sclSlope :- r.ReadDouble(swapBytes);
    var sclInter :- r.ReadDouble(swapBytes);
    res := Success(Scaling(pixdim, sclSlope, sclInter));
  }

  /** Offsets 192 to 240: cal_max, cal_min, slice_duration, toffset, slice_start, slice_end. */
  method ReadTiming2(r: Reader, swapBytes: bool) returns (res: Result<Float>)
    requires r.Valid() && r.pos == 192
    modifies r
    ensures r.Valid()
    ensures |r.bytes| >= 240 ==> res == Success(DoubleAt(r.bytes, 216, swapBytes)) && r.pos == 240
    ensures |r.bytes| < 240 ==> res == Failure(Truncated)
  {
    var cal :- ReadDoubles(r, 2, swapBytes);
    var sliceDuration :- r.ReadDouble(swapBytes);
    var toffset :- r.ReadDouble(swapBytes);
    var sliceStart :- r.ReadLong(swapBytes);
    var sliceEnd :- r.ReadLong(swapBytes);
    res := Success(toffset);
  }

  /** Offsets 344 to 496: qform_code, sform_code, the quaternion, srow_x/y/z. */
  method ReadAffine2(r: Reader, swapBytes: bool) returns (res: Result<seq<Float>>)
    requires r.Valid() && r.pos == 344
    modifies r
    ensures r.Valid()
    ensures |r.bytes| >= 496 ==> res == Success(DoublesAt(r.bytes, 400, 12, swapBytes)) && r.pos == 496
    ensures |r.bytes| < 496 ==> res == Failure(Truncated)
  {
    var codes :- ReadInts(r, 2, swapBytes);
    var quatern :- ReadDoubles(r, 6, swapBytes);
    var srow :- ReadDoubles(r, 12, swapBytes);
    res := Success(srow);
  }

  /** Offsets 496 to 540: slice_code, xyzt_units, intent_code, intent_name, dim_info and 15
      unused bytes. */
  method ReadEnding2(r: Reader, swapBytes: bool) returns (res: Result<(bv32, string)>)
    requires r.Valid() && r.pos == 496
    modifies r
    ensures r.Valid()
    ensures |r.bytes| >= Nifti2Size ==>
      res == Success((IntAt(r.bytes, 500, swapBytes), CString(r.bytes[508..524]))) && r.pos == Nifti2Size
    ensures |r.bytes| < Nifti2Size ==> res == Failure(Truncated)
  {
    var sliceCode :- r.ReadInt(swapBytes);
    var xyztUnits :- r.ReadInt(swapBytes);
    var intentCode :- r.ReadInt(swapBytes);
    var intentName :- r.ReadString(16);
    var dimInfo :- r.ReadByte();
    var unused :- r.Discard(15);
    res := Success((xyztUnits, intentName));
  }

  // ---- routing ----

  /** The start of `open`: the first int selects the NIfTI-1 or NIfTI-2 parser, in either byte
      order; any other value ends the decode. */
  method ReadHeader(r: Reader) returns (res: Result<Header>)
    requires r.Valid() && r.pos == 0
    modifies r
    ensures r.Valid()
    ensures res == HeaderOf(r.bytes)
    ensures res.Success? && res.value.version == Nifti1 ==> r.pos == Nifti1Size
    ensures res.Success? && res.value.version == Nifti2 ==> r.pos == Nifti2Size
  {
    var headerSize :- r.ReadInt(false);
    if headerSize == 348 || SwapInt(headerSize) == 348 {
      res := ReadNifti1(r);
    } else if headerSize == 540 || SwapInt(headerSize) == 540 {
      res := ReadNifti2(r);
    } else {
      res := Failure(UnknownHeaderSize(headerSize));
    }
  }
}
