/** The end of `open`: each axis is named and given its unit and its scale (the voxel spacing),
    the time axis alone gets an offset, and a coordinate space is chosen from the rank and the
    srow affine transform. Every scale, the time offset and the entries of an affine space are
    converted with `BigDecimal.valueOf`, which throws for NaN and the infinities. */
module Coords {
  import opened Outcomes
  import opened Floats
  import opened Units

  /** An axis as `setAxisType` and `setAxisUnit` describe it, with its entry in `scales`. */
  datatype Axis = Axis(name: string, unit: string, scale: Float)

  /** An entry of the `offsets` array: null, or the value it was given. */
  datatype Offset = NoOffset | Offset(at: Float)

  /** The three coordinate spaces `open` can build. A 2-D affine space takes sx, x1, x3, y0, sy,
      y3 (the z column of the transform left out); a 3-D one all twelve srow values; the linear
      one the per-axis scales and offsets. */
  datatype Space =
    | Affine2d(entries: seq<Float>)
    | Affine3d(entries: seq<Float>)
    | LinearNd(scales: seq<Float>, offsets: seq<Offset>)

  /** Axis names in order. */
  const Labels: seq<string> := ["x", "y", "z", "t", "l", "m", "n"]

  /** The axes of a grid of the given rank: axis k is named Labels[k], carries the unit the
      xyzt_units field gives it and is scaled by its spacing. */
  function AxesOf(rank: nat, xyzt: bv32, spacings: seq<Float>): (axes: seq<Axis>)
    requires rank <= 7 && |spacings| == rank
    ensures |axes| == rank
  {
    seq(rank, k requires 0 <= k < rank => Axis(Labels[k], AxisUnits(rank, xyzt)[k], spacings[k]))
  }

  /** The `offsets` array: only axis 3 gets one, toffset; every other entry stays null. */
  function OffsetsOf(rank: nat, toffset: Float): (offsets: seq<Offset>)
    ensures |offsets| == rank
  {
    seq(rank, k => if k == 3 then Offset(toffset) else NoOffset)
  }

  /** Every axis has its own name; the first three are the spatial axes x, y, z and share the
      spatial unit, axis 3 is t with the time unit, and the scales are the spacings in order. */
  lemma AxesDescribed(rank: nat, xyzt: bv32, spacings: seq<Float>)
    requires rank <= 7 && |spacings| == rank
    ensures forall i, j :: 0 <= i < j < rank ==> AxesOf(rank, xyzt, spacings)[i].name != AxesOf(rank, xyzt, spacings)[j].name
    ensures forall k :: 0 <= k < rank && k < 3 ==>
      AxesOf(rank, xyzt, spacings)[k].name in {"x", "y", "z"} && AxesOf(rank, xyzt, spacings)[k].unit == SpaceUnit(xyzt)
    ensures rank > 3 ==> AxesOf(rank, xyzt, spacings)[3].name == "t" && AxesOf(rank, xyzt, spacings)[3].unit == TimeUnit(xyzt)
    ensures forall k :: 0 <= k < rank ==> AxesOf(rank, xyzt, spacings)[k].scale == spacings[k]
  {
    var us := AxisUnits(rank, xyzt);
    assert forall k :: 0 <= k < rank ==> AxesOf(rank, xyzt, spacings)[k].unit == us[k];
  }

  /** A writer that packs a spatial and a temporal unit into xyzt_units gets them back on the
      axes: the spatial axes carry the spatial unit and the time axis the temporal one. */
  lemma AxesUnitsRoundTrip(rank: nat, space: string, time: string, xyzt: bv32, spacings: seq<Float>)
    requires rank <= 7 && |spacings| == rank && xyzt == SpaceCode(space) | TimeCode(time)
    requires space in {"meter", "mm", "micron", "unknown"}
    requires time in {"millisecs", "microsecs", "hertz", "ppm", "rad/sec", "unknown"}
    ensures forall k :: 0 <= k < rank && k < 3 ==> AxesOf(rank, xyzt, spacings)[k].unit == space
    ensures rank > 3 ==> AxesOf(rank, xyzt, spacings)[3].unit == time
  {
    UnitsRoundTrip(space, time);
    AxesDescribed(rank, xyzt, spacings);
  }

  /** Only the time axis has an offset, and it is toffset. */
  lemma OffsetOnTimeAxisOnly(rank: nat, toffset: Float, k: nat)
    requires k < rank
    ensures OffsetsOf(rank, toffset)[k].Offset? <==> k == 3
    ensures OffsetsOf(rank, toffset)[k].Offset? ==> OffsetsOf(rank, toffset)[k].at == toffset
  {
  }

  /** The test `sx != 1 || x1 != 0 || x3 != 0 || y0 != 0 || sy != 1 || y3 != 0` fails: the x
      and y rows of srow are those of the identity, ignoring the z column. NaN compares unequal
      to everything, so a NaN entry is never part of an identity. */
  predicate Identity2(srow: seq<Float>)
    requires |srow| == 12
  {
    IsOne(srow[0]) && IsZero(srow[1]) && IsZero(srow[3]) &&
    IsZero(srow[4]) && IsOne(srow[5]) && IsZero(srow[7])
  }

  /** The twelve-entry test of the 3-D branch fails: srow is the identity with no translation. */
  predicate Identity3(srow: seq<Float>)
    requires |srow| == 12
  {
    IsOne(srow[0]) && IsZero(srow[1]) && IsZero(srow[2]) && IsZero(srow[3]) &&
    IsZero(srow[4]) && IsOne(srow[5]) && IsZero(srow[6]) && IsZero(srow[7]) &&
    IsZero(srow[8]) && IsZero(srow[9]) && IsOne(srow[10]) && IsZero(srow[11])
  }

  /** The entries of the 2-D affine space, in constructor order. */
  function Entries2(srow: seq<Float>): (e: seq<Float>)
    requires |srow| == 12
    ensures |e| == 6
  {
    [srow[0], srow[1], srow[3], srow[4], srow[5], srow[7]]
  }

  /** The space the code leaves in `cspace`: the 2-D test is followed by a plain `if` on the
      3-D test whose `else` assigns the linear space, so the 2-D result is always replaced. */
  function SpaceAsWritten(rank: nat, srow: seq<Float>, scales: seq<Float>, offsets: seq<Offset>): (s: Space)
    requires |srow| == 12
    ensures !s.Affine2d?
    ensures s.Affine3d? <==> rank == 3 && !Identity3(srow)
  {
    if rank == 3 && !Identity3(srow) then Affine3d(srow) else LinearNd(scales, offsets)
  }

  /** Every entry converts. */
  predicate AllFinite(s: seq<Float>)
  {
    forall i :: 0 <= i < |s| ==> Finite(s[i])
  }

  /** The conversions of the axis loop succeed: every spacing below the rank and, from rank 4
      on, toffset are finite. */
  predicate ScalesValued(rank: nat, spacings: seq<Float>, toffset: Float)
    requires |spacings| == rank
  {
    (forall k :: 0 <= k < rank ==> Finite(spacings[k])) && (rank > 3 ==> Finite(toffset))
  }

  /** The conversions of the affine constructor the rank selects succeed: the six entries of the
      2-D space, or all twelve of the 3-D one, are finite when that branch is taken. The 2-D
      arguments are converted even though the space they make is then replaced. */
  predicate AffineValued(rank: nat, srow: seq<Float>)
    requires |srow| == 12
  {
    (rank == 2 && !Identity2(srow) ==> AllFinite(Entries2(srow))) &&
    (rank == 3 && !Identity3(srow) ==> AllFinite(srow))
  }

  /** The choice as the statements make it: a first assignment for rank 2, then the 3-D test and
      its `else`. A conversion that throws ends the choice. */
  method ChooseSpace(rank: nat, srow: seq<Float>, scales: seq<Float>, offsets: seq<Offset>)
    returns (res: Result<Space>)
    requires |srow| == 12
    ensures res.Success? <==> AffineValued(rank, srow)
    ensures res.Failure? ==> res.error == NotFinite
    ensures res.Success? ==> res.value == SpaceAsWritten(rank, srow, scales, offsets) && !res.value.Affine2d?
  {
    var cspace: Space;
    if rank == 2 && !Identity2(srow) {
      if !AllFinite(Entries2(srow)) {
        return Failure(NotFinite);
      }
      cspace := Affine2d(Entries2(srow));
    }
    if rank == 3 && !Identity3(srow) {
      if !AllFinite(srow) {
        return Failure(NotFinite);
      }
      cspace := Affine3d(srow);
    } else {
      cspace := LinearNd(scales, offsets);
    }
    res := Success(cspace);
  }

  /** The evident intent: a 2-D grid with a non-identity transform gets the 2-D affine space, a
      3-D grid with a non-identity transform the 3-D one, and everything else the linear space. */
  function SpaceOf(rank: nat, srow: seq<Float>, scales: seq<Float>, offsets: seq<Offset>): Space
    requires |srow| == 12
  {
    if rank == 2 && !Identity2(srow) then Affine2d(Entries2(srow))
    else if rank == 3 && !Identity3(srow) then Affine3d(srow)
    else LinearNd(scales, offsets)
  }

  /** Which space each grid gets: an affine space exactly when the rank is 2 or 3 and the
      transform of those axes is not the identity, carrying that transform; otherwise the
      linear space built from the axis scales and offsets. */
  lemma SpaceChoice(rank: nat, srow: seq<Float>, scales: seq<Float>, offsets: seq<Offset>)
    requires |srow| == 12
    ensures SpaceOf(rank, srow, scales, offsets).Affine2d? <==> rank == 2 && !Identity2(srow)
    ensures SpaceOf(rank, srow, scales, offsets).Affine3d? <==> rank == 3 && !Identity3(srow)
    ensures SpaceOf(rank, srow, scales, offsets).LinearNd? ==>
      SpaceOf(rank, srow, scales, offsets) == LinearNd(scales, offsets)
    ensures SpaceOf(rank, srow, scales, offsets).Affine2d? ==>
      SpaceOf(rank, srow, scales, offsets).entries == [srow[0], srow[1], srow[3], srow[4], srow[5], srow[7]]
    ensures SpaceOf(rank, srow, scales, offsets).Affine3d? ==> SpaceOf(rank, srow, scales, offsets).entries == srow
  {
  }

  /** An identity transform never yields an affine space: a 2-D grid whose x and y rows are the
      identity and a 3-D grid whose srow is the identity are described by their scales alone. */
  lemma IdentityIsLinear(rank: nat, srow: seq<Float>, scales: seq<Float>, offsets: seq<Offset>)
    requires |srow| == 12
    requires (rank == 2 && Identity2(srow)) || (rank == 3 && Identity3(srow))
    ensures SpaceOf(rank, srow, scales, offsets) == LinearNd(scales, offsets)
  {
  }

  /** The code as written agrees with the intent everywhere except on a 2-D grid with a
      non-identity transform, where the 2-D affine space is lost and the linear one returned. */
  lemma AsWrittenAgrees(rank: nat, srow: seq<Float>, scales: seq<Float>, offsets: seq<Offset>)
    requires |srow| == 12
    ensures !SpaceAsWritten(rank, srow, scales, offsets).Affine2d?
    ensures rank != 2 || Identity2(srow) ==> SpaceAsWritten(rank, srow, scales, offsets) == SpaceOf(rank, srow, scales, offsets)
    ensures rank == 2 && !Identity2(srow) ==>
      SpaceAsWritten(rank, srow, scales, offsets) == LinearNd(scales, offsets) != SpaceOf(rank, srow, scales, offsets)
  {
  }

  /** A concrete case: a 2-D image with sx = 2.0 (the binary32 pattern 0x4000_0000) and every
      other entry zero. The intent is a 2-D affine space; the code gives the linear one. */
  lemma DoubledSpacingLost(scales: seq<Float>, offsets: seq<Offset>)
    ensures var srow := [F32(0x4000_0000)] + seq(11, _ => F32(0));
      SpaceAsWritten(2, srow, scales, offsets) == LinearNd(scales, offsets) &&
      SpaceOf(2, srow, scales, offsets) == Affine2d([F32(0x4000_0000), F32(0), F32(0), F32(0), F32(0), F32(0)])
  {
    var srow := [F32(0x4000_0000)] + seq(11, _ => F32(0));
    assert !IsOne(srow[0]);
  }
}
