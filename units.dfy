/** The axis units `open` derives from the packed xyzt_units field: the low three bits give the
    spatial unit, bits 3 to 5 the temporal one. */
module Units {
  /** Unit of the three spatial axes, from xyzt_units & 0x7. */
  function SpaceUnit(xyzt: bv32): (u: string)
    ensures u in {"meter", "mm", "micron", "unknown"}
  {
    var v := xyzt & 0x7;
    if v == 1 then "meter"
    else if v == 2 then "mm"
    else if v == 3 then "micron"
    else "unknown"
  }

  /** Unit of the time axis, from xyzt_units & 0x38. The source also tests the value 6 for
      "secs"; after the mask that value cannot occur, so seconds are reported as "unknown". */
  function TimeUnit(xyzt: bv32): (u: string)
    ensures u != "secs"
    ensures u in {"millisecs", "microsecs", "hertz", "ppm", "rad/sec", "unknown"}
  {
    var v := xyzt & 0x38;
    if v == 6 then "secs"
    else if v == 16 then "millisecs"
    else if v == 24 then "microsecs"
    else if v == 32 then "hertz"
    else if v == 40 then "ppm"
    else if v == 48 then "rad/sec"
    else "unknown"
  }

  /** Units of the first `rank` axes: x, y, z spatial, t temporal, the rest unknown. */
  function AxisUnits(rank: nat, xyzt: bv32): (us: seq<string>)
    requires rank <= 7
    ensures |us| == rank
    ensures forall k :: 0 <= k < rank && k < 3 ==> us[k] == SpaceUnit(xyzt)
    ensures rank > 3 ==> us[3] == TimeUnit(xyzt)
    ensures forall k :: 4 <= k < rank ==> us[k] == "unknown"
  {
    var all := [SpaceUnit(xyzt), SpaceUnit(xyzt), SpaceUnit(xyzt), TimeUnit(xyzt), "unknown", "unknown", "unknown"];
    all[..rank]
  }

  /** The space code a writer stores for each spatial unit name, and the time code for each
      temporal one (the NIfTI codes 1, 2, 3 and 16, 24, 32, 40, 48). */
  function SpaceCode(u: string): bv32
  {
    if u == "meter" then 1 else if u == "mm" then 2 else if u == "micron" then 3 else 0
  }

  function TimeCode(u: string): bv32
  {
    if u == "millisecs" then 16 else if u == "microsecs" then 24 else if u == "hertz" then 32
    else if u == "ppm" then 40 else if u == "rad/sec" then 48 else 0
  }

  /** The two units are packed independently: each decodes from the combined byte unchanged. */
  lemma UnitsRoundTrip(space: string, time: string)
    requires space in {"meter", "mm", "micron", "unknown"}
    requires time in {"millisecs", "microsecs", "hertz", "ppm", "rad/sec", "unknown"}
    ensures SpaceUnit(SpaceCode(space) | TimeCode(time)) == space
    ensures TimeUnit(SpaceCode(space) | TimeCode(time)) == time
  {
  }

  /** NIfTI's code for seconds, 8, is not among the values compared, so it reads as "unknown". */
  lemma SecondsReadAsUnknown()
    ensures TimeUnit(8) == "unknown"
  {
  }

  /** Only the low six bits matter: bits above them never change either unit. */
  lemma HighBitsIgnored(xyzt: bv32)
    ensures SpaceUnit(xyzt) == SpaceUnit(xyzt & 0x3F)
    ensures TimeUnit(xyzt) == TimeUnit(xyzt & 0x3F)
  {
    assert (xyzt & 0x3F) & 0x7 == xyzt & 0x7;
    assert (xyzt & 0x3F) & 0x38 == xyzt & 0x38;
  }
}
