# NIfTI-1 / NIfTI-2 decoder model

A Dafny model of `Nifti.open` from zorbage-nifti: the decoder that reads a NIfTI-1 (348-byte
header) or NIfTI-2 (540-byte header) image, in either byte order, into a zorbage grid.

The model follows the decoder step by step:

- The first int routes to a header parser. It must be 348 or 540, read either way round.
- The rank field decides the byte order. It is read unswapped; if it lies outside [0, 7] it is
  swapped, and every later multi-byte read is swapped too.
- The header fields are read in file order. They are shaped to the rank: `dims[i]` is dim[i+1]
  and `spacings[i]` is pixdim[i+1].
- The extension chain is skipped.
- The values are taken either from the same bytes or from the companion `.img` bytes.
- The grid is filled in one of two ways. Type code 1 uses packed bits. Every other code reads
  one element at a time through `value` and `readValue`. Axes 0–2 are flipped according to the
  signs of sx, sy and sz.
- The grid is rescaled when scl_slope is not 0.
- The grid gets its axes, its coordinate space and three metadata entries.

Every failure on the way ends in an empty bundle. An unknown size and a bad NIfTI-2 magic return
one directly; every other failure reaches the catch-all of `open`, which returns one. The
failures are a short read, an unknown size or type code, a bad NIfTI-2 magic, a missing companion
file, and a NaN or infinite double handed to `BigDecimal.valueOf`.

Modelling choices:

- **Input.** A `seq<bv8>` read through a `Reader` class with a cursor, or the same bytes as pure
  functions of absolute offsets. Each sequential reader is proved equal to the offset-based
  definition.
- **Java integers.** short, int and long are `bv16`, `bv32` and `bv64`, with explicit signed views.
- **Floats.** Bit patterns that are only copied and compared. The comparisons are defined on the
  bits (`< 0`, `> 0`, `== 0`, `== 1`, NaN).
- **The grid.** A class with a map from index tuples to elements. The iteration order puts axis 0
  fastest.
- **Rescaled values.** Symbolic `x * slope + intercept` terms that record the arithmetic used.

Behaviour modelled as written, with lemmas that state the consequence:

- The time-unit test for 6 (seconds) can never hold under mask 0x38: `Units.SecondsReadAsUnknown`.
- With packed bits, the bit number is taken from the *oriented* axis-0 index.
  - With axis 0 flipped, the first bits come from the initial zero bucket before any byte is read:
    `Bits.ReversedFirstPass`, `Bits.ReversedRowExample`.
  - Each row starts a new byte: `Bits.PackedGrid`.
- Only the first four magic bytes of a NIfTI-2 header are checked: `Header.Nifti2Outcome`.
- A bad NIfTI-1 magic falls back to ANALYZE mode, with `is_analyze` and `two_files` set:
  `Header.Nifti1Magic`.
- An extension size below 8 skips nothing. The subtraction `esize - 8` wraps for the smallest int:
  `Extensions.SkipCountWraps`.
- The quad complex rescale adds the intercept to the real part only: `Rescale.ComplexIntercepts`.
- Only axis 3 gets an offset; the others stay null: `Coords.OffsetOnTimeAxisOnly`.
- A 2-D grid never keeps its 2-D affine space, because the 3-D test's `else` replaces it:
  `Nifti.FinishedSpace`.
- The BigDecimal complex rescale stores both scaled parts with `setR`: `Rescale.ChpRealPartLost`.
  No type code yields that kind, so `open` never takes this branch.
- `BigDecimal.valueOf` throws for NaN and the infinities. The decode is therefore refused for such
  a spacing, for such a toffset from rank 4 on, for such an entry of a chosen affine space, and on
  a non-empty grid for such a slope or intercept in the BigDecimal rescales and such an intercept
  in the quad rescales:
  `Nifti.NonFiniteRefused`.
- vox_offset is read but never used. The values start right after the extension chain.

Two places where the code evidently does not do what was meant are logged under Findings. The
model uses the as-written behaviour throughout and proves the intended behaviour beside it.

## Model

| member | source | states |
|---|---|---|
| ByteOrder.Reverse | src/main/java/nom/bdezonia/zorbage/nifti/Nifti.java:1430-1454 | byte k of the reversal is byte n-1-k of the input, length kept |
| ByteOrder.SwapShort | src/main/java/nom/bdezonia/zorbage/nifti/Nifti.java:1430-1434 | the shifts and masks of swapShort; reversal and involution are proved by SwapShortBytes and SwapShortInvolution |
| ByteOrder.SwapInt | src/main/java/nom/bdezonia/zorbage/nifti/Nifti.java:1436-1442 | the shifts and masks of swapInt; see SwapIntBytes and SwapIntInvolution |
| ByteOrder.SwapLong | src/main/java/nom/bdezonia/zorbage/nifti/Nifti.java:1444-1454 | the shifts and masks of swapLong; see SwapLongBytes and SwapLongInvolution |
| ByteOrder.SwapShortBytes | src/main/java/nom/bdezonia/zorbage/nifti/Nifti.java:1430-1434 | the big-endian bytes of swapShort(x) are those of x reversed |
| ByteOrder.SwapIntBytes | src/main/java/nom/bdezonia/zorbage/nifti/Nifti.java:1436-1442 | the bytes of swapInt(x) are those of x reversed |
| ByteOrder.SwapLongBytes | src/main/java/nom/bdezonia/zorbage/nifti/Nifti.java:1444-1454 | the bytes of swapLong(x) are those of x reversed |
| ByteOrder.SwapShortInvolution | src/main/java/nom/bdezonia/zorbage/nifti/Nifti.java:1430-1434 | swapShort(swapShort(x)) == x |
| ByteOrder.SwapIntInvolution | src/main/java/nom/bdezonia/zorbage/nifti/Nifti.java:1436-1442 | swapInt(swapInt(x)) == x |
| ByteOrder.SwapLongInvolution | src/main/java/nom/bdezonia/zorbage/nifti/Nifti.java:1444-1454 | swapLong(swapLong(x)) == x |
| ByteOrder.Be16Bytes | src/main/java/nom/bdezonia/zorbage/nifti/Nifti.java:1360-1364 | the big-endian read of two bytes gives back those bytes when written out |
| ByteOrder.Be32Bytes | src/main/java/nom/bdezonia/zorbage/nifti/Nifti.java:1366-1370 | the same for the four-byte read |
| ByteOrder.Be64Bytes | src/main/java/nom/bdezonia/zorbage/nifti/Nifti.java:1372-1376 | the same for the eight-byte read |
| ByteOrder.Signed16 | src/main/java/nom/bdezonia/zorbage/nifti/Nifti.java:192-193 | the Java short value lies in [-2^15, 2^15) and is negative exactly when the top bit is set |
| ByteOrder.Signed32 | src/main/java/nom/bdezonia/zorbage/nifti/Nifti.java:687 | the Java int value is negative exactly when the top bit is set |
| ByteOrder.Signed64 | src/main/java/nom/bdezonia/zorbage/nifti/Nifti.java:456-457 | the Java long value is negative exactly when the top bit is set |
| Floats.Finite | src/main/java/nom/bdezonia/zorbage/nifti/Nifti.java:821-878 | what `BigDecimal.valueOf(double)` accepts: the exponent bits are not all ones, so neither NaN nor an infinity; related to NaN, 0, 1 and the signs by FiniteCases |
| Floats.FiniteCases | src/main/java/nom/bdezonia/zorbage/nifti/Nifti.java:821-865 | NaN is never finite, 0 and 1 always are, and what is neither finite nor NaN is an infinity of either sign |
| Floats.Trichotomy | src/main/java/nom/bdezonia/zorbage/nifti/Nifti.java:735-741 | a float is negative, zero, positive or NaN, never both negative and positive; zero and NaN pass no sign test; 1 is positive |
| Stream.Skip | src/main/java/nom/bdezonia/zorbage/nifti/Nifti.java:687-689 | skipping n bytes succeeds exactly when n <= 0 or n bytes remain, and stays within the input |
| Stream.ShortAtBytes | src/main/java/nom/bdezonia/zorbage/nifti/Nifti.java:1360-1364 | readShort gives the value whose bytes are the two read, reversed when swapping |
| Stream.IntAtBytes | src/main/java/nom/bdezonia/zorbage/nifti/Nifti.java:1366-1370 | the same for readInt |
| Stream.LongAtBytes | src/main/java/nom/bdezonia/zorbage/nifti/Nifti.java:1372-1376 | the same for readLong |
| Stream.SwappedShortAgrees | src/main/java/nom/bdezonia/zorbage/nifti/Nifti.java:1360-1364 | a swapped short read equals an unswapped read of the reversed bytes |
| Stream.SwappedIntAgrees | src/main/java/nom/bdezonia/zorbage/nifti/Nifti.java:1378-1385 | the same for ints, and so for readFloat's swapInt path |
| Stream.SwappedLongAgrees | src/main/java/nom/bdezonia/zorbage/nifti/Nifti.java:1387-1394 | the same for longs, and so for readDouble's swapLong path |
| Stream.ByteChar | src/main/java/nom/bdezonia/zorbage/nifti/Nifti.java:1400 | `(char)` of a byte is the NUL character exactly when the byte is 0 |
| Stream.CString | src/main/java/nom/bdezonia/zorbage/nifti/Nifti.java:1396-1409 | the text before the first zero byte, never longer than the field; its shape is given by CStringShape |
| Stream.CStringShape | src/main/java/nom/bdezonia/zorbage/nifti/Nifti.java:1396-1409 | the string is at most maxChars long, holds no NUL, is the characters of a prefix of the field, and is followed by a 0 byte when shorter |
| Stream.CStringOfPadded | src/main/java/nom/bdezonia/zorbage/nifti/Nifti.java:1396-1409 | zero-free text followed by zero padding (or nothing) reads back as that text |
| Stream.CStringStep | src/main/java/nom/bdezonia/zorbage/nifti/Nifti.java:1399-1407 | one iteration of the `done`/append loop keeps the builder equal to the string of the bytes seen |
| Stream.Reader.constructor | src/main/java/nom/bdezonia/zorbage/nifti/Nifti.java:123-127 | a stream over the bytes at position 0 |
| Stream.Reader.ReadByte | src/main/java/nom/bdezonia/zorbage/nifti/Nifti.java:1356-1358 | the next byte and one step on, or Truncated at the end |
| Stream.Reader.ReadShort | src/main/java/nom/bdezonia/zorbage/nifti/Nifti.java:1360-1364 | the short at the cursor, swapped when asked, two steps on; Truncated when fewer bytes remain |
| Stream.Reader.ReadInt | src/main/java/nom/bdezonia/zorbage/nifti/Nifti.java:1366-1370 | the same for four bytes |
| Stream.Reader.ReadLong | src/main/java/nom/bdezonia/zorbage/nifti/Nifti.java:1372-1376 | the same for eight bytes |
| Stream.Reader.ReadFloat | src/main/java/nom/bdezonia/zorbage/nifti/Nifti.java:1378-1385 | the binary32 bit pattern at the cursor, swapped when asked |
| Stream.Reader.ReadDouble | src/main/java/nom/bdezonia/zorbage/nifti/Nifti.java:1387-1394 | the binary64 bit pattern at the cursor, swapped when asked |
| Stream.Reader.Discard | src/main/java/nom/bdezonia/zorbage/nifti/Nifti.java:687-689 | a readByte loop of n steps: n bytes on, nothing for n <= 0, Truncated when fewer remain; agrees with Skip |
| Stream.Reader.ReadString | src/main/java/nom/bdezonia/zorbage/nifti/Nifti.java:1396-1409 | consumes exactly maxChars bytes and returns the text before the first zero byte |
| Stream.Reader.ReadFloat128 | src/main/java/nom/bdezonia/zorbage/nifti/Nifti.java:1411-1428 | refuses a buffer that is not 16 long; otherwise fills it with the next 16 bytes, reversed when swapping, 16 steps on |
| Units.SpaceUnit | src/main/java/nom/bdezonia/zorbage/nifti/Nifti.java:298-302 | the space unit is meter, mm, micron or unknown |
| Units.TimeUnit | src/main/java/nom/bdezonia/zorbage/nifti/Nifti.java:303-311 | the time unit is one of the five named ones or unknown, and never secs |
| Units.AxisUnits | src/main/java/nom/bdezonia/zorbage/nifti/Nifti.java:312-320 | axes 0-2 carry the space unit, axis 3 the time unit, axes 4-6 unknown |
| Units.UnitsRoundTrip | src/main/java/nom/bdezonia/zorbage/nifti/Nifti.java:296-311 | packing a space and a time unit into the code and decoding it gives both back |
| Units.SecondsReadAsUnknown | src/main/java/nom/bdezonia/zorbage/nifti/Nifti.java:304-305 | example: the NIfTI code for seconds (8) decodes as unknown |
| Units.HighBitsIgnored | src/main/java/nom/bdezonia/zorbage/nifti/Nifti.java:299-304 | only the low six bits of xyzt_units matter |
| Header.RouteOf | src/main/java/nom/bdezonia/zorbage/nifti/Nifti.java:172-174 | the size test of either parser, in either byte order; exactness is given by RouteExact |
| Header.DecideRank16 | src/main/java/nom/bdezonia/zorbage/nifti/Nifti.java:192-196 | an unswapped rank is one in [0, 7] as read; otherwise the swapped short; the rank fits a short |
| Header.DecideRank64 | src/main/java/nom/bdezonia/zorbage/nifti/Nifti.java:456-460 | an unswapped rank is one in [0, 7] as read; otherwise the swapped long |
| Header.RouteExact | src/main/java/nom/bdezonia/zorbage/nifti/Nifti.java:172-174 | exactly 348 and its byte swap select NIfTI-1; exactly 540 and its swap select NIfTI-2 |
| Header.RouteOrderFree | src/main/java/nom/bdezonia/zorbage/nifti/Nifti.java:418 | the route is the same in either byte order |
| Header.RankDecision16 | src/main/java/nom/bdezonia/zorbage/nifti/Nifti.java:192-196 | a rank of 0-7 in file order is kept unswapped; a swapped rank of 1-7 is recognised and sets swapBytes; rank 0 reads as unswapped |
| Header.RankDecision64 | src/main/java/nom/bdezonia/zorbage/nifti/Nifti.java:456-460 | the same for the NIfTI-2 long rank |
| Header.SignExtend | src/main/java/nom/bdezonia/zorbage/nifti/Nifti.java:292-299 | widening the byte keeps its low eight bits |
| Header.Assemble | src/main/java/nom/bdezonia/zorbage/nifti/Nifti.java:205-265 | the shaped header has rank entries of dims and spacings, dim[i+1] and pixdim[i+1], and 12 srow entries |
| Header.Nifti1Header | src/main/java/nom/bdezonia/zorbage/nifti/Nifti.java:174-417 | the NIfTI-1 layout: the rank at 40 decides the byte order, a rank outside [0, 7] in both orders is refused, and the fields are read at their offsets; acceptance and the magic are stated by Nifti1Outcome and Nifti1Magic |
| Header.Nifti1Outcome | src/main/java/nom/bdezonia/zorbage/nifti/Nifti.java:174-417 | the NIfTI-1 parse succeeds exactly when 348 bytes are there and the decided rank is in [0, 7] |
| Header.Nifti1Magic | src/main/java/nom/bdezonia/zorbage/nifti/Nifti.java:396-416 | two files unless the magic is "n+1\0"; ANALYZE exactly when it is neither "n+1\0" nor "ni1\0" |
| Header.Nifti2Header | src/main/java/nom/bdezonia/zorbage/nifti/Nifti.java:418-660 | the NIfTI-2 layout: the magic is checked first, datatype and bitpix are read before the rank decides the byte order; acceptance, the magic and the late swap are stated by Nifti2Outcome, Nifti2Magic and Nifti2TypeOrder |
| Header.LateSwap | src/main/java/nom/bdezonia/zorbage/nifti/Nifti.java:488-491 | datatype and bitpix are swapped after the rank decided the byte order; Nifti2TypeOrder proves this equals reading them in the final order |
| Header.Nifti2Outcome | src/main/java/nom/bdezonia/zorbage/nifti/Nifti.java:426-449 | a bad 4-byte NIfTI-2 magic is refused as BadMagic; the parse succeeds exactly with a good magic, 540 bytes and a rank in [0, 7] |
| Header.Nifti2Magic | src/main/java/nom/bdezonia/zorbage/nifti/Nifti.java:435-442 | NIfTI-2 is never ANALYZE; two files exactly for "ni2\0" |
| Header.Nifti2TypeOrder | src/main/java/nom/bdezonia/zorbage/nifti/Nifti.java:487-491 | data_type and bitpix, read before the decision, end up swapped exactly when swapBytes is set |
| Header.HeaderOf | src/main/java/nom/bdezonia/zorbage/nifti/Nifti.java:172-673 | an unrecognised size is refused with that size; a header is well shaped and its version agrees with the route |
| HeaderReader.ReadShorts | src/main/java/nom/bdezonia/zorbage/nifti/Nifti.java:197-203 | n successive readShort calls return the shorts at the cursor, or Truncated |
| HeaderReader.ReadInts | src/main/java/nom/bdezonia/zorbage/nifti/Nifti.java:334-336 | n successive readInt calls return the ints at the cursor, or Truncated |
| HeaderReader.ReadLongs | src/main/java/nom/bdezonia/zorbage/nifti/Nifti.java:461-467 | n successive readLong calls return the longs at the cursor, or Truncated |
| HeaderReader.ReadFloats | src/main/java/nom/bdezonia/zorbage/nifti/Nifti.java:249-256 | n successive readFloat calls return the floats at the cursor, or Truncated |
| HeaderReader.ReadDoubles | src/main/java/nom/bdezonia/zorbage/nifti/Nifti.java:504-511 | n successive readDouble calls return the doubles at the cursor, or Truncated |
| HeaderReader.ReadMagic | src/main/java/nom/bdezonia/zorbage/nifti/Nifti.java:426-433 | n readByte calls return the next n bytes, or Truncated |
| HeaderReader.ReadLabels | src/main/java/nom/bdezonia/zorbage/nifti/Nifti.java:338-340 | description (80 bytes) then aux_file (24 bytes), as text |
| HeaderReader.ReadPrefix1 | src/main/java/nom/bdezonia/zorbage/nifti/Nifti.java:182-221 | offsets 4-56: the rank decision and the seven dims |
| HeaderReader.ReadTypes1 | src/main/java/nom/bdezonia/zorbage/nifti/Nifti.java:223-243 | offsets 56-76: datatype and bitpix |
| HeaderReader.ReadScaling1 | src/main/java/nom/bdezonia/zorbage/nifti/Nifti.java:249-279 | offsets 76-120: pixdim, scl_slope, scl_inter |
| HeaderReader.ReadTiming1 | src/main/java/nom/bdezonia/zorbage/nifti/Nifti.java:284-336 | offsets 120-148: xyzt_units widened with its sign, and toffset |
| HeaderReader.ReadAffine1 | src/main/java/nom/bdezonia/zorbage/nifti/Nifti.java:345-377 | offsets 252-328: the 12 srow values at offset 280 |
| HeaderReader.ReadEnding1 | src/main/java/nom/bdezonia/zorbage/nifti/Nifti.java:392-399 | offsets 328-348: intent_name and the magic |
| HeaderReader.ReadNifti1 | src/main/java/nom/bdezonia/zorbage/nifti/Nifti.java:174-417 | the NIfTI-1 branch yields the offset-based header and ends at byte 348 |
| HeaderReader.ReadPrefix2 | src/main/java/nom/bdezonia/zorbage/nifti/Nifti.java:451-485 | offsets 16-80: the rank decision and the seven dims |
| HeaderReader.ReadScaling2 | src/main/java/nom/bdezonia/zorbage/nifti/Nifti.java:498-534 | offsets 80-192: pixdim, scl_slope, scl_inter |
| HeaderReader.ReadTiming2 | src/main/java/nom/bdezonia/zorbage/nifti/Nifti.java:539-555 | offsets 192-240: toffset |
| HeaderReader.ReadAffine2 | src/main/java/nom/bdezonia/zorbage/nifti/Nifti.java:566-598 | offsets 344-496: the 12 srow values at offset 400 |
| HeaderReader.ReadEnding2 | src/main/java/nom/bdezonia/zorbage/nifti/Nifti.java:613-664 | offsets 496-540: xyzt_units and intent_name |
| HeaderReader.ReadBody2 | src/main/java/nom/bdezonia/zorbage/nifti/Nifti.java:487-664 | offsets 80-540 once the byte order is known |
| HeaderReader.ReadNifti2 | src/main/java/nom/bdezonia/zorbage/nifti/Nifti.java:418-665 | the NIfTI-2 branch yields the offset-based header and ends at byte 540 |
| HeaderReader.ReadHeader | src/main/java/nom/bdezonia/zorbage/nifti/Nifti.java:172-673 | the sequential header read equals HeaderOf and leaves the cursor at 348 or 540 |
| Extensions.SkipCount | src/main/java/nom/bdezonia/zorbage/nifti/Nifti.java:687 | `esize - 8` as a Java int: the plain difference unless it wraps, which SkipCountWraps exhibits |
| Extensions.ChainEnd | src/main/java/nom/bdezonia/zorbage/nifti/Nifti.java:675-692 | where the extension loop leaves the stream: within the input, right after a sentinel whose first byte is 0 |
| Extensions.SkipCountWraps | src/main/java/nom/bdezonia/zorbage/nifti/Nifti.java:687 | example: esize = -2^31 skips 2^31 - 8 bytes, because `esize - 8` wraps |
| Extensions.ExtensionEnd | src/main/java/nom/bdezonia/zorbage/nifti/Nifti.java:685-689 | an extension body ends at least 8 bytes on and within the input |
| Extensions.NextSentinel | src/main/java/nom/bdezonia/zorbage/nifti/Nifti.java:678-691 | one iteration moves forward; a sentinel whose first byte is 0 ends the chain 4 bytes on |
| Extensions.ChainEndStop | src/main/java/nom/bdezonia/zorbage/nifti/Nifti.java:692 | a 0 first sentinel byte ends the loop right after that sentinel |
| Extensions.ChainEndStep | src/main/java/nom/bdezonia/zorbage/nifti/Nifti.java:676-692 | a nonzero sentinel continues the loop after its extension |
| Extensions.EncodeLayout | src/main/java/nom/bdezonia/zorbage/nifti/Nifti.java:683-689 | an encoded extension is sentinel, esize, ecode and payload, and esize - 8 is the payload length |
| Extensions.LaidOutHead | src/main/java/nom/bdezonia/zorbage/nifti/Nifti.java:683-689 | each laid-out extension consumes esize + 4 bytes after its sentinel's start |
| Extensions.ChainAt | src/main/java/nom/bdezonia/zorbage/nifti/Nifti.java:675-692 | a chain of laid-out extensions ends 4 bytes past the chain |
| Extensions.EncodedIsLaidOut | src/main/java/nom/bdezonia/zorbage/nifti/Nifti.java:675-692 | an encoded chain followed by a stop sentinel is laid out as the loop reads it |
| Extensions.ChainRoundTrip | src/main/java/nom/bdezonia/zorbage/nifti/Nifti.java:675-692 | skipping an encoded chain and its stop sentinel lands exactly after them |
| Extensions.SkipExtension | src/main/java/nom/bdezonia/zorbage/nifti/Nifti.java:685-689 | the esize/ecode reads and the skip loop agree with ExtensionEnd |
| Extensions.SkipOne | src/main/java/nom/bdezonia/zorbage/nifti/Nifti.java:678-691 | one do-while iteration agrees with NextSentinel |
| Extensions.SkipExtensions | src/main/java/nom/bdezonia/zorbage/nifti/Nifti.java:675-692 | the do-while loop ends where ChainEnd says, or Truncated |
| Voxels.KindOf | src/main/java/nom/bdezonia/zorbage/nifti/Nifti.java:929-968 | exactly the 16 listed codes give a kind, whose code is the input; code 1 and all other codes are refused with distinct errors |
| Voxels.Code | src/main/java/nom/bdezonia/zorbage/nifti/Nifti.java:929-968 | the type code `value` dispatches on for each kind; KindOf and KindOfCode are its partners |
| Voxels.KindOfCode | src/main/java/nom/bdezonia/zorbage/nifti/Nifti.java:929-968 | every dispatched kind is reached from its own code |
| Voxels.Width | src/main/java/nom/bdezonia/zorbage/nifti/Nifti.java:970-1063 | bytes per element: 1, 2, 3, 4, 8, 16 or 32 |
| Voxels.QuadAt | src/main/java/nom/bdezonia/zorbage/nifti/Nifti.java:1411-1428 | a quad element takes 16 bytes |
| Voxels.VoxelAt | src/main/java/nom/bdezonia/zorbage/nifti/Nifti.java:970-1063 | the element readValue reads at an offset has the shape of its kind; DecodeEncode is its round trip |
| Voxels.DecodeEncode | src/main/java/nom/bdezonia/zorbage/nifti/Nifti.java:970-1063 | every element of a kind, written in the kind's byte layout, reads back as itself in Width bytes; complex values real then imaginary, colours R, G, B(, A) |
| Voxels.RealRoundTrip | src/main/java/nom/bdezonia/zorbage/nifti/Nifti.java:996-1046 | the same for float and complex float elements |
| Voxels.QuadRoundTrip | src/main/java/nom/bdezonia/zorbage/nifti/Nifti.java:1038-1050 | the same for quad elements, with the 16-byte reversal |
| Voxels.IntegerRoundTrip | src/main/java/nom/bdezonia/zorbage/nifti/Nifti.java:988-1037 | the same for 16-, 32- and 64-bit integer elements |
| Voxels.FloatRoundTrip | src/main/java/nom/bdezonia/zorbage/nifti/Nifti.java:1378-1394 | a float written in the stream's byte order reads back as itself |
| Voxels.ReadValue | src/main/java/nom/bdezonia/zorbage/nifti/Nifti.java:970-1063 | readValue reads the element at the cursor and moves Width bytes on, or Truncated |
| Voxels.ReadInteger | src/main/java/nom/bdezonia/zorbage/nifti/Nifti.java:984-1037 | the integer branches of readValue agree with VoxelAt |
| Voxels.ReadReal | src/main/java/nom/bdezonia/zorbage/nifti/Nifti.java:996-1046 | the float and complex branches, real before imaginary |
| Voxels.ReadColor | src/main/java/nom/bdezonia/zorbage/nifti/Nifti.java:1010-1060 | the colour branches, R, G, B and then A |
| Voxels.ReadQuad | src/main/java/nom/bdezonia/zorbage/nifti/Nifti.java:1038-1050 | the quad branches through readFloat128 |
| Indexing.Natural | src/main/java/nom/bdezonia/zorbage/nifti/Nifti.java:772-774 | the n-th index of the grid iteration has the grid's rank |
| Indexing.NaturalInBounds | src/main/java/nom/bdezonia/zorbage/nifti/Nifti.java:772-774 | every index the iteration visits is in bounds |
| Indexing.RankBounds | src/main/java/nom/bdezonia/zorbage/nifti/Nifti.java:772-774 | every in-bounds index has a position below the cell count |
| Indexing.RankNatural | src/main/java/nom/bdezonia/zorbage/nifti/Nifti.java:772-774 | the position of the n-th visited index is n |
| Indexing.NaturalRank | src/main/java/nom/bdezonia/zorbage/nifti/Nifti.java:772-774 | every in-bounds index is visited, at its position |
| Indexing.RankColumn | src/main/java/nom/bdezonia/zorbage/nifti/Nifti.java:772-774 | axis 0 varies fastest: the position mod dims[0] is the axis-0 index |
| Indexing.FlipsOf | src/main/java/nom/bdezonia/zorbage/nifti/Nifti.java:779-786 | the three sign tests on sx, sy and sz; see FlipsOfAxes |
| Indexing.FlipsOfAxes | src/main/java/nom/bdezonia/zorbage/nifti/Nifti.java:779-786 | only axes 0-2 below the rank can flip; ANALYZE inverts the sx test for a nonzero, non-NaN sx |
| Indexing.Orient | src/main/java/nom/bdezonia/zorbage/nifti/Nifti.java:779-787 | orientation keeps the rank |
| Indexing.OrientInvolution | src/main/java/nom/bdezonia/zorbage/nifti/Nifti.java:775-798 | unflipped axes are untouched, and orienting twice gives the index back |
| Indexing.OrientInBounds | src/main/java/nom/bdezonia/zorbage/nifti/Nifti.java:779-787 | `dims[k] - i - 1` keeps an index in bounds |
| Indexing.OrientNaturalInjective | src/main/java/nom/bdezonia/zorbage/nifti/Nifti.java:772-789 | two passes never write the same cell |
| Indexing.OrientNaturalOnto | src/main/java/nom/bdezonia/zorbage/nifti/Nifti.java:772-789 | every in-bounds cell is written by the pass at the position of its oriented index |
| Fill.Grid.constructor | src/main/java/nom/bdezonia/zorbage/nifti/Nifti.java:769-770 | a grid of the given dims and kind with no cells written |
| Fill.Grid.Set | src/main/java/nom/bdezonia/zorbage/nifti/Nifti.java:789 | `data.set(idx, type)` writes one cell and changes nothing else |
| Fill.WrittenStep | src/main/java/nom/bdezonia/zorbage/nifti/Nifti.java:773-799 | a pass writes a cell no earlier pass wrote, and keeps the written cells those of the passes so far |
| Fill.WrittenAll | src/main/java/nom/bdezonia/zorbage/nifti/Nifti.java:773-799 | after all passes exactly the in-bounds cells are written, each with the value of the pass at its oriented position |
| Fill.LaidStep | src/main/java/nom/bdezonia/zorbage/nifti/Nifti.java:788-789 | pass n writes value n into the cell its natural index orients to |
| Fill.LaidPrefix | src/main/java/nom/bdezonia/zorbage/nifti/Nifti.java:773-799 | the first n passes depend only on the first n values |
| Fill.LaidWritten | src/main/java/nom/bdezonia/zorbage/nifti/Nifti.java:773-799 | the cells of the first n passes are written once each |
| Fill.LaidAll | src/main/java/nom/bdezonia/zorbage/nifti/Nifti.java:773-799 | the completed loop covers every in-bounds cell and no other, each exactly once |
| Fill.SpanIsProduct | src/main/java/nom/bdezonia/zorbage/nifti/Nifti.java:788 | n elements of width w take n * w bytes |
| Fill.SpanMonotone | src/main/java/nom/bdezonia/zorbage/nifti/Nifti.java:788 | more elements never take fewer bytes |
| Fill.SpanFits | src/main/java/nom/bdezonia/zorbage/nifti/Nifti.java:788 | each of the first n elements ends within the first n widths |
| Fill.Offsets | src/main/java/nom/bdezonia/zorbage/nifti/Nifti.java:788 | one offset per pass |
| Fill.HoldsStep | src/main/java/nom/bdezonia/zorbage/nifti/Nifti.java:788-789 | writing the element read at an offset keeps every cell equal to the element at its recorded offset |
| Fill.PassHolds | src/main/java/nom/bdezonia/zorbage/nifti/Nifti.java:774-798 | one pass keeps the grid equal to the elements at the offsets of the passes so far |
| Fill.FillOffsets | src/main/java/nom/bdezonia/zorbage/nifti/Nifti.java:773-799 | after the loop every in-bounds cell has an offset, Rank(Orient(j)) widths after the start, and no other cell has one |
| Fill.LaidCell | src/main/java/nom/bdezonia/zorbage/nifti/Nifti.java:773-799 | per cell: written exactly when in bounds, with the value of the pass at its oriented position |
| Fill.HeldOne | src/main/java/nom/bdezonia/zorbage/nifti/Nifti.java:788-789 | a cell with a recorded offset holds the element there |
| Fill.HeldCell | src/main/java/nom/bdezonia/zorbage/nifti/Nifti.java:773-799 | after the loop cell j exists exactly when in bounds and holds the element at start + Rank(Orient(j)) widths |
| Fill.OrientIndex | src/main/java/nom/bdezonia/zorbage/nifti/Nifti.java:775-787 | the saved coordinates and the `idx.set` statements give the oriented index |
| Fill.RestoreIndex | src/main/java/nom/bdezonia/zorbage/nifti/Nifti.java:790-798 | the restore statements give back the natural index |
| Fill.FillStep | src/main/java/nom/bdezonia/zorbage/nifti/Nifti.java:774-798 | one pass reads the next element, writes it at the oriented index and restores the index |
| Fill.FillVoxels | src/main/java/nom/bdezonia/zorbage/nifti/Nifti.java:767-799 | the general fill loop: Truncated when the values are short, otherwise every cell holds the element at its offset and the cursor sits after the last element |
| Bits.BitOf | src/main/java/nom/bdezonia/zorbage/nifti/Nifti.java:748 | `(bucket & (1 << bitNum)) > 0` holds exactly when bit `bitNum` of the byte is 1 |
| Bits.BitPass | src/main/java/nom/bdezonia/zorbage/nifti/Nifti.java:744-749 | one pass: at bit number 0 a new byte is read into the bucket (or the read fails), and the bit of the bucket at the bit number is stored; see PassesReads, PassesBits and PassesFailed |
| Bits.Passes | src/main/java/nom/bdezonia/zorbage/nifti/Nifti.java:729-750 | the bit passes give one bit per pass and never move the cursor back |
| Bits.PassesNext | src/main/java/nom/bdezonia/zorbage/nifti/Nifti.java:729-750 | one more pass extends the run, and a failed run stays failed |
| Bits.PassesReads | src/main/java/nom/bdezonia/zorbage/nifti/Nifti.java:744-747 | the passes succeed exactly when the bytes hold one read per bit number 0, and the cursor moves by that many |
| Bits.PassesFailed | src/main/java/nom/bdezonia/zorbage/nifti/Nifti.java:746 | once a read fails, later passes do not change the failure |
| Bits.PassesBits | src/main/java/nom/bdezonia/zorbage/nifti/Nifti.java:748-749 | every value the bit fill writes is a bit |
| Bits.Axis0Oriented | src/main/java/nom/bdezonia/zorbage/nifti/Nifti.java:735-744 | the bit number comes from the oriented axis-0 index of the pass |
| Bits.Columns | src/main/java/nom/bdezonia/zorbage/nifti/Nifti.java:744 | one oriented axis-0 coordinate per pass |
| Bits.ColumnsNext | src/main/java/nom/bdezonia/zorbage/nifti/Nifti.java:744 | the columns grow by the next pass's coordinate |
| Bits.BitStep | src/main/java/nom/bdezonia/zorbage/nifti/Nifti.java:730-759 | one pass: orient, read a bucket when the bit number is 0, write the bit, restore |
| Bits.FillBits | src/main/java/nom/bdezonia/zorbage/nifti/Nifti.java:722-760 | the bit fill loop: no axis 0 is refused, Truncated when the passes run out of bytes, otherwise every cell holds its pass's bit |
| Bits.NextDivMod | src/main/java/nom/bdezonia/zorbage/nifti/Nifti.java:744 | the axis-0 column and row of the next pass |
| Bits.PackedNext | src/main/java/nom/bdezonia/zorbage/nifti/Nifti.java:744-747 | with no flip, a byte is read exactly at columns divisible by 8 |
| Bits.PackedPass | src/main/java/nom/bdezonia/zorbage/nifti/Nifti.java:744-748 | the bucket of each pass is the byte at its packed position |
| Bits.PackedBitsSnoc | src/main/java/nom/bdezonia/zorbage/nifti/Nifti.java:748 | the next bit is bit (column mod 8) of the byte at its packed position |
| Bits.RowColumns | src/main/java/nom/bdezonia/zorbage/nifti/Nifti.java:744 | one column per pass |
| Bits.Unreversed | src/main/java/nom/bdezonia/zorbage/nifti/Nifti.java:735-744 | without an axis-0 flip the columns are the natural axis-0 indices |
| Bits.PackedRows | src/main/java/nom/bdezonia/zorbage/nifti/Nifti.java:729-750 | unflipped passes succeed exactly when the bytes hold every row rounded up to whole bytes |
| Bits.PackedGrid | src/main/java/nom/bdezonia/zorbage/nifti/Nifti.java:722-760 | without an axis-0 flip, cell j holds bit (j[0] mod 8) of the byte at its row's packed position: each row starts a new byte, lowest bit first |
| Bits.PackedGridBits | src/main/java/nom/bdezonia/zorbage/nifti/Nifti.java:722-760 | the unflipped passes give one packed bit per cell |
| Bits.PackedBit | src/main/java/nom/bdezonia/zorbage/nifti/Nifti.java:748 | the bit of pass m is bit (m mod d mod 8) of its byte |
| Bits.ReversedFirstPass | src/main/java/nom/bdezonia/zorbage/nifti/Nifti.java:728-748 | with axis 0 flipped and dims[0]-1 not a multiple of 8, the first bit comes from the zero bucket and no byte is read |
| Bits.RowOfThree | src/main/java/nom/bdezonia/zorbage/nifti/Nifti.java:735-737 | example: a flipped row of three visits columns 2, 1, 0 |
| Bits.ReversedRowExample | src/main/java/nom/bdezonia/zorbage/nifti/Nifti.java:744-748 | example: byte 0xFF under a flipped row of three gives bits 0, 0, 1 |
| Bits.UnreversedRowExample | src/main/java/nom/bdezonia/zorbage/nifti/Nifti.java:744-748 | example: the same byte unflipped gives 1, 1, 1 |
| Rescale.Signed8 | src/main/java/nom/bdezonia/zorbage/nifti/Nifti.java:1160-1169 | the int8 value lies in [-128, 128) and is negative exactly when the top bit is set |
| Rescale.ArithOf | src/main/java/nom/bdezonia/zorbage/nifti/Nifti.java:1138-1354 | the arithmetic of each branch: BigDecimal for u64, i64 and the BigDecimal kinds, Float128 for the quad kinds, double otherwise; ScaleVoxel records it in each term and RefusingKinds states which kinds it makes refuse |
| Rescale.ValueOf | src/main/java/nom/bdezonia/zorbage/nifti/Nifti.java:1144-1336 | what `a.v()` gives for an element: the integer as its kind reads it, signed or unsigned, or the stored value; see IntegerRanges |
| Rescale.ScaleChpAsWritten | src/main/java/nom/bdezonia/zorbage/nifti/Nifti.java:1333-1336 | the BigDecimal complex branch as written: the scaled imaginary part ends in the real part and the imaginary part is not written; see ChpRealPartLost |
| Rescale.ScaleChp | src/main/java/nom/bdezonia/zorbage/nifti/Nifti.java:1333-1336 | the BigDecimal complex branch as intended: each part scaled in its own place; see ChpPartsKept |
| Rescale.ScaleRefuses | src/main/java/nom/bdezonia/zorbage/nifti/Nifti.java:1215-1336 | the per-element procedure meets `BigDecimal.valueOf` of a NaN or an infinity: slope or intercept in the BigDecimal branches, intercept in the quad branches; stated kind by kind by RefusingKinds |
| Rescale.PlacementOf | src/main/java/nom/bdezonia/zorbage/nifti/Nifti.java:1129-1354 | which branch of `scale` each kind takes; see PlacementWidens |
| Rescale.ScaleVoxel | src/main/java/nom/bdezonia/zorbage/nifti/Nifti.java:1129-1354 | one element as each branch's procedure computes it, the BigDecimal complex branch as written; see ComplexIntercepts and ChpRealPartLost |
| Rescale.ScaleCells | src/main/java/nom/bdezonia/zorbage/nifti/Nifti.java:1129-1354 | the procedure applied to every cell: the same cells, each rescaled; see ScaleCellsUpdate |
| Rescale.RefusingKinds | src/main/java/nom/bdezonia/zorbage/nifti/Nifti.java:1215-1314 | only the 64-bit integer, quad and BigDecimal branches can throw; u64/i64 throw exactly for a NaN or infinite slope or intercept, quad/cquad for such an intercept; finite values never throw |
| Rescale.Scale | src/main/java/nom/bdezonia/zorbage/nifti/Nifti.java:1129-1354 | a NaN or infinite value a branch converts, on a grid with an element, throws before anything is written; otherwise a new grid of the wider kind with every cell rescaled, the old one untouched, or the same grid rescaled in place, or colours returned untouched |
| Rescale.PlacementWidens | src/main/java/nom/bdezonia/zorbage/nifti/Nifti.java:1129-1354 | a new grid exactly for u1/u8/i8/u16/i16/u32/i32/f32/u64/i64/cf32; its kind is rescaled in place; only rgb/argb are unchanged |
| Rescale.SmallIntegersExact | src/main/java/nom/bdezonia/zorbage/nifti/Nifti.java:1138-1214 | every value of the kinds sent to binary64 lies within 2^53 |
| Rescale.WideIntegerBeyondDouble | src/main/java/nom/bdezonia/zorbage/nifti/Nifti.java:1215-1226 | example: a u64 value exceeds 2^53, so it goes to BigDecimal |
| Rescale.IntegerRanges | src/main/java/nom/bdezonia/zorbage/nifti/Nifti.java:1138-1238 | each integer kind's values lie in its Java range, signed or unsigned |
| Rescale.ComplexIntercepts | src/main/java/nom/bdezonia/zorbage/nifti/Nifti.java:1250-1314 | cf32 and cf64 add the intercept to both parts; cquad adds it to the real part only |
| Rescale.ScaleCellsUpdate | src/main/java/nom/bdezonia/zorbage/nifti/Nifti.java:1129-1354 | rescaling acts on each cell alone |
| Rescale.ColoursKept | src/main/java/nom/bdezonia/zorbage/nifti/Nifti.java:1341-1350 | colour grids keep every element |
| Rescale.ChpRealPartLost | src/main/java/nom/bdezonia/zorbage/nifti/Nifti.java:1327-1340 | as written, the real part of the result ignores the input's real part |
| Rescale.ChpPartsKept | src/main/java/nom/bdezonia/zorbage/nifti/Nifti.java:1327-1340 | corrected, each part is scaled on its own and both are kept |
| Coords.AxesOf | src/main/java/nom/bdezonia/zorbage/nifti/Nifti.java:815-853 | one axis per dimension |
| Coords.OffsetsOf | src/main/java/nom/bdezonia/zorbage/nifti/Nifti.java:815-837 | one offset entry per dimension |
| Coords.AxesDescribed | src/main/java/nom/bdezonia/zorbage/nifti/Nifti.java:818-853 | distinct axis names; x, y, z with the space unit; t with the time unit; scales are the spacings |
| Coords.AxesUnitsRoundTrip | src/main/java/nom/bdezonia/zorbage/nifti/Nifti.java:818-837 | packed space and time units come back on the spatial and time axes |
| Coords.OffsetOnTimeAxisOnly | src/main/java/nom/bdezonia/zorbage/nifti/Nifti.java:815-837 | only axis 3 has an offset, and it is toffset |
| Coords.Entries2 | src/main/java/nom/bdezonia/zorbage/nifti/Nifti.java:863-865 | the 2-D affine space takes six entries |
| Coords.Identity2 | src/main/java/nom/bdezonia/zorbage/nifti/Nifti.java:856-860 | the 2-D test fails: the x and y rows of srow are those of the identity, the z column ignored; IdentityIsLinear uses it |
| Coords.Identity3 | src/main/java/nom/bdezonia/zorbage/nifti/Nifti.java:867-872 | the 3-D test fails: srow is the identity without translation |
| Coords.ScalesValued | src/main/java/nom/bdezonia/zorbage/nifti/Nifti.java:821-852 | every spacing below the rank, and toffset from rank 4 on, is accepted by `BigDecimal.valueOf`; NonFiniteRefused states the consequence |
| Coords.AffineValued | src/main/java/nom/bdezonia/zorbage/nifti/Nifti.java:864-878 | every argument of the affine constructor the rank selects is accepted by `BigDecimal.valueOf`; ChooseSpace fails exactly when it does not hold |
| Coords.SpaceAsWritten | src/main/java/nom/bdezonia/zorbage/nifti/Nifti.java:855-882 | the space the statements leave: never the 2-D affine one; the 3-D one exactly at rank 3 with a non-identity transform |
| Coords.SpaceOf | src/main/java/nom/bdezonia/zorbage/nifti/Nifti.java:855-882 | the intended choice with `else if`, the corrected half of the Findings row; see SpaceChoice |
| Coords.ChooseSpace | src/main/java/nom/bdezonia/zorbage/nifti/Nifti.java:855-882 | the statements as written: fails when an argument of the affine constructor taken is NaN or infinite, otherwise leaves SpaceAsWritten, never a 2-D affine space |
| Coords.AsWrittenAgrees | src/main/java/nom/bdezonia/zorbage/nifti/Nifti.java:855-882 | as written agrees with the corrected choice except for rank 2 with a non-identity transform |
| Coords.DoubledSpacingLost | src/main/java/nom/bdezonia/zorbage/nifti/Nifti.java:855-882 | sx = 2.0 at rank 2 gives the linear space instead of the 2-D affine one |
| Coords.SpaceChoice | src/main/java/nom/bdezonia/zorbage/nifti/Nifti.java:855-882 | corrected: an affine space exactly for rank 2 or 3 with a non-identity transform, carrying it; otherwise the linear space |
| Coords.IdentityIsLinear | src/main/java/nom/bdezonia/zorbage/nifti/Nifti.java:855-882 | an identity transform gives the linear space |
| Nifti.FirstNegative | src/main/java/nom/bdezonia/zorbage/nifti/Nifti.java:725-770 | the first negative length, or the rank exactly when none is negative |
| Nifti.LayoutOf | src/main/java/nom/bdezonia/zorbage/nifti/Nifti.java:172-770 | header failures propagate; a layout has a skipped chain and non-negative dims; values from the companion at 0 or right after the chain; kind U1 for code 1, else the code's kind |
| Nifti.Metadata | src/main/java/nom/bdezonia/zorbage/nifti/Nifti.java:885-891 | the three keys added under their own names |
| Nifti.FlipsOfHeader | src/main/java/nom/bdezonia/zorbage/nifti/Nifti.java:779-786 | the flips stay within the rank |
| Nifti.Prepare | src/main/java/nom/bdezonia/zorbage/nifti/Nifti.java:122-770 | the statements before the fill fail as LayoutOf does, or give its header, kind and a fresh stream at its start |
| Nifti.FinalKind | src/main/java/nom/bdezonia/zorbage/nifti/Nifti.java:761-765 | the kind after the optional rescale; see SlopeDecidesRescale |
| Nifti.FinalCells | src/main/java/nom/bdezonia/zorbage/nifti/Nifti.java:761-765 | the cells after the optional rescale; see SlopeDecidesRescale |
| Nifti.Finish | src/main/java/nom/bdezonia/zorbage/nifti/Nifti.java:761-902 | rescale, axes, the as-written space and metadata, refused when a conversion meets NaN or an infinity; see SlopeDecidesRescale, FinishedSpace and NonFiniteRefused |
| Nifti.Decodable | src/main/java/nom/bdezonia/zorbage/nifti/Nifti.java:102-926 | the layout is accepted, the value bytes suffice, and every conversion after the fill is finite |
| Nifti.RescaleRefused | src/main/java/nom/bdezonia/zorbage/nifti/Nifti.java:761-804 | the `scl_slope != 0` rescale runs on a grid with an element and its procedure throws; RescaleStep and FillAndScale fail exactly then |
| Nifti.RescaleStep | src/main/java/nom/bdezonia/zorbage/nifti/Nifti.java:761-765 | the `scl_slope != 0` step after a fill: NotFinite when the rescale throws, otherwise the final kind and cells of the filled grid |
| Nifti.FillAndScale | src/main/java/nom/bdezonia/zorbage/nifti/Nifti.java:722-805 | the fill the code selects, then the rescale only when scl_slope is not 0, refused as NotFinite when the rescale throws |
| Nifti.Decode | src/main/java/nom/bdezonia/zorbage/nifti/Nifti.java:102-902 | the decode fails where the layout or the values fail, otherwise it is Finish of the cells each fill loop writes, a refused conversion included |
| Nifti.Open | src/main/java/nom/bdezonia/zorbage/nifti/Nifti.java:102-926 | one dataset exactly when the input decodes, none otherwise; the dataset is a successful Finish of filled cells |
| Nifti.UnrecognisedSizeRefused | src/main/java/nom/bdezonia/zorbage/nifti/Nifti.java:666-673 | an unknown first int ends the decode with that size, whatever follows |
| Nifti.CompanionUse | src/main/java/nom/bdezonia/zorbage/nifti/Nifti.java:694-711 | a single-file header ignores the companion; a two-file header needs it and reads from its start |
| Nifti.SlopeDecidesRescale | src/main/java/nom/bdezonia/zorbage/nifti/Nifti.java:761-765 | a zero slope leaves kind and cells alone; any other slope rescales every cell; cells, dims and axes keep their shape |
| Nifti.FinishedSpace | src/main/java/nom/bdezonia/zorbage/nifti/Nifti.java:855-882 | a finished dataset never has the 2-D affine space: the 3-D one for rank 3 with a non-identity transform, the linear one of the spacings and offsets otherwise, rank 2 included |
| Nifti.NonFiniteRefused | src/main/java/nom/bdezonia/zorbage/nifti/Nifti.java:815-882 | a NaN or infinite spacing, toffset from rank 4 on, entry of the 2-D or 3-D affine transform the rank selects, u64/i64 slope or intercept on a non-empty grid, or quad/cquad intercept on a non-empty grid ends the decode; with every header float finite, Finish succeeds |

## Left out

- File handles, buffered streams, opening the `.img` file and closing streams are not modelled. The
  data file is a byte sequence, and a missing companion is `None`. The file name, the `.img` name
  derivation and `setSource` are not modelled.
- The header metadata map is not modelled: the `NIFTI HEADER:` entries and `putAll`. Only the three
  entries added to the grid are modelled. Console printing is left out too.
- The numeric results of rescaling are not computed. They are kept as symbolic terms that record the
  arithmetic each branch uses (double, Float128, BigDecimal).
- The quad rescale's `scaleByDouble` with a NaN or infinite slope is a library call. It is not
  modelled as failing; only the `BigDecimal.valueOf` of the intercept is.
- Decoding 16 quad-precision bytes into a number is done by a library call. It is not modelled; the
  bytes are kept after the reversal.
- `mergeData`, `DimensionedStorage.allocate`, `GridIterator` and the coordinate-space constructors are
  foreign code. Storage is a map. The iteration order is taken as axis 0 fastest. A grid of rank 0
  is taken to hold one element, so the iterator makes one pass and a rank-0 decode reads one
  element. The allocator is
  assumed to refuse a negative length, and that refusal is modelled as `NegativeLength`.
- HeaderOf: a rank outside [0, 7] after the swap decision is refused as `RankOutOfRange`. The code
  goes on with arrays of `(int) numD` entries. In NIfTI-1 a negative rank gives a negative array
  length, which Java refuses too. In NIfTI-2 a negative long whose low 32 bits are not negative
  goes on: `Long.MIN_VALUE` casts to 0, every `numD > k` guard is false, and the image is read as
  one of rank 0. A NIfTI-2 rank above 7 fails when `(int) numD` is below 7: with a negative array
  length, or on the bounds of `dims` when it is 0 to 6. What happens otherwise depends on zero extents and on zorbage's handling of null axis
  units and scales, which is not part of this model.
- The header fields the decoder never uses are read (so that the cursor moves past them) but not
  kept: intent parameters, slice fields, calibration, quaternion and dim_info.
- Nifti.Open: the contract names the header and kind of the dataset, but gives its cells only
  through Decode's contract.
- Main.java, a file-chooser driver with an older copy of the parser, is not part of this model.

## Findings

| source | as written | input that shows it | evidently intended | confidence | as-written member | corrected member |
|---|---|---|---|---|---|---|
| src/main/java/nom/bdezonia/zorbage/nifti/Nifti.java:1335-1336 | the ComplexHighPrecision rescale stores the scaled real part with `setR`, then overwrites it with the scaled imaginary part, also via `setR`; the imaginary part is never set. The branch is latent: `value` yields no BigDecimal kind, and `scale` is only called on a freshly filled grid | any complex BigDecimal element whose real and imaginary parts differ, handed to `scale` directly | `setR` for the real part and `setI` for the imaginary part, as in the cf32 and cf64 branches | not executed | Rescale.ChpRealPartLost | Rescale.ChpPartsKept |
| src/main/java/nom/bdezonia/zorbage/nifti/Nifti.java:856-882 | the 3-D test is a plain `if` whose `else` assigns the linear space, so the 2-D affine space chosen just before is always replaced | rank 2 with sx = 2.0 and every other srow entry 0 | `else if`, so that a 2-D grid with a non-identity transform keeps its 2-D affine space | not executed | Coords.DoubledSpacingLost | Coords.SpaceChoice |
