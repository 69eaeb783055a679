/** The packed-bit fill loop of `open` (datatype code 1). Each pass orients the iterator's index
    like the general loop, then looks at the oriented axis-0 coordinate x: when x % 8 == 0 one
    byte is read from the value stream into `bucket`, and in every pass the cell gets bit x % 8 of
    `bucket`, counted from the least significant bit. `bucket` starts out as 0. */
module Bits {
  import opened Outcomes
  import opened Stream
  import opened Voxels
  import opened Indexing
  import opened Fill

  /** `(bucket & (1 << bitNum)) > 0` for a bit number below 8. The byte is sign-extended in the
      source before the mask is applied; for a mask below bit 8 that changes nothing. */
  function BitOf(b: bv8, i: nat): (on: bool)
    requires i < 8
    ensures on <==> (b >> i) & 1 == 1
  {
    b & (1 << i) != 0
  }

  /** The state of the loop between passes: the values written so far, in pass order, the byte
      held in `bucket`, and the cursor in the value stream. */
  datatype BitRun = BitRun(bits: seq<Voxel>, bucket: bv8, pos: nat)

  /** One pass at oriented axis-0 coordinate x. */
  function BitPass(bs: seq<bv8>, run: BitRun, x: nat): Result<BitRun>
  {
    if x % 8 == 0 then
      if run.pos < |bs| then Success(BitRun(run.bits + [Bit(BitOf(bs[run.pos], 0))], bs[run.pos], run.pos + 1))
      else Failure(Truncated)
    else Success(BitRun(run.bits + [Bit(BitOf(run.bucket, x % 8))], run.bucket, run.pos))
  }

  /** The loop over passes at the oriented axis-0 coordinates xs, in order, reading from byte
      `start` on. */
  function Passes(bs: seq<bv8>, start: nat, xs: seq<nat>): (r: Result<BitRun>)
    ensures r.Success? ==> |r.value.bits| == |xs| && start <= r.value.pos
    decreases |xs|
  {
    if xs == [] then Success(BitRun([], 0, start))
    else
      var run :- Passes(bs, start, xs[..|xs| - 1]);
      BitPass(bs, run, xs[|xs| - 1])
  }

  lemma PassesNext(bs: seq<bv8>, start: nat, xs: seq<nat>, x: nat)
    ensures Passes(bs, start, xs + [x]) ==
      if Passes(bs, start, xs).Success? then BitPass(bs, Passes(bs, start, xs).value, x)
      else Failure(Passes(bs, start, xs).error)
  {
    assert (xs + [x])[..|xs|] == xs;
  }

  /** How many of the passes read a byte: those at a coordinate that is a multiple of 8. */
  function Reads(xs: seq<nat>): nat
    decreases |xs|
  {
    if xs == [] then 0 else Reads(xs[..|xs| - 1]) + (if xs[|xs| - 1] % 8 == 0 then 1 else 0)
  }

  /** The passes succeed exactly when the stream holds a byte for every pass that reads one;
      they have then consumed exactly those bytes. Otherwise the loop fails with Truncated. */
  lemma {:induction false} PassesReads(bs: seq<bv8>, start: nat, xs: seq<nat>)
    requires start <= |bs|
    ensures Passes(bs, start, xs).Success? <==> start + Reads(xs) <= |bs|
    ensures Passes(bs, start, xs).Success? ==> Passes(bs, start, xs).value.pos == start + Reads(xs)
    ensures Passes(bs, start, xs).Failure? ==> Passes(bs, start, xs).error == Truncated
    decreases |xs|
  {
    if xs != [] {
      PassesReads(bs, start, xs[..|xs| - 1]);
    }
  }

  /** Once a pass fails, the loop has failed for good. */
  lemma {:induction false} PassesFailed(bs: seq<bv8>, start: nat, xs: seq<nat>, ys: seq<nat>)
    requires Passes(bs, start, xs).Failure?
    ensures Passes(bs, start, xs + ys) == Passes(bs, start, xs)
    decreases |ys|
  {
    if ys == [] {
      assert xs + ys == xs;
    } else {
      var front, last := ys[..|ys| - 1], ys[|ys| - 1];
      PassesFailed(bs, start, xs, front);
      PassesNext(bs, start, xs + front, last);
      assert xs + ys == (xs + front) + [last];
    }
  }

  /** Every value the loop produces is a bit. */
  lemma {:induction false} PassesBits(bs: seq<bv8>, start: nat, xs: seq<nat>)
    ensures Passes(bs, start, xs).Success? ==>
      forall m :: 0 <= m < |xs| ==> Passes(bs, start, xs).value.bits[m].Bit?
    decreases |xs|
  {
    if xs != [] {
      PassesBits(bs, start, xs[..|xs| - 1]);
    }
  }

  /** The oriented axis-0 coordinate of pass m: the iterator runs through each row of axis 0
      upwards, and a reversed axis 0 turns coordinate c into dims[0] - 1 - c (Axis0Oriented). */
  function Axis0(dims: seq<int>, f: Flips, m: nat): nat
    requires |dims| > 0
  {
    if dims[0] <= 0 then 0
    else if f.x then dims[0] - 1 - m % dims[0]
    else m % dims[0]
  }

  /** Axis0 is coordinate 0 of the oriented natural index of pass m. */
  lemma Axis0Oriented(dims: seq<int>, f: Flips, m: nat)
    requires NonNegative(dims) && |dims| > 0 && m < Count(dims)
    ensures dims[0] > 0 && Orient(dims, f, Natural(dims, m))[0] == Axis0(dims, f, m)
  {
    assert Count(dims) == dims[0] * Count(dims[1..]);
    assert Natural(dims, m)[0] == m % dims[0];
  }

  /** The oriented axis-0 coordinates of the first n passes over a grid. */
  function Columns(dims: seq<int>, f: Flips, n: nat): (xs: seq<nat>)
    requires |dims| > 0
    ensures |xs| == n
  {
    seq(n, m requires 0 <= m < n => Axis0(dims, f, m))
  }

  lemma ColumnsNext(dims: seq<int>, f: Flips, n: nat)
    requires |dims| > 0
    ensures Columns(dims, f, n + 1) == Columns(dims, f, n) + [Axis0(dims, f, n)]
  {
  }

  lemma ColumnsPrefix(dims: seq<int>, f: Flips, m: nat, n: nat)
    requires |dims| > 0 && m <= n
    ensures Columns(dims, f, n) == Columns(dims, f, m) + Columns(dims, f, n)[m..]
  {
    assert Columns(dims, f, n)[..m] == Columns(dims, f, m);
  }

  /** One pass of the packed-bit loop: the n-th index is oriented, a byte is read when the
      oriented axis-0 coordinate is a multiple of 8, the chosen bit of the bucket is written to
      the oriented cell and the index is restored. The bucket and cursor move as Passes says,
      and the grid stays the cells the passes so far have laid. */
  method BitStep(values: Reader, g: Grid, f: Flips, bucket: bv8, ghost start: nat, ghost bits: seq<Voxel>, n: nat)
    returns (res: Result<bv8>, ghost bits': seq<Voxel>, idx: seq<int>)
    requires values.Valid() && NonNegative(g.dims) && |g.dims| > 0 && WithinRank(f, |g.dims|) && n < Count(g.dims)
    requires Passes(values.bytes, start, Columns(g.dims, f, n)) == Success(BitRun(bits, bucket, values.pos))
    requires g.cells == Laid(g.dims, f, bits, n)
    modifies values, g
    ensures values.Valid() && g.kind == old(g.kind)
    ensures res.Success? ==>
      Passes(values.bytes, start, Columns(g.dims, f, n + 1)) == Success(BitRun(bits', res.value, values.pos)) &&
      g.cells == Laid(g.dims, f, bits', n + 1) && idx == Natural(g.dims, n)
    ensures res.Failure? ==> Passes(values.bytes, start, Columns(g.dims, f, n + 1)) == Failure(Truncated) && res.error == Truncated
  {
    ColumnsNext(g.dims, f, n);
    PassesNext(values.bytes, start, Columns(g.dims, f, n), Axis0(g.dims, f, n));
    idx := Natural(g.dims, n);
    var s0, s1, s2;
    idx, s0, s1, s2 := OrientIndex(g.dims, f, idx);
    Axis0Oriented(g.dims, f, n);
    var bitNum := idx[0] % 8;
    var b := bucket;
    if bitNum == 0 {
      var r := values.ReadByte();
      if r.Failure? {
        return Failure(Truncated), bits, idx;
      }
      b := r.value;
    }
    var v := Bit(BitOf(b, bitNum));
    bits' := bits + [v];
    LaidPrefix(g.dims, f, bits, [v], n);
    LaidStep(g.dims, f, bits', n);
    NaturalInBounds(g.dims, n);
    OrientInBounds(g.dims, f, Natural(g.dims, n));
    g.Set(idx, v);
    idx := RestoreIndex(g.dims, f, idx, Natural(g.dims, n), s0, s1, s2);
    res := Success(b);
  }

  /** The packed-bit fill loop. It needs an axis 0 to take bit numbers from. It succeeds exactly
      when Passes does over the columns of all Count passes (PassesReads says when that is),
      leaves the cursor where Passes does, and every cell holds the bit of the pass that oriented to it (LaidAll). */
  method FillBits(values: Reader, g: Grid, f: Flips) returns (res: Result<()>)
    requires values.Valid() && NonNegative(g.dims) && WithinRank(f, |g.dims|) && g.cells == map[]
    modifies values, g
    ensures values.Valid() && g.kind == old(g.kind)
    ensures |g.dims| == 0 ==> res == Failure(NoAxisZero)
    ensures |g.dims| > 0 ==>
      if Passes(values.bytes, old(values.pos), Columns(g.dims, f, Count(g.dims))).Success? then
        res == Success(()) &&
        values.pos == Passes(values.bytes, old(values.pos), Columns(g.dims, f, Count(g.dims))).value.pos &&
        g.cells == Laid(g.dims, f, Passes(values.bytes, old(values.pos), Columns(g.dims, f, Count(g.dims))).value.bits, Count(g.dims))
      else res == Failure(Truncated)
  {
    if |g.dims| == 0 {
      return Failure(NoAxisZero);
    }
    ghost var start := values.pos;
    var total := Count(g.dims);
    var bucket: bv8 := 0;
    var idx: seq<int> := seq(|g.dims|, _ => 0);
    ghost var bits: seq<Voxel> := [];
    var n := 0;
    while n < total
      invariant values.Valid() && g.kind == old(g.kind) && n <= total
      invariant Passes(values.bytes, start, Columns(g.dims, f, n)) == Success(BitRun(bits, bucket, values.pos))
      invariant g.cells == Laid(g.dims, f, bits, n)
    {
      var r;
      r, bits, idx := BitStep(values, g, f, bucket, start, bits, n);
      if r.Failure? {
        ColumnsPrefix(g.dims, f, n + 1, total);
        PassesFailed(values.bytes, start, Columns(g.dims, f, n + 1), Columns(g.dims, f, total)[n + 1..]);
        return Failure(Truncated);
      }
      bucket := r.value;
      n := n + 1;
    }
    res := Success(());
  }

  /** Bytes one row of axis 0 occupies: rows are padded to a whole byte. */
  function RowBytes(d: nat): nat
  {
    (d + 7) / 8
  }

  /** The byte that holds the bit of pass m when axis 0 (of length d) is not reversed: row m / d
      starts RowBytes(d) bytes after the previous one, and column m % d sits in its byte
      (m % d) / 8. */
  function PackedAt(start: nat, d: nat, m: nat): nat
    requires d > 0
  {
    start + Span(m / d, RowBytes(d)) + (m % d) / 8
  }

  lemma NextDivMod(n: nat, d: nat)
    requires d > 0
    ensures n % d + 1 < d ==> (n + 1) / d == n / d && (n + 1) % d == n % d + 1
    ensures n % d + 1 == d ==> (n + 1) / d == n / d + 1 && (n + 1) % d == 0
  {
    var q, c := n / d, n % d;
    assert n == c + d * q;
    if c + 1 < d {
      DivModOf(c + 1, q, d);
    } else {
      assert n + 1 == 0 + d * (q + 1);
      DivModOf(0, q + 1, d);
    }
  }

  lemma PrevDivMod(n: nat, d: nat)
    requires d > 0 && n % d > 0
    ensures n > 0 && (n - 1) / d == n / d && (n - 1) % d == n % d - 1
  {
    var q, c := n / d, n % d;
    assert n - 1 == (c - 1) + d * q;
    DivModOf(c - 1, q, d);
  }

  /** Within a row, a byte is read at every column that is a multiple of 8, and the row has
      then read RowBytes of them. */
  lemma ColumnNext(d: nat, c: nat)
    requires c < d
    ensures c % 8 == 0 ==> (c + 7) / 8 == c / 8
    ensures c % 8 != 0 ==> c > 0 && (c - 1) / 8 == c / 8
    ensures c + 1 < d ==> (c + 7) / 8 + (if c % 8 == 0 then 1 else 0) == (c + 8) / 8
    ensures c + 1 == d ==> (c + 7) / 8 + (if c % 8 == 0 then 1 else 0) == RowBytes(d)
  {
  }

  /** Bytes the first n passes over rows of length d read: those of n / d whole rows plus
      those of the started row. */
  function RowReads(d: nat, n: nat): nat
    requires d > 0
  {
    Span(n / d, RowBytes(d)) + (n % d + 7) / 8
  }

  /** The step from pass n to pass n + 1, for the arithmetic alone: a byte is read exactly when
      the column is a multiple of 8, and it is the one PackedAt names; any other pass takes its
      byte from the pass before. */
  lemma PackedNext(start: nat, d: nat, n: nat)
    requires d > 0
    ensures n % d % 8 == 0 ==> PackedAt(start, d, n) == start + RowReads(d, n)
    ensures n % d % 8 != 0 ==> n > 0 && PackedAt(start, d, n) == PackedAt(start, d, n - 1)
    ensures RowReads(d, n + 1) == RowReads(d, n) + (if n % d % 8 == 0 then 1 else 0)
  {
    var q, c := n / d, n % d;
    NextDivMod(n, d);
    ColumnNext(d, c);
    if c % 8 != 0 {
      PrevDivMod(n, d);
    }
    if c + 1 == d {
      assert Span(q + 1, RowBytes(d)) == Span(q, RowBytes(d)) + RowBytes(d);
    }
  }

  /** One pass at column n % d of unreversed rows of length d: it reads its bit from byte
      PackedAt(n) and leaves that byte in the bucket. */
  lemma PackedPass(bs: seq<bv8>, start: nat, d: nat, n: nat, run: BitRun)
    requires d > 0 && run.pos == start + RowReads(d, n)
    requires n > 0 ==> PackedAt(start, d, n - 1) < |bs| && run.bucket == bs[PackedAt(start, d, n - 1)]
    ensures BitPass(bs, run, n % d).Success? ==>
      PackedAt(start, d, n) < |bs| &&
      BitPass(bs, run, n % d).value.bucket == bs[PackedAt(start, d, n)] &&
      BitPass(bs, run, n % d).value.bits == run.bits + [Bit(BitOf(bs[PackedAt(start, d, n)], n % d % 8))]
  {
    PackedNext(start, d, n);
  }

  /** Value m is bit (m % d) % 8 of byte PackedAt(m), for every m: rows of length d packed
      eight columns to a byte, lowest bit first, each row starting on a fresh byte. */
  predicate PackedBits(bs: seq<bv8>, start: nat, d: nat, bits: seq<Voxel>)
    requires d > 0
  {
    forall m :: 0 <= m < |bits| ==>
      PackedAt(start, d, m) < |bs| && bits[m] == Bit(BitOf(bs[PackedAt(start, d, m)], m % d % 8))
  }

  lemma PackedBitsSnoc(bs: seq<bv8>, start: nat, d: nat, bits: seq<Voxel>)
    requires d > 0 && PackedBits(bs, start, d, bits) && PackedAt(start, d, |bits|) < |bs|
    ensures PackedBits(bs, start, d, bits + [Bit(BitOf(bs[PackedAt(start, d, |bits|)], |bits| % d % 8))])
  {
  }

  /** The coordinates of n passes over rows of length d whose axis 0 is not reversed. */
  function RowColumns(d: nat, n: nat): (xs: seq<nat>)
    requires d > 0
    ensures |xs| == n
  {
    seq(n, m requires 0 <= m < n => m % d)
  }

  /** With axis 0 not reversed the passes run through the rows of axis 0 in order. */
  lemma Unreversed(dims: seq<int>, f: Flips, n: nat)
    requires |dims| > 0 && dims[0] > 0 && !f.x
    ensures Columns(dims, f, n) == RowColumns(dims[0], n)
  {
  }

  /** Over unreversed rows the loop reads the packed rows NIfTI describes: it succeeds exactly
      when the stream holds RowReads(d, n) bytes, which it then has consumed; value m is bit
      (m % d) % 8 of byte PackedAt(m), so every row starts on a fresh byte; and the bucket holds
      the byte of the latest pass. */
  lemma {:induction false} PackedRows(bs: seq<bv8>, start: nat, d: nat, n: nat)
    requires d > 0 && start <= |bs|
    ensures Passes(bs, start, RowColumns(d, n)).Success? <==> start + RowReads(d, n) <= |bs|
    ensures Passes(bs, start, RowColumns(d, n)).Success? ==>
      Passes(bs, start, RowColumns(d, n)).value.pos == start + RowReads(d, n) &&
      (n > 0 ==>
        PackedAt(start, d, n - 1) < |bs| &&
        Passes(bs, start, RowColumns(d, n)).value.bucket == bs[PackedAt(start, d, n - 1)]) &&
      PackedBits(bs, start, d, Passes(bs, start, RowColumns(d, n)).value.bits)
  {
    if n > 0 {
      PackedRows(bs, start, d, n - 1);
      PackedNext(start, d, n - 1);
      assert (n - 1) + 1 == n;
      assert RowColumns(d, n) == RowColumns(d, n - 1) + [(n - 1) % d];
      PassesNext(bs, start, RowColumns(d, n - 1), (n - 1) % d);
      var prev := Passes(bs, start, RowColumns(d, n - 1));
      if prev.Success? {
        PackedPass(bs, start, d, n - 1, prev.value);
        if Passes(bs, start, RowColumns(d, n)).Success? {
          PackedBitsSnoc(bs, start, d, prev.value.bits);
        }
      }
    }
  }

  /** The packed-bit fill over a grid whose axis 0 is not reversed, in closed form: it succeeds
      when the stream holds the packed rows, and then cell j holds bit j[0] % 8 of the byte
      PackedAt gives for the pass that writes it, so each row of axis 0 starts on a fresh byte. */
  lemma PackedGrid(dims: seq<int>, f: Flips, bs: seq<bv8>, start: nat)
    requires NonNegative(dims) && |dims| > 0 && dims[0] > 0 && !f.x
    requires start + RowReads(dims[0], Count(dims)) <= |bs|
    ensures Passes(bs, start, Columns(dims, f, Count(dims))).Success?
    ensures forall j :: InBounds(dims, j) ==>
      0 <= Rank(dims, Orient(dims, f, j)) < Count(dims) &&
      PackedAt(start, dims[0], Rank(dims, Orient(dims, f, j))) < |bs| &&
      j in Laid(dims, f, Passes(bs, start, Columns(dims, f, Count(dims))).value.bits, Count(dims)) &&
      Laid(dims, f, Passes(bs, start, Columns(dims, f, Count(dims))).value.bits, Count(dims))[j] ==
        Bit(BitOf(bs[PackedAt(start, dims[0], Rank(dims, Orient(dims, f, j)))], j[0] % 8))
  {
    var d, total := dims[0], Count(dims);
    PackedGridBits(dims, f, bs, start);
    var bits := Passes(bs, start, Columns(dims, f, total)).value.bits;
    LaidAll(dims, f, bits);
    forall j | InBounds(dims, j)
      ensures 0 <= Rank(dims, Orient(dims, f, j)) < total
      ensures PackedAt(start, d, Rank(dims, Orient(dims, f, j))) < |bs|
      ensures j in Laid(dims, f, bits, total)
      ensures Laid(dims, f, bits, total)[j] == Bit(BitOf(bs[PackedAt(start, d, Rank(dims, Orient(dims, f, j)))], j[0] % 8))
    {
      OrientInBounds(dims, f, j);
      RankColumn(dims, Orient(dims, f, j));
      PackedBit(bs, start, d, bits, Rank(dims, Orient(dims, f, j)), j[0]);
    }
  }

  lemma PackedGridBits(dims: seq<int>, f: Flips, bs: seq<bv8>, start: nat)
    requires NonNegative(dims) && |dims| > 0 && dims[0] > 0 && !f.x
    requires start + RowReads(dims[0], Count(dims)) <= |bs|
    ensures Passes(bs, start, Columns(dims, f, Count(dims))).Success?
    ensures |Passes(bs, start, Columns(dims, f, Count(dims))).value.bits| == Count(dims)
    ensures PackedBits(bs, start, dims[0], Passes(bs, start, Columns(dims, f, Count(dims))).value.bits)
  {
    Unreversed(dims, f, Count(dims));
    PackedRows(bs, start, dims[0], Count(dims));
  }

  lemma PackedBit(bs: seq<bv8>, start: nat, d: nat, bits: seq<Voxel>, m: int, x: int)
    requires d > 0 && PackedBits(bs, start, d, bits) && 0 <= m < |bits| && m % d == x
    ensures PackedAt(start, d, m) < |bs| && bits[m] == Bit(BitOf(bs[PackedAt(start, d, m)], x % 8))
  {
  }

  /** With axis 0 reversed, the first pass writes the last cell of the first row; unless that
      cell's coordinate is a multiple of 8 no byte has been read yet, so it gets bit
      (dims[0] - 1) % 8 of the initial bucket 0, whatever the stream holds. */
  lemma ReversedFirstPass(bs: seq<bv8>, start: nat, dims: seq<int>, f: Flips)
    requires NonNegative(dims) && |dims| > 0 && Count(dims) > 0 && f.x && (dims[0] - 1) % 8 != 0
    ensures Passes(bs, start, Columns(dims, f, 1)) == Success(BitRun([Bit(false)], 0, start))
  {
    Axis0Oriented(dims, f, 0);
    var x := dims[0] - 1;
    assert Columns(dims, f, 1) == [x];
    assert BitOf(0, x % 8) == false;
    assert [] + [Bit(false)] == [Bit(false)];
  }

  /** A single row of three cells is visited at coordinates 2, 1, 0 when reversed and 0, 1, 2
      otherwise. */
  lemma RowOfThree()
    ensures Columns([3], Flips(true, false, false), 3) == [2, 1, 0]
    ensures Columns([3], Flips(false, false, false), 3) == [0, 1, 2]
  {
  }

  /** The row of three over the byte 0xFF, reversed (see RowOfThree): the cells 2 and 1 come
      from the stale bucket 0 and only cell 0 gets a bit of the byte. */
  lemma ReversedRowExample()
    ensures Passes([0xFF], 0, [2, 1, 0]) == Success(BitRun([Bit(false), Bit(false), Bit(true)], 0xFF, 1))
  {
    var F, T := Bit(false), Bit(true);
    assert Passes([0xFF], 0, [2]) == Success(BitRun([F], 0, 0)) by {
      PassesNext([0xFF], 0, [], 2);
      assert [] + [2] == [2] && [] + [F] == [F];
    }
    assert Passes([0xFF], 0, [2, 1]) == Success(BitRun([F, F], 0, 0)) by {
      PassesNext([0xFF], 0, [2], 1);
      assert [2] + [1] == [2, 1] && [F] + [F] == [F, F];
    }
    PassesNext([0xFF], 0, [2, 1], 0);
    assert [2, 1] + [0] == [2, 1, 0] && [F, F] + [T] == [F, F, T];
  }

  /** The same row unreversed: all three bits of the byte are set. */
  lemma UnreversedRowExample()
    ensures Passes([0xFF], 0, [0, 1, 2]) == Success(BitRun([Bit(true), Bit(true), Bit(true)], 0xFF, 1))
  {
    var T := Bit(true);
    assert Passes([0xFF], 0, [0]) == Success(BitRun([T], 0xFF, 1)) by {
      PassesNext([0xFF], 0, [], 0);
      assert [] + [0] == [0] && [] + [T] == [T];
    }
    assert Passes([0xFF], 0, [0, 1]) == Success(BitRun([T, T], 0xFF, 1)) by {
      PassesNext([0xFF], 0, [0], 1);
      assert [0] + [1] == [0, 1] && [T] + [T] == [T, T];
    }
    PassesNext([0xFF], 0, [0, 1], 2);
    assert [0, 1] + [2] == [0, 1, 2] && [T, T] + [T] == [T, T, T];
  }
}
