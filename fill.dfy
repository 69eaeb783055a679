/** The two fill loops of `open`: the grid iterator visits the cells in natural order, the index
    is oriented on the first three axes, one element is read from the value stream and written to
    the oriented cell, and the natural index is restored. The packed-bit loop reads a new byte
    whenever the oriented axis-0 coordinate is a multiple of 8 and takes its bits lowest first. */
module Fill {
  import opened Outcomes
  import opened Stream
  import opened Voxels
  import opened Indexing

  /** The storage `DimensionedStorage.allocate` returns: fixed dimensions, an element kind, and
      the cells written so far. */
  class Grid {
    const dims: seq<int>
    var kind: Kind
    var cells: map<seq<int>, Voxel>

    constructor (dims: seq<int>, kind: Kind)
      ensures this.dims == dims && this.kind == kind && cells == map[]
    {
      this.dims := dims;
      this.kind := kind;
      cells := map[];
    }

    /** `data.set(idx, value)`: the storage refuses indices outside the grid. */
    method Set(idx: seq<int>, v: Voxel)
      requires InBounds(dims, idx)
      modifies this
      ensures kind == old(kind) && cells == old(cells)[idx := v]
    {
      cells := cells[idx := v];
    }
  }

  /** The flags only reverse axes that exist, as the `numD > k` guards of the loops ensure. */
  predicate WithinRank(f: Flips, rank: nat)
  {
    (f.x ==> rank > 0) && (f.y ==> rank > 1) && (f.z ==> rank > 2)
  }

  /** The cells the first n steps of a fill loop write to. */
  ghost function Visited(dims: seq<int>, f: Flips, n: nat): set<seq<int>>
    requires NonNegative(dims) && n <= Count(dims)
  {
    set m | 0 <= m < n :: Orient(dims, f, Natural(dims, m))
  }

  /** The cells hold exactly the values written by the first n steps: step m wrote vals[m] to
      the oriented form of the m-th natural index. */
  ghost predicate Written<T>(cells: map<seq<int>, T>, dims: seq<int>, f: Flips, vals: seq<T>, n: nat)
    requires NonNegative(dims) && n <= |vals| && n <= Count(dims)
  {
    cells.Keys == Visited(dims, f, n) &&
    forall m :: 0 <= m < n ==> cells[Orient(dims, f, Natural(dims, m))] == vals[m]
  }

  /** One more step keeps the cells in step with the values: the new cell was not written
      before, so no earlier value is overwritten. */
  lemma WrittenStep<T>(cells: map<seq<int>, T>, dims: seq<int>, f: Flips, vals: seq<T>, n: nat)
    requires NonNegative(dims) && n < |vals| && n < Count(dims) && Written(cells, dims, f, vals, n)
    ensures Orient(dims, f, Natural(dims, n)) !in cells
    ensures Written(cells[Orient(dims, f, Natural(dims, n)) := vals[n]], dims, f, vals, n + 1)
  {
    var o := Orient(dims, f, Natural(dims, n));
    var cells' := cells[o := vals[n]];
    forall m | 0 <= m < n
      ensures Orient(dims, f, Natural(dims, m)) != o
    {
      if Orient(dims, f, Natural(dims, m)) == o {
        OrientNaturalInjective(dims, f, m, n);
      }
    }
    assert Visited(dims, f, n + 1) == Visited(dims, f, n) + {o};
  }

  /** After Count steps every cell of the grid has been written exactly once: the written cells
      are exactly the in-bounds indices, and cell j holds the value of the step whose natural
      index is the oriented j. */
  lemma WrittenAll<T>(cells: map<seq<int>, T>, dims: seq<int>, f: Flips, vals: seq<T>)
    requires NonNegative(dims) && |vals| == Count(dims) && Written(cells, dims, f, vals, |vals|)
    ensures forall j :: j in cells <==> InBounds(dims, j)
    ensures forall j :: InBounds(dims, j) ==>
      0 <= Rank(dims, Orient(dims, f, j)) < |vals| && cells[j] == vals[Rank(dims, Orient(dims, f, j))]
  {
    forall j | j in cells
      ensures InBounds(dims, j)
    {
      var m :| 0 <= m < |vals| && j == Orient(dims, f, Natural(dims, m));
      NaturalInBounds(dims, m);
      OrientInBounds(dims, f, Natural(dims, m));
    }
    forall j | InBounds(dims, j)
      ensures j in cells
      ensures 0 <= Rank(dims, Orient(dims, f, j)) < |vals| && cells[j] == vals[Rank(dims, Orient(dims, f, j))]
    {
      OrientNaturalOnto(dims, f, j);
    }
  }

  /** The cells after the first n passes of a fill loop that writes vals[m] in pass m. */
  ghost function Laid<T>(dims: seq<int>, f: Flips, vals: seq<T>, n: nat): map<seq<int>, T>
    requires NonNegative(dims) && n <= |vals| && n <= Count(dims)
  {
    if n == 0 then map[]
    else Laid(dims, f, vals, n - 1)[Orient(dims, f, Natural(dims, n - 1)) := vals[n - 1]]
  }

  lemma LaidStep<T>(dims: seq<int>, f: Flips, vals: seq<T>, n: nat)
    requires NonNegative(dims) && n < |vals| && n < Count(dims)
    ensures Laid(dims, f, vals, n + 1) == Laid(dims, f, vals, n)[Orient(dims, f, Natural(dims, n)) := vals[n]]
  {
  }

  /** The first n passes only look at the first n values. */
  lemma {:induction false} LaidPrefix<T>(dims: seq<int>, f: Flips, vals: seq<T>, more: seq<T>, n: nat)
    requires NonNegative(dims) && n <= |vals| && n <= Count(dims)
    ensures Laid(dims, f, vals + more, n) == Laid(dims, f, vals, n)
  {
    if n > 0 {
      LaidPrefix(dims, f, vals, more, n - 1);
      assert (vals + more)[n - 1] == vals[n - 1];
    }
  }

  lemma {:induction false} LaidWritten<T>(dims: seq<int>, f: Flips, vals: seq<T>, n: nat)
    requires NonNegative(dims) && n <= |vals| && n <= Count(dims)
    ensures Written(Laid(dims, f, vals, n), dims, f, vals, n)
  {
    if n > 0 {
      LaidWritten(dims, f, vals, n - 1);
      WrittenStep(Laid(dims, f, vals, n - 1), dims, f, vals, n - 1);
    }
  }

  /** A fill loop that ran all Count passes has written every in-bounds cell and no other, each
      exactly once: cell j holds the value of the pass whose natural index is the oriented j. */
  lemma LaidAll<T>(dims: seq<int>, f: Flips, vals: seq<T>)
    requires NonNegative(dims) && |vals| == Count(dims)
    ensures var cells := Laid(dims, f, vals, |vals|);
      (forall j :: j in cells <==> InBounds(dims, j)) &&
      forall j :: InBounds(dims, j) ==>
        0 <= Rank(dims, Orient(dims, f, j)) < |vals| && cells[j] == vals[Rank(dims, Orient(dims, f, j))]
  {
    LaidWritten(dims, f, vals, |vals|);
    WrittenAll(Laid(dims, f, vals, |vals|), dims, f, vals);
  }

  // ---- elements of a dispatched kind ----

  /** The bytes n elements of width w occupy: n * w, written as repeated addition so that the
      proofs about the loops stay within linear arithmetic. */
  function Span(n: nat, w: nat): nat
  {
    if n == 0 then 0 else Span(n - 1, w) + w
  }

  lemma {:induction false} SpanIsProduct(n: nat, w: nat)
    ensures Span(n, w) == n * w
  {
    if n > 0 {
      SpanIsProduct(n - 1, w);
    }
  }

  lemma {:induction false} SpanMonotone(a: nat, b: nat, w: nat)
    requires a <= b
    ensures Span(a, w) <= Span(b, w)
    decreases b
  {
    if a < b {
      SpanMonotone(a, b - 1, w);
    }
  }

  /** Every one of the first n elements ends at or before the n-th boundary. */
  lemma SpanFits(n: nat, w: nat)
    ensures forall m :: 0 <= m < n ==> Span(m, w) + w <= Span(n, w)
  {
    forall m | 0 <= m < n
      ensures Span(m, w) + w <= Span(n, w)
    {
      SpanMonotone(m + 1, n, w);
    }
  }

  /** Where the first n elements of width w stored from byte `start` on begin, in stream order. */
  function Offsets(start: nat, w: nat, n: nat): (at: seq<nat>)
    ensures |at| == n
  {
    seq(n, m requires 0 <= m < n => start + Span(m, w))
  }

  /** The cells are those with a recorded offset, and each holds the element of kind k whose
      bytes begin there. */
  ghost predicate Holds(cells: map<seq<int>, Voxel>, at: map<seq<int>, nat>, bs: seq<bv8>, k: Kind, swap: bool)
    requires Dispatched(k)
  {
    cells.Keys == at.Keys &&
    forall j {:trigger at[j]} :: j in at ==> at[j] + Width(k) <= |bs| && cells[j] == VoxelAt(bs, at[j], k, swap)
  }

  /** A written cell may be overwritten: the records stay in step. */
  lemma HoldsStep(cells: map<seq<int>, Voxel>, at: map<seq<int>, nat>, bs: seq<bv8>, k: Kind, swap: bool,
                  o: seq<int>, p: nat, at': map<seq<int>, nat>)
    requires Dispatched(k) && Holds(cells, at, bs, k, swap) && p + Width(k) <= |bs| && at' == at[o := p]
    ensures Holds(cells[o := VoxelAt(bs, p, k, swap)], at', bs, k, swap)
  {
  }

  /** One pass of the general fill loop keeps the grid in step with the offsets of the passes:
      pass n puts the element at the n-th offset into the cell it orients to. */
  lemma PassHolds(cells: map<seq<int>, Voxel>, dims: seq<int>, f: Flips, bs: seq<bv8>, start: nat,
                  k: Kind, swap: bool, total: nat, n: nat)
    requires Dispatched(k) && NonNegative(dims) && total == Count(dims) && n < total
    requires start + Span(n, Width(k)) + Width(k) <= |bs|
    requires Holds(cells, Laid(dims, f, Offsets(start, Width(k), total), n), bs, k, swap)
    ensures Holds(cells[Orient(dims, f, Natural(dims, n)) := VoxelAt(bs, start + Span(n, Width(k)), k, swap)],
                  Laid(dims, f, Offsets(start, Width(k), total), n + 1), bs, k, swap)
  {
    var offsets := Offsets(start, Width(k), total);
    var o: seq<int>, p: nat := Orient(dims, f, Natural(dims, n)), start + Span(n, Width(k));
    assert Laid(dims, f, offsets, n + 1) == Laid(dims, f, offsets, n)[o := p] by {
      LaidStep(dims, f, offsets, n);
      assert offsets[n] == p;
    }
    HoldsStep(cells, Laid(dims, f, offsets, n), bs, k, swap, o, p, Laid(dims, f, offsets, n + 1));
  }

  /** Where a completed general fill loop read each cell from: every in-bounds cell and no other
      gets an offset, and cell j's is Rank(Orient(j)) widths after the start of the values, the
      offset of the pass whose natural index is the oriented j. */
  lemma FillOffsets(dims: seq<int>, f: Flips, start: nat, w: nat)
    requires NonNegative(dims)
    ensures var at := Laid(dims, f, Offsets(start, w, Count(dims)), Count(dims));
      (forall j :: j in at <==> InBounds(dims, j)) &&
      forall j :: InBounds(dims, j) ==>
        0 <= Rank(dims, Orient(dims, f, j)) < Count(dims) &&
        at[j] == start + Span(Rank(dims, Orient(dims, f, j)), w)
  {
    LaidAll(dims, f, Offsets(start, w, Count(dims)));
  }

  /** LaidAll for one cell. */
  lemma LaidCell<T>(dims: seq<int>, f: Flips, vals: seq<T>, j: seq<int>)
    requires NonNegative(dims) && |vals| == Count(dims)
    ensures j in Laid(dims, f, vals, |vals|) <==> InBounds(dims, j)
    ensures InBounds(dims, j) ==>
      0 <= Rank(dims, Orient(dims, f, j)) < |vals| && Laid(dims, f, vals, |vals|)[j] == vals[Rank(dims, Orient(dims, f, j))]
  {
    LaidAll(dims, f, vals);
  }

  lemma HeldOne(cells: map<seq<int>, Voxel>, at: map<seq<int>, nat>, bs: seq<bv8>, k: Kind, swap: bool, j: seq<int>, p: nat)
    requires Dispatched(k) && Holds(cells, at, bs, k, swap) && j in at && at[j] == p
    ensures j in cells && p + Width(k) <= |bs| && cells[j] == VoxelAt(bs, p, k, swap)
  {
  }

  /** What a completed general fill loop leaves in a cell, in closed form: only in-bounds cells
      are written, and cell j holds the element stored Rank(Orient(j)) widths after the start of
      the values. */
  lemma HeldCell(cells: map<seq<int>, Voxel>, dims: seq<int>, f: Flips, bs: seq<bv8>, start: nat, k: Kind, swap: bool,
                 j: seq<int>)
    requires Dispatched(k) && NonNegative(dims)
    requires Holds(cells, Laid(dims, f, Offsets(start, Width(k), Count(dims)), Count(dims)), bs, k, swap)
    ensures j in cells <==> InBounds(dims, j)
    ensures InBounds(dims, j) ==>
      0 <= Rank(dims, Orient(dims, f, j)) < Count(dims) &&
      start + Span(Rank(dims, Orient(dims, f, j)), Width(k)) + Width(k) <= |bs| &&
      cells[j] == VoxelAt(bs, start + Span(Rank(dims, Orient(dims, f, j)), Width(k)), k, swap)
  {
    var offsets := Offsets(start, Width(k), Count(dims));
    LaidCell(dims, f, offsets, j);
    assert cells.Keys == Laid(dims, f, offsets, Count(dims)).Keys;
    if InBounds(dims, j) {
      var m := Rank(dims, Orient(dims, f, j));
      assert offsets[m] == start + Span(m, Width(k));
      HeldOne(cells, Laid(dims, f, offsets, Count(dims)), bs, k, swap, j, start + Span(m, Width(k)));
    }
  }

  /** Coordinate k of an index as the loops save it: 0 for an axis the grid lacks. */
  function Saved(idx: seq<int>, k: nat): int
  {
    if k < |idx| then idx[k] else 0
  }

  /** The orientation block of both fill loops: the coordinates of axes 0..2 are saved, then
      each reversed axis k gets dims[k] - saved - 1. */
  method OrientIndex(dims: seq<int>, f: Flips, idx: seq<int>) returns (oriented: seq<int>, s0: int, s1: int, s2: int)
    requires |idx| == |dims| && WithinRank(f, |dims|)
    ensures oriented == Orient(dims, f, idx)
    ensures s0 == Saved(idx, 0) && s1 == Saved(idx, 1) && s2 == Saved(idx, 2)
  {
    oriented := idx;
    s0 := if |dims| > 0 then oriented[0] else 0;
    s1 := if |dims| > 1 then oriented[1] else 0;
    s2 := if |dims| > 2 then oriented[2] else 0;
    if f.x {
      oriented := oriented[0 := dims[0] - s0 - 1];
    }
    if f.y {
      oriented := oriented[1 := dims[1] - s1 - 1];
    }
    if f.z {
      oriented := oriented[2 := dims[2] - s2 - 1];
    }
  }

  /** The restoring block of both fill loops: writing the saved coordinates back on the reversed
      axes gives the natural index again. */
  method RestoreIndex(dims: seq<int>, f: Flips, oriented: seq<int>, ghost natural: seq<int>, s0: int, s1: int, s2: int)
    returns (idx: seq<int>)
    requires |natural| == |dims| && WithinRank(f, |dims|) && oriented == Orient(dims, f, natural)
    requires s0 == Saved(natural, 0) && s1 == Saved(natural, 1) && s2 == Saved(natural, 2)
    ensures idx == natural
  {
    idx := oriented;
    if f.x {
      idx := idx[0 := s0];
    }
    if f.y {
      idx := idx[1 := s1];
    }
    if f.z {
      idx := idx[2 := s2];
    }
  }

  /** One pass of the general fill loop: the iterator's n-th index is oriented, one element is
      read and written to the oriented cell, and the index handed back is the restored one. The
      grid then holds the element at the n-th offset in the n-th pass's cell. */
  method FillStep(values: Reader, g: Grid, swap: bool, f: Flips, buf128: array<bv8>,
                  ghost start: nat, ghost total: nat, n: nat)
    returns (res: Result<Voxel>, idx: seq<int>)
    requires values.Valid() && buf128.Length == 16
    requires Dispatched(g.kind) && NonNegative(g.dims) && WithinRank(f, |g.dims|)
    requires total == Count(g.dims) && n < total && values.pos == start + Span(n, Width(g.kind))
    requires Holds(g.cells, Laid(g.dims, f, Offsets(start, Width(g.kind), total), n), values.bytes, g.kind, swap)
    modifies values, g, buf128
    ensures values.Valid() && g.kind == old(g.kind)
    ensures old(values.pos) + Width(g.kind) <= |values.bytes| ==>
      res == Success(VoxelAt(values.bytes, old(values.pos), g.kind, swap)) &&
      values.pos == old(values.pos) + Width(g.kind) && idx == Natural(g.dims, n) &&
      g.cells == old(g.cells)[Orient(g.dims, f, Natural(g.dims, n)) := res.value] &&
      Holds(g.cells, Laid(g.dims, f, Offsets(start, Width(g.kind), total), n + 1), values.bytes, g.kind, swap)
    ensures old(values.pos) + Width(g.kind) > |values.bytes| ==> res == Failure(Truncated)
  {
    idx := Natural(g.dims, n);
    var s0, s1, s2;
    idx, s0, s1, s2 := OrientIndex(g.dims, f, idx);
    res := ReadValue(values, g.kind, swap, buf128);
    if res.Failure? {
      return;
    }
    NaturalInBounds(g.dims, n);
    OrientInBounds(g.dims, f, Natural(g.dims, n));
    PassHolds(g.cells, g.dims, f, values.bytes, start, g.kind, swap, total, n);
    g.Set(idx, res.value);
    idx := RestoreIndex(g.dims, f, idx, Natural(g.dims, n), s0, s1, s2);
  }

  /** The general fill loop. It succeeds exactly when the stream holds Count elements; it then
      leaves the cursor right after them, and every cell holds the element read at the offset
      its pass was at (see FillOffsets for which offset that is). */
  method FillVoxels(values: Reader, g: Grid, swap: bool, f: Flips, buf128: array<bv8>)
    returns (res: Result<()>)
    requires values.Valid() && buf128.Length == 16
    requires Dispatched(g.kind) && NonNegative(g.dims) && WithinRank(f, |g.dims|) && g.cells == map[]
    modifies values, g, buf128
    ensures values.Valid() && g.kind == old(g.kind)
    ensures var end := old(values.pos) + Span(Count(g.dims), Width(g.kind));
      if end <= |values.bytes| then
        res == Success(()) && values.pos == end &&
        Holds(g.cells, Laid(g.dims, f, Offsets(old(values.pos), Width(g.kind), Count(g.dims)), Count(g.dims)),
              values.bytes, g.kind, swap)
      else res == Failure(Truncated)
  {
    var start := values.pos;
    var total := Count(g.dims);
    var idx: seq<int> := seq(|g.dims|, _ => 0);
    var n := 0;
    while n < total
      invariant values.Valid() && g.kind == old(g.kind) && n <= total
      invariant values.pos == start + Span(n, Width(g.kind))
      invariant Holds(g.cells, Laid(g.dims, f, Offsets(start, Width(g.kind), total), n), values.bytes, g.kind, swap)
    {
      SpanMonotone(n + 1, total, Width(g.kind));
      var v;
      v, idx :- FillStep(values, g, swap, f, buf128, start, total, n);
      n := n + 1;
    }
    res := Success(());
  }
}
