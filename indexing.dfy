/** Index arithmetic of the fill loops in `open`: the order in which the grid iterator visits the
    cells (axis 0 fastest), its inverse, and the per-axis reversal that orients the data on the
    first three axes. */
module Indexing {
  import opened Floats

  /** No dimension length is negative. */
  predicate NonNegative(dims: seq<int>)
  {
    forall k :: 0 <= k < |dims| ==> dims[k] >= 0
  }

  /** Every coordinate lies in [0, dims[k]). */
  predicate InBounds(dims: seq<int>, idx: seq<int>)
  {
    |idx| == |dims| && forall k :: 0 <= k < |dims| ==> 0 <= idx[k] < dims[k]
  }

  /** Number of cells of a grid. */
  function Count(dims: seq<int>): nat
    requires NonNegative(dims)
  {
    if dims == [] then 1 else dims[0] * Count(dims[1..])
  }

  lemma DivBelow(n: int, d: int, c: int)
    requires 0 <= n < d * c && d > 0
    ensures 0 <= n / d < c
  {
  }

  lemma MulSmall(d: int, x: int)
    requires d > 0 && -d < d * x < d
    ensures x == 0
  {
  }

  lemma DivModOf(a: int, b: int, d: int)
    requires 0 <= a < d && 0 <= b
    ensures (a + d * b) / d == b && (a + d * b) % d == a
  {
    var n := a + d * b;
    var q, r := n / d, n % d;
    assert d * (q - b) == a - r;
    MulSmall(d, q - b);
  }

  /** The n-th index the iterator visits: axis 0 varies fastest. */
  function Natural(dims: seq<int>, n: int): (idx: seq<int>)
    requires NonNegative(dims) && 0 <= n < Count(dims)
    ensures |idx| == |dims|
    decreases |dims|
  {
    if dims == [] then []
    else
      DivBelow(n, dims[0], Count(dims[1..]));
      [n % dims[0]] + Natural(dims[1..], n / dims[0])
  }

  /** The position of an index in the visiting order. */
  function Rank(dims: seq<int>, idx: seq<int>): int
    requires |idx| == |dims|
  {
    if dims == [] then 0 else idx[0] + dims[0] * Rank(dims[1..], idx[1..])
  }

  /** Every visited index is inside the grid. */
  lemma {:induction false} NaturalInBounds(dims: seq<int>, n: int)
    requires NonNegative(dims) && 0 <= n < Count(dims)
    ensures InBounds(dims, Natural(dims, n))
    decreases |dims|
  {
    if dims != [] {
      DivBelow(n, dims[0], Count(dims[1..]));
      NaturalInBounds(dims[1..], n / dims[0]);
      var idx := Natural(dims, n);
      forall k | 0 <= k < |dims|
        ensures 0 <= idx[k] < dims[k]
      {
        if k > 0 {
          assert idx[k] == Natural(dims[1..], n / dims[0])[k - 1];
        }
      }
    }
  }

  /** The rank of an in-bounds index is a position the iterator reaches. */
  lemma {:induction false} RankBounds(dims: seq<int>, idx: seq<int>)
    requires NonNegative(dims) && InBounds(dims, idx)
    ensures 0 <= Rank(dims, idx) < Count(dims)
    decreases |dims|
  {
    if dims != [] {
      var d, c := dims[0], Count(dims[1..]);
      RankBounds(dims[1..], idx[1..]);
      var r := Rank(dims[1..], idx[1..]);
      assert d * r <= d * (c - 1);
      assert 0 <= d * r;
    }
  }

  /** Rank undoes Natural: the visiting order enumerates positions 0 .. Count-1 one by one. */
  lemma {:induction false} RankNatural(dims: seq<int>, n: int)
    requires NonNegative(dims) && 0 <= n < Count(dims)
    ensures Rank(dims, Natural(dims, n)) == n
    decreases |dims|
  {
    if dims != [] {
      DivBelow(n, dims[0], Count(dims[1..]));
      RankNatural(dims[1..], n / dims[0]);
      assert Natural(dims, n)[1..] == Natural(dims[1..], n / dims[0]);
    }
  }

  /** Natural undoes Rank: every in-bounds index is visited. */
  lemma {:induction false} NaturalRank(dims: seq<int>, idx: seq<int>)
    requires NonNegative(dims) && InBounds(dims, idx)
    ensures 0 <= Rank(dims, idx) < Count(dims)
    ensures Natural(dims, Rank(dims, idx)) == idx
    decreases |dims|
  {
    RankBounds(dims, idx);
    if dims != [] {
      var r := Rank(dims[1..], idx[1..]);
      RankBounds(dims[1..], idx[1..]);
      DivModOf(idx[0], r, dims[0]);
      NaturalRank(dims[1..], idx[1..]);
      assert idx == [idx[0]] + idx[1..];
    }
  }

  /** The position of an in-bounds index in the visiting order leaves its axis-0 coordinate as
      the remainder by the axis-0 length. */
  lemma RankColumn(dims: seq<int>, idx: seq<int>)
    requires NonNegative(dims) && InBounds(dims, idx) && |dims| > 0
    ensures Rank(dims, idx) % dims[0] == idx[0]
  {
    RankBounds(dims[1..], idx[1..]);
    DivModOf(idx[0], Rank(dims[1..], idx[1..]), dims[0]);
  }

  /** Which of the first three axes the fill loops reverse. */
  datatype Flips = Flips(x: bool, y: bool, z: bool)

  function Flipped(f: Flips, k: int): bool
  {
    if k == 0 then f.x else if k == 1 then f.y else if k == 2 then f.z else false
  }

  /** The sign tests of the fill loops on sx, sy and sz (srow entries 0, 5 and 10): axis 0 is
      reversed when sx < 0, or when sx > 0 in ANALYZE mode; axis 1 when sy > 0; axis 2 when
      sz < 0; each only when the axis exists. */
  function FlipsOf(rank: int, isAnalyze: bool, srow: seq<Float>): Flips
    requires |srow| == 12
  {
    Flips(rank > 0 && ((!isAnalyze && IsNegative(srow[0])) || (isAnalyze && IsPositive(srow[0]))),
          rank > 1 && IsPositive(srow[5]),
          rank > 2 && IsNegative(srow[10]))
  }

  /** Only existing axes among the first three are ever reversed, and ANALYZE mode reverses the
      sense of the sx test: for an sx that is neither zero nor NaN exactly one of the two modes
      reverses axis 0. */
  lemma FlipsOfAxes(rank: int, isAnalyze: bool, srow: seq<Float>, k: int)
    requires |srow| == 12
    ensures Flipped(FlipsOf(rank, isAnalyze, srow), k) ==> 0 <= k < 3 && k < rank
    ensures rank > 0 && !IsZero(srow[0]) && !IsNaN(srow[0]) ==>
      FlipsOf(rank, true, srow).x == !FlipsOf(rank, false, srow).x
  {
    Trichotomy(srow[0]);
  }

  /** The index the fill loops write to: on a reversed axis k the coordinate i becomes
      dims[k] - i - 1; every other coordinate is kept. */
  function Orient(dims: seq<int>, f: Flips, idx: seq<int>): (o: seq<int>)
    requires |idx| == |dims|
    ensures |o| == |idx|
  {
    seq(|idx|, k requires 0 <= k < |idx| => if Flipped(f, k) then dims[k] - idx[k] - 1 else idx[k])
  }

  /** Orientation changes only the reversed axes, and applying it twice restores the index,
      which is what the save-and-restore of the fill loops relies on. */
  lemma OrientInvolution(dims: seq<int>, f: Flips, idx: seq<int>)
    requires |idx| == |dims|
    ensures |Orient(dims, f, idx)| == |idx|
    ensures forall k :: 0 <= k < |idx| && !Flipped(f, k) ==> Orient(dims, f, idx)[k] == idx[k]
    ensures Orient(dims, f, Orient(dims, f, idx)) == idx
  {
  }

  /** Orientation keeps an index inside the grid. */
  lemma OrientInBounds(dims: seq<int>, f: Flips, idx: seq<int>)
    requires InBounds(dims, idx)
    ensures InBounds(dims, Orient(dims, f, idx))
  {
  }

  /** Distinct steps of the fill loop write distinct cells. */
  lemma OrientNaturalInjective(dims: seq<int>, f: Flips, m: int, n: int)
    requires NonNegative(dims) && 0 <= m < Count(dims) && 0 <= n < Count(dims)
    requires Orient(dims, f, Natural(dims, m)) == Orient(dims, f, Natural(dims, n))
    ensures m == n
  {
    NaturalInBounds(dims, m);
    NaturalInBounds(dims, n);
    OrientInvolution(dims, f, Natural(dims, m));
    OrientInvolution(dims, f, Natural(dims, n));
    RankNatural(dims, m);
    RankNatural(dims, n);
  }

  /** Every cell of the grid is written by some step of the fill loop: the step whose natural
      index is the oriented cell. */
  lemma OrientNaturalOnto(dims: seq<int>, f: Flips, j: seq<int>)
    requires NonNegative(dims) && InBounds(dims, j)
    ensures 0 <= Rank(dims, Orient(dims, f, j)) < Count(dims)
    ensures Orient(dims, f, Natural(dims, Rank(dims, Orient(dims, f, j)))) == j
  {
    OrientInBounds(dims, f, j);
    NaturalRank(dims, Orient(dims, f, j));
    OrientInvolution(dims, f, j);
  }
}
