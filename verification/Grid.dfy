/** Shapes, coordinates and the row-major order of a scatter grid. */
module Grid {
  import opened Common
  import opened Arith

  /** A shape: the length of each nesting level, outermost first. */
  type Dims = seq<nat>

  function Product(dims: Dims): nat {
    if dims == [] then 1 else Mul(dims[0], Product(dims[1..]))
  }

  /** A shape with no dimensions holds no leaf. */
  function ShapeSize(dims: Dims): nat {
    if dims == [] then 0 else Product(dims)
  }

  predicate InBounds(coords: seq<int>, dims: Dims) {
    |coords| == |dims| && forall d :: 0 <= d < |dims| ==> 0 <= coords[d] < dims[d]
  }

  /** The row-major rank of a coordinate: the first dimension varies slowest. */
  function Offset(coords: seq<int>, dims: Dims): int
    requires |coords| == |dims|
  {
    if dims == [] then 0 else Mul(coords[0], Product(dims[1..])) + Offset(coords[1..], dims[1..])
  }

  predicate Positive(dims: Dims) {
    forall d :: 0 <= d < |dims| ==> dims[d] > 0
  }

  lemma {:induction false} ProductPositive(dims: Dims)
    requires Positive(dims)
    ensures Product(dims) > 0
  {
    if dims != [] {
      ProductPositive(dims[1..]);
    }
  }

  lemma {:induction false} ProductSplit(dims: Dims, k: nat)
    requires k <= |dims|
    ensures Product(dims) == Mul(Product(dims[..k]), Product(dims[k..]))
  {
    hide Mul;
    if k == 0 {
      assert dims[0..] == dims;
      Units(Product(dims));
    } else {
      ProductSplit(dims[1..], k - 1);
      assert dims[..k][1..] == dims[1..][..k - 1];
      assert dims[1..][k - 1..] == dims[k..];
      Associate(dims[0], Product(dims[1..][..k - 1]), Product(dims[k..]));
    }
  }

  lemma {:induction false} OffsetSplit(coords: seq<int>, dims: Dims, k: nat)
    requires |coords| == |dims| && k <= |dims|
    ensures Offset(coords, dims)
         == Mul(Offset(coords[..k], dims[..k]), Product(dims[k..])) + Offset(coords[k..], dims[k..])
  {
    hide Mul;
    if k == 0 {
      assert dims[0..] == dims && coords[0..] == coords;
      Units(Product(dims));
    } else {
      OffsetSplit(coords[1..], dims[1..], k - 1);
      ProductSplit(dims[1..], k - 1);
      assert dims[..k][1..] == dims[1..][..k - 1] && coords[..k][1..] == coords[1..][..k - 1];
      assert dims[1..][k - 1..] == dims[k..] && coords[1..][k - 1..] == coords[k..];
      var c, b, w := coords[0], Product(dims[1..][..k - 1]), Product(dims[k..]);
      var o := Offset(coords[1..][..k - 1], dims[1..][..k - 1]);
      Associate(c, b, w);
      Distribute(Mul(c, b), o, w);
    }
  }

  /** A coordinate in bounds has a rank below the number of leaves. */
  lemma {:induction false} OffsetInRange(coords: seq<int>, dims: Dims)
    requires InBounds(coords, dims)
    ensures 0 <= Offset(coords, dims) < Product(dims)
  {
    hide Mul;
    if dims != [] {
      OffsetInRange(coords[1..], dims[1..]);
      GroupFits(coords[0], dims[0], Product(dims[1..]));
    }
  }

  /** Two coordinates in bounds with the same rank are the same coordinate. */
  lemma {:induction false} OffsetInjective(a: seq<int>, b: seq<int>, dims: Dims)
    requires InBounds(a, dims) && InBounds(b, dims)
    requires Offset(a, dims) == Offset(b, dims)
    ensures a == b
  {
    hide Mul;
    if dims != [] {
      OffsetInRange(a[1..], dims[1..]);
      OffsetInRange(b[1..], dims[1..]);
      QuotientUnique(a[0], Offset(a[1..], dims[1..]), b[0], Offset(b[1..], dims[1..]), Product(dims[1..]));
      OffsetInjective(a[1..], b[1..], dims[1..]);
      assert a == [a[0]] + a[1..] && b == [b[0]] + b[1..];
    }
  }

  /** The coordinate of rank `i`. */
  function CoordAt(i: int, dims: Dims): (coords: seq<int>)
    requires 0 <= i < Product(dims)
    ensures |coords| == |dims|
    ensures InBounds(coords, dims)
    ensures Offset(coords, dims) == i
  {
    if dims == [] then []
    else
      var w := Product(dims[1..]);
      assert w > 0;
      assert 0 <= i / w < dims[0] && 0 <= i % w < w && Mul(i / w, w) + i % w == i by {
        SplitRank(i, w, dims[0]);
      }
      var rest := CoordAt(i % w, dims[1..]);
      var coords := [i / w] + rest;
      assert coords[1..] == rest;
      coords
  }

  /** The whole grid in row-major order. */
  function All(dims: Dims): (grid: seq<seq<int>>)
    ensures |grid| == Product(dims)
    ensures forall i :: 0 <= i < |grid| ==> grid[i] == CoordAt(i, dims)
  {
    seq(Product(dims), i requires 0 <= i < Product(dims) => CoordAt(i, dims))
  }

  /** Every coordinate in bounds stands in the grid exactly at its own rank. */
  lemma GridIsInverse(dims: Dims, coords: seq<int>, i: nat)
    requires InBounds(coords, dims) && i < Product(dims)
    ensures 0 <= Offset(coords, dims) < |All(dims)|
    ensures All(dims)[i] == coords <==> i == Offset(coords, dims)
  {
    OffsetInRange(coords, dims);
    var at := CoordAt(Offset(coords, dims), dims);
    OffsetInjective(at, coords, dims);
  }

  function Zeros(n: nat): (z: seq<int>)
    ensures |z| == n && forall k :: 0 <= k < n ==> z[k] == 0
  {
    seq(n, _ => 0)
  }

  lemma {:induction false} OffsetZeros(dims: Dims)
    ensures Offset(Zeros(|dims|), dims) == 0
  {
    hide Mul;
    if dims != [] {
      Units(Product(dims[1..]));
      OffsetZeros(dims[1..]);
      assert Zeros(|dims|)[1..] == Zeros(|dims| - 1);
    }
  }

  /** One dimension has as many leaves as its length, in the order of their coordinate. */
  lemma OneDimension(k: int, n: nat)
    ensures Product([n]) == n && Offset([k], [n]) == k
  {
    Units(n);
    Units(k);
    assert [n][1..] == [] && [k][1..] == [];
  }

  lemma ProductSnoc(dims: Dims, d: nat)
    requires d < |dims|
    ensures Product(dims[..d + 1]) == Mul(Product(dims[..d]), dims[d])
  {
    hide Mul;
    ProductSplit(dims[..d + 1], d);
    assert dims[..d + 1][..d] == dims[..d] && dims[..d + 1][d..] == [dims[d]];
    OneDimension(0, dims[d]);
  }

  lemma OffsetSnoc(coords: seq<int>, dims: Dims, d: nat)
    requires |coords| == |dims| && d < |dims|
    ensures Offset(coords[..d + 1], dims[..d + 1]) == Mul(Offset(coords[..d], dims[..d]), dims[d]) + coords[d]
  {
    hide Mul;
    OffsetSplit(coords[..d + 1], dims[..d + 1], d);
    assert coords[..d + 1][..d] == coords[..d] && dims[..d + 1][..d] == dims[..d];
    assert coords[..d + 1][d..] == [coords[d]] && dims[..d + 1][d..] == [dims[d]];
    OneDimension(coords[d], dims[d]);
  }

  // ---- the loops of scatter.go over these shapes ----

  method LinearOffset(coords: seq<int>, dims: Dims) returns (offset: int)
    requires |coords| == |dims|
    ensures offset == Offset(coords, dims)
  {
    offset := 0;
    for d := 0 to |coords|
      invariant offset == Offset(coords[..d], dims[..d])
    {
      OffsetSnoc(coords, dims, d);
      offset := offset * dims[d] + coords[d];
    }
    assert coords[..|coords|] == coords && dims[..|dims|] == dims;
  }

  /** The coordinate after `coords`: the last digit that can grow does, and the digits after it restart. */
  function Bump(coords: seq<int>, dims: Dims): (next: seq<int>)
    requires |coords| == |dims|
    ensures |next| == |coords|
    decreases |coords|
  {
    if coords == [] then []
    else
      var n := |coords| - 1;
      if coords[n] + 1 < dims[n] then coords[..n] + [coords[n] + 1]
      else Bump(coords[..n], dims[..n]) + [0]
  }

  lemma RankOfLast(coords: seq<int>, dims: Dims)
    requires |coords| == |dims| > 0
    ensures Offset(coords, dims) ==
        Mul(Offset(coords[..|coords| - 1], dims[..|dims| - 1]), dims[|dims| - 1]) + coords[|coords| - 1]
    ensures Product(dims) == Mul(Product(dims[..|dims| - 1]), dims[|dims| - 1])
  {
    OffsetSnoc(coords, dims, |dims| - 1);
    ProductSnoc(dims, |dims| - 1);
    assert coords[..|coords|] == coords && dims[..|dims|] == dims;
  }

  /** Bumping a coordinate raises its rank by one, and restarts after the last. */
  lemma {:induction false} BumpRank(coords: seq<int>, dims: Dims)
    requires InBounds(coords, dims)
    ensures InBounds(Bump(coords, dims), dims)
    ensures Offset(coords, dims) + 1 < Product(dims) ==> Offset(Bump(coords, dims), dims) == Offset(coords, dims) + 1
    ensures Offset(coords, dims) + 1 == Product(dims) ==> Offset(Bump(coords, dims), dims) == 0
    decreases |coords|
  {
    hide Mul;
    if coords != [] {
      var n := |coords| - 1;
      var next := Bump(coords, dims);
      RankOfLast(coords, dims);
      RankOfLast(next, dims);
      if coords[n] + 1 < dims[n] {
        assert next == coords[..n] + [coords[n] + 1] && next[..n] == coords[..n];
        OffsetInRange(next, dims);
      } else {
        BumpRank(coords[..n], dims[..n]);
        assert next[..n] == Bump(coords[..n], dims[..n]);
        OffsetInRange(coords[..n], dims[..n]);
        Carried(Offset(coords[..n], dims[..n]), Product(dims[..n]), dims[n]);
      }
    }
  }

  /** A full last digit carries: the rank after it is a whole number of groups. */
  lemma Carried(rank: int, size: int, width: int)
    requires 0 <= rank < size && 0 < width
    ensures Mul(rank + 1, width) == Mul(rank, width) + width
    ensures rank + 1 < size <==> Mul(rank + 1, width) < Mul(size, width)
    ensures Mul(0, width) == 0
  {
    hide Mul;
    Units(width);
    Next(rank, width);
    if rank + 1 < size {
      GroupFits(rank + 1, size, width);
    }
  }

  /** Moves the odometer to the next coordinate in place, carrying from the last digit. */
  method Advance(odometer: array<int>, dims: Dims)
    requires odometer.Length == |dims|
    modifies odometer
    ensures odometer[..] == Bump(old(odometer[..]), dims)
  {
    ghost var was := odometer[..];
    var d := odometer.Length;
    assert was[..d] == was && dims[..d] == dims;
    while d > 0
      invariant 0 <= d <= odometer.Length
      invariant odometer[..d] == was[..d]
      invariant Bump(was, dims) == Bump(was[..d], dims[..d]) + odometer[d..]
    {
      d := d - 1;
      var coord := odometer[d];
      assert was[..d + 1][..d] == was[..d] && dims[..d + 1][..d] == dims[..d] && coord == was[..d + 1][d];
      ghost var tail := odometer[d + 1..];
      if coord + 1 < dims[d] {
        odometer[d] := coord + 1;
        assert odometer[..] == was[..d] + [coord + 1] + tail;
        return;
      }
      odometer[d] := 0;
      assert odometer[d..] == [0] + tail;
    }
  }

  method Coordinates(dims: Dims) returns (grid: seq<seq<int>>)
    requires Positive(dims)
    ensures grid == All(dims)
  {
    var total := 1;
    for d := 0 to |dims|
      invariant total == Product(dims[..d])
    {
      ProductSnoc(dims, d);
      total := total * dims[d];
    }
    assert dims[..|dims|] == dims;
    ProductPositive(dims);
    grid := [];
    var odometer := new int[|dims|](_ => 0);
    assert odometer[..] == Zeros(|dims|);
    OffsetZeros(dims);
    for i := 0 to total
      invariant |grid| == i
      invariant forall j :: 0 <= j < i ==> grid[j] == CoordAt(j, dims)
      invariant InBounds(odometer[..], dims)
      invariant i < total ==> Offset(odometer[..], dims) == i
    {
      OffsetInjective(odometer[..], CoordAt(i, dims), dims);
      BumpRank(odometer[..], dims);
      grid := grid + [odometer[..]];
      Advance(odometer, dims);
    }
  }
}
