/** Folding a flat, row-major array of values into nested lists, and reading it back. */
module Nesting {
  import opened Common
  import opened Grid
  import opened Arith

  /** Group `g` of width `w`. */
  function Block<T>(flat: seq<T>, g: nat, w: nat): (block: seq<T>)
    requires Mul(g, w) + w <= |flat|
    ensures |block| == w
  {
    flat[Mul(g, w)..Mul(g, w) + w]
  }

  lemma BlockFits(g: nat, w: nat, n: nat, size: nat)
    requires g < n && Mul(n, w) <= size
    ensures Mul(g, w) + w <= size
  {
    GroupFits(g, n, w);
  }

  /** What a filled array of leaves means: one list per dimension, the outermost first. */
  function Nested(flat: seq<Value>, dims: Dims): (v: Value)
    requires |flat| == Product(dims)
    ensures dims != [] ==> v.List? && |v.items| == dims[0]
    decreases dims
  {
    if dims == [] then flat[0]
    else
      var w := Product(dims[1..]);
      List(seq(dims[0], g requires 0 <= g < dims[0] =>
        BlockFits(g, w, dims[0], |flat|);
        Nested(Block(flat, g, w), dims[1..])))
  }

  /** Descend one list per coordinate. */
  function Follow(v: Value, coords: seq<int>): Option<Value> {
    if coords == [] then Some(v)
    else if v.List? && 0 <= coords[0] < |v.items| then Follow(v.items[coords[0]], coords[1..])
    else None
  }

  /** Every coordinate of the shape reaches exactly the leaf of its row-major rank. */
  lemma {:induction false} FollowReachesLeaf(flat: seq<Value>, dims: Dims, coords: seq<int>)
    requires |flat| == Product(dims) && InBounds(coords, dims)
    ensures 0 <= Offset(coords, dims) < |flat|
    ensures Follow(Nested(flat, dims), coords) == Some(flat[Offset(coords, dims)])
    decreases dims
  {
    OffsetInRange(coords, dims);
    if dims != [] {
      var w, g := Product(dims[1..]), coords[0];
      BlockFits(g, w, dims[0], |flat|);
      FollowReachesLeaf(Block(flat, g, w), dims[1..], coords[1..]);
      assert Block(flat, g, w)[Offset(coords[1..], dims[1..])] == flat[Mul(g, w) + Offset(coords[1..], dims[1..])];
    }
  }

  /** Lists nested as deep as there are dimensions, each as long as its dimension. */
  predicate ShapedAs(v: Value, dims: Dims)
    decreases |dims|
  {
    || dims == []
    || (v.List? && |v.items| == dims[0] && forall i :: 0 <= i < |v.items| ==> ShapedAs(v.items[i], dims[1..]))
  }

  lemma {:induction false} NestedShaped(flat: seq<Value>, dims: Dims)
    requires |flat| == Product(dims)
    ensures ShapedAs(Nested(flat, dims), dims)
    decreases |dims|
  {
    if dims != [] {
      var v, w := Nested(flat, dims), Product(dims[1..]);
      forall i | 0 <= i < |v.items| ensures ShapedAs(v.items[i], dims[1..]) {
        BlockFits(i, w, dims[0], |flat|);
        NestedShaped(Block(flat, i, w), dims[1..]);
      }
    }
  }

  /** Concatenate the lists found after descending `depth` levels. */
  function Leaves(v: Value, depth: nat): seq<Value>
    decreases depth, 0, 0
  {
    if depth == 0 then [v] else if v.List? then AllLeaves(v.items, depth - 1) else []
  }

  function AllLeaves(items: seq<Value>, depth: nat): seq<Value>
    decreases depth, 1, |items|
  {
    if items == [] then []
    else AllLeaves(items[..|items| - 1], depth) + Leaves(items[|items| - 1], depth)
  }

  /** `items` are the nested groups of `flat`. */
  ghost predicate GroupsOf(flat: seq<Value>, rest: Dims, items: seq<Value>) {
    && |flat| == Mul(|items|, Product(rest))
    && forall g: nat :: g < |items| ==> (BlockFits(g, Product(rest), |items|, |flat|);
                                         items[g] == Nested(Block(flat, g, Product(rest)), rest))
  }

  /** Flattening the nested form gives the leaves back, none lost and none moved. */
  lemma {:induction false} FlattenUndoesNesting(flat: seq<Value>, dims: Dims)
    requires |flat| == Product(dims)
    ensures Leaves(Nested(flat, dims), |dims|) == flat
    decreases |dims|, 1, 0
  {
    if dims == [] {
      assert flat == [flat[0]];
    } else {
      FlattenGroups(flat, dims[1..], Nested(flat, dims).items);
    }
  }

  lemma {:induction false} FlattenGroups(flat: seq<Value>, rest: Dims, items: seq<Value>)
    requires GroupsOf(flat, rest, items)
    ensures AllLeaves(items, |rest|) == flat
    decreases |rest|, 2, |items|
  {
    hide Mul;
    var w := Product(rest);
    if items == [] {
      Units(w);
    } else {
      var g := |items| - 1;
      BlockFits(g, w, |items|, |flat|);
      Next(g, w);
      GroupsBefore(flat, rest, items);
      FlattenGroups(flat[..Mul(g, w)], rest, items[..g]);
      FlattenUndoesNesting(Block(flat, g, w), rest);
      assert flat[..Mul(g, w)] + Block(flat, g, w) == flat;
    }
  }

  lemma GroupsBefore(flat: seq<Value>, rest: Dims, items: seq<Value>)
    requires GroupsOf(flat, rest, items) && items != []
    ensures Mul(|items| - 1, Product(rest)) <= |flat|
    ensures GroupsOf(flat[..Mul(|items| - 1, Product(rest))], rest, items[..|items| - 1])
  {
    hide Mul;
    var w, n := Product(rest), |items| - 1;
    Next(n, w);
    forall g: nat | g < n
      ensures Mul(g, w) + w <= Mul(n, w)
      ensures Block(flat[..Mul(n, w)], g, w) == Block(flat, g, w)
    {
      GroupFits(g, n, w);
    }
  }

  // ---- nest, which builds the same lists from the innermost level outwards ----

  /** One nesting level: consecutive groups of `width` become lists. */
  function Grouped(level: seq<Value>, groups: nat, width: nat): (grouped: seq<Value>)
    requires |level| == Mul(groups, width)
    ensures |grouped| == groups
  {
    seq(groups, g requires 0 <= g < groups => BlockFits(g, width, groups, |level|); List(Block(level, g, width)))
  }

  lemma SliceOfSlice<T>(s: seq<T>, a: nat, n: nat, b: nat, w: nat)
    requires a + n <= |s| && b + w <= n
    ensures s[a..a + n][b..b + w] == s[a + b..a + b + w]
  {
    var whole := s[a..a + n];
    var left, right := whole[b..b + w], s[a + b..a + b + w];
    forall k | 0 <= k < w ensures left[k] == right[k] {
      assert left[k] == whole[b + k] == s[a + (b + k)];
    }
    assert left == right;
  }

  lemma BlockOfBlock(flat: seq<Value>, g: nat, n: nat, h: nat, w: nat)
    requires h < n && Mul(g, Mul(n, w)) + Mul(n, w) <= |flat|
    ensures Mul(h, w) + w <= Mul(n, w)
    ensures Mul(Mul(g, n) + h, w) + w <= |flat|
    ensures Block(Block(flat, g, Mul(n, w)), h, w) == Block(flat, Mul(g, n) + h, w)
  {
    hide Mul;
    GroupFits(h, n, w);
    Associate(g, n, w);
    Distribute(Mul(g, n), h, w);
    SliceOfSlice(flat, Mul(g, Mul(n, w)), Mul(n, w), Mul(h, w), w);
  }

  /** Grouping commutes with taking a block: a block of groups is the groups of a wider block. */
  lemma GroupedBlock(flat: seq<Value>, g: nat, outer: nat, n: nat, w: nat)
    requires g < outer && |flat| == Mul(Mul(outer, n), w)
    ensures Mul(g, n) + n <= Mul(outer, n) && Mul(g, Mul(n, w)) + Mul(n, w) <= |flat|
    ensures Block(Grouped(flat, Mul(outer, n), w), g, n) == Grouped(Block(flat, g, Mul(n, w)), n, w)
  {
    hide Mul;
    GroupFits(g, outer, n);
    Associate(outer, n, w);
    GroupFits(g, outer, Mul(n, w));
    var left, right := Block(Grouped(flat, Mul(outer, n), w), g, n), Grouped(Block(flat, g, Mul(n, w)), n, w);
    forall h: nat | h < n ensures left[h] == right[h] {
      BlockOfBlock(flat, g, n, h, w);
      assert left[h] == Grouped(flat, Mul(outer, n), w)[Mul(g, n) + h];
    }
    assert left == right;
  }

  lemma InitProduct(dims: Dims)
    requires dims != []
    ensures Product(dims) == Mul(Product(dims[..|dims| - 1]), dims[|dims| - 1])
  {
    ProductSnoc(dims, |dims| - 1);
    assert dims[..|dims|] == dims;
  }

  /** Grouping the innermost level first does not change what the leaves mean. */
  lemma {:induction false} NestedFromInside(flat: seq<Value>, dims: Dims)
    requires dims != [] && |flat| == Product(dims)
    ensures |flat| == Mul(Product(dims[..|dims| - 1]), dims[|dims| - 1])
    ensures Nested(Grouped(flat, Product(dims[..|dims| - 1]), dims[|dims| - 1]), dims[..|dims| - 1]) ==
        Nested(flat, dims)
    decreases dims
  {
    InitProduct(dims);
    if |dims| == 1 {
      OneLevel(flat, dims[0]);
      assert dims == [dims[0]];
    } else {
      MoreLevels(flat, dims);
    }
  }

  lemma OneLevel(flat: seq<Value>, n: nat)
    requires |flat| == n
    ensures |flat| == Mul(1, n) && Product([n]) == n
    ensures Nested(flat, [n]) == List(flat) == Grouped(flat, 1, n)[0]
  {
    OneDimension(0, n);
    Units(n);
    BlockFits(0, n, 1, n);
    assert Block(flat, 0, n) == flat;
    var items := Nested(flat, [n]).items;
    forall g | 0 <= g < n ensures items[g] == flat[g] {
      Units(g);
      BlockFits(g, 1, n, n);
      assert Block(flat, g, 1) == [flat[g]];
      assert items[g] == Nested(Block(flat, g, 1), []) by { assert [n][1..] == []; }
    }
    assert items == flat;
  }

  lemma MoreLevels(flat: seq<Value>, dims: Dims)
    requires |dims| >= 2 && |flat| == Product(dims) == Mul(Product(dims[..|dims| - 1]), dims[|dims| - 1])
    ensures Nested(Grouped(flat, Product(dims[..|dims| - 1]), dims[|dims| - 1]), dims[..|dims| - 1]) ==
        Nested(flat, dims)
    decreases dims, 0
  {
    hide Mul;
    var n, rest, init, last := dims[0], dims[1..], dims[..|dims| - 1], dims[|dims| - 1];
    var mid := init[1..];
    assert mid == rest[..|rest| - 1] && rest[|rest| - 1] == last;
    InitProduct(rest);
    assert Product(init) == Mul(n, Product(mid)) && Product(rest) == Mul(Product(mid), last);
    var grouped := Grouped(flat, Product(init), last);
    var left, right := Nested(grouped, init).items, Nested(flat, dims).items;
    forall g: nat | g < n ensures left[g] == right[g] {
      GroupedBlock(flat, g, n, Product(mid), last);
      var block := Block(flat, g, Product(rest));
      NestedFromInside(block, rest);
      var inside := Grouped(block, Product(rest[..|rest| - 1]), last);
      assert Block(grouped, g, Product(mid)) == inside;
      assert left[g] == Nested(inside, mid) == Nested(block, rest);
    }
    assert left == right;
  }

  /** Folds from the innermost dimension outwards. A shape with no dimensions nests nothing. */
  method Nest(flat: seq<Value>, dims: Dims) returns (nested: seq<Value>)
    requires |flat| == ShapeSize(dims)
    ensures List(nested) == if dims == [] then List([]) else Nested(flat, dims)
  {
    if dims == [] {
      return flat;
    }
    var level := flat;
    var d := |dims|;
    assert dims[..d] == dims;
    while d > 1
      invariant 1 <= d <= |dims|
      invariant |level| == Product(dims[..d]) && Nested(level, dims[..d]) == Nested(flat, dims)
    {
      NestedFromInside(level, dims[..d]);
      d := d - 1;
      assert dims[..d + 1][..d] == dims[..d] && dims[..d + 1][d] == dims[d];
      var width := dims[d];
      var groups := ShapeSize(dims[..d]);
      var grouped := [];
      for g := 0 to groups
        invariant |grouped| == g
        invariant forall k :: 0 <= k < g ==> grouped[k] == Grouped(level, groups, width)[k]
      {
        BlockFits(g, width, groups, |level|);
        grouped := grouped + [List(level[g * width..g * width + width])];
      }
      assert grouped == Grouped(level, groups, width);
      level := grouped;
    }
    assert dims[..1] == [dims[0]];
    OneDimension(0, dims[0]);
    OneLevel(level, dims[0]);
    return level;
  }
}
