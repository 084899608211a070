/** A NumPy-style n-dimensional array of reals and basic slicing `arr[s0, s1, ...]`
    where every slice starts at 0 (`slice(None)` or `slice(0, stop)`). */
module NdArrays {

  /** An array is a scalar (rank 0) or a block of sub-arrays along the leading
      axis; `inner` is the shape every sub-array has, so an extent of 0 along the
      leading axis still records the extents of the other axes. */
  datatype NdArray = Scalar(value: real) | Block(inner: seq<nat>, items: seq<NdArray>)

  /** `arr.shape` */
  function Shape(a: NdArray): seq<nat> {
    match a
    case Scalar(_) => []
    case Block(inner, items) => [|items|] + inner
  }

  /** `arr.ndim` */
  function Rank(a: NdArray): nat {
    |Shape(a)|
  }

  /** Every sub-array of a block has the block's inner shape: the array is rectangular. */
  predicate WellFormed(a: NdArray)
    decreases a
  {
    match a
    case Scalar(_) => true
    case Block(inner, items) =>
      forall k :: 0 <= k < |items| ==> WellFormed(items[k]) && Shape(items[k]) == inner
  }

  function Product(s: seq<nat>): nat {
    if s == [] then 1 else s[0] * Product(s[1..])
  }

  /** `arr.size` */
  function Size(a: NdArray): nat {
    Product(Shape(a))
  }

  /** `idx` addresses one element of an array of shape `shape`. */
  predicate ValidIndex(shape: seq<nat>, idx: seq<nat>) {
    |idx| == |shape| && forall d :: 0 <= d < |idx| ==> idx[d] < shape[d]
  }

  /** `arr[idx]` for a full multi-index. */
  function Get(a: NdArray, idx: seq<nat>): real
    requires WellFormed(a) && ValidIndex(Shape(a), idx)
    decreases a
  {
    match a
    case Scalar(v) => v
    case Block(inner, items) =>
      assert ValidIndex(inner, idx[1..]) by {
        forall d | 0 <= d < |idx[1..]| ensures idx[1..][d] < inner[d] {
          assert idx[d + 1] < Shape(a)[d + 1];
        }
      }
      Get(items[idx[0]], idx[1..])
  }

  /** One entry of a basic-slicing tuple: `slice(None)` or `slice(0, stop)`. */
  datatype Slice = Whole | Prefix(stop: nat)

  /** Number of positions a slice keeps on an axis of extent `n` (a stop past
      the end is clamped, as Python does). */
  function SliceExtent(s: Slice, n: nat): (k: nat)
    ensures k <= n
    ensures s.Whole? ==> k == n
    ensures s.Prefix? ==> (k == n <==> s.stop >= n) && (s.stop <= n ==> k == s.stop)
  {
    match s
    case Whole => n
    case Prefix(stop) => if stop <= n then stop else n
  }

  /** Shape after slicing: the first `|ss|` axes are sliced, the others kept whole. */
  function SlicedShape(shape: seq<nat>, ss: seq<Slice>): seq<nat>
    requires |ss| <= |shape|
  {
    seq(|shape|, d requires 0 <= d < |shape| => if d < |ss| then SliceExtent(ss[d], shape[d]) else shape[d])
  }

  lemma SlicedShapeCons(n: nat, inner: seq<nat>, ss: seq<Slice>)
    requires 0 < |ss| <= 1 + |inner|
    ensures SlicedShape([n] + inner, ss) == [SliceExtent(ss[0], n)] + SlicedShape(inner, ss[1..])
  {
  }

  /** `arr[ss]`: basic slicing with slices that all start at 0. */
  function Subscript(a: NdArray, ss: seq<Slice>): (r: NdArray)
    requires WellFormed(a) && |ss| <= Rank(a)
    ensures WellFormed(r) && Shape(r) == SlicedShape(Shape(a), ss)
    decreases a
  {
    if ss == [] then
      assert SlicedShape(Shape(a), ss) == Shape(a);
      a
    else
      var n := SliceExtent(ss[0], |a.items|);
      var r := Block(SlicedShape(a.inner, ss[1..]), seq(n, k requires 0 <= k < n => Subscript(a.items[k], ss[1..])));
      SlicedShapeCons(|a.items|, a.inner, ss);
      r
  }

  /** Slicing keeps every element it keeps at the same multi-index: the result is
      the prefix `[0, extent)` of the input along every sliced axis. */
  lemma {:induction false} SubscriptGet(a: NdArray, ss: seq<Slice>, idx: seq<nat>)
    requires WellFormed(a) && |ss| <= Rank(a)
    requires ValidIndex(Shape(Subscript(a, ss)), idx)
    ensures ValidIndex(Shape(a), idx)
    ensures Get(Subscript(a, ss), idx) == Get(a, idx)
    decreases a
  {
    var sh := Shape(a);
    assert ValidIndex(sh, idx) by {
      forall d | 0 <= d < |idx| ensures idx[d] < sh[d] {
        assert idx[d] < SlicedShape(sh, ss)[d];
      }
    }
    if ss != [] {
      var b := a.items[idx[0]];
      assert ValidIndex(Shape(Subscript(b, ss[1..])), idx[1..]) by {
        SlicedShapeCons(|a.items|, a.inner, ss);
        forall d | 0 <= d < |idx[1..]| ensures idx[1..][d] < Shape(Subscript(b, ss[1..]))[d] {
          assert idx[d + 1] < SlicedShape(sh, ss)[d + 1];
        }
      }
      SubscriptGet(b, ss[1..], idx[1..]);
    }
  }

  /** Slicing that keeps every axis whole gives back the array itself. */
  lemma {:induction false} SubscriptWholeIsIdentity(a: NdArray, ss: seq<Slice>)
    requires WellFormed(a) && |ss| <= Rank(a)
    requires SlicedShape(Shape(a), ss) == Shape(a)
    ensures Subscript(a, ss) == a
    decreases a
  {
    if ss != [] {
      SlicedShapeCons(|a.items|, a.inner, ss);
      var sh := Shape(a);
      assert SliceExtent(ss[0], |a.items|) == |a.items| by {
        assert SlicedShape(sh, ss)[0] == sh[0];
      }
      assert SlicedShape(a.inner, ss[1..]) == a.inner by {
        assert ([SliceExtent(ss[0], |a.items|)] + SlicedShape(a.inner, ss[1..]))[1..] == sh[1..];
      }
      forall k | 0 <= k < |a.items| ensures Subscript(a.items[k], ss[1..]) == a.items[k] {
        SubscriptWholeIsIdentity(a.items[k], ss[1..]);
      }
      assert Subscript(a, ss).items == a.items;
    }
  }
}
