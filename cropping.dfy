/** `crop_arrays_to_min_size`: crop every array of a list to the smallest extent
    any of them has along one axis. */
module Cropping {
  import opened Wrappers
  import opened NdArrays

  /** `min()` of an empty generator raises ValueError; `arr.shape[axis]` with an
      axis outside `[-ndim, ndim)` raises IndexError. */
  datatype CropError = EmptyArrays | AxisOutOfRange

  /** The Python default of `axis`; callers pass it explicitly here. */
  const DefaultAxis: int := 0

  /** `shape[axis]` with Python's negative indexing. */
  function ExtentAlong(shape: seq<nat>, axis: int): (r: Option<nat>)
    ensures r.Some? <==> -|shape| <= axis < |shape|
    ensures 0 <= axis < |shape| ==> r == Some(shape[axis])
    ensures -|shape| <= axis < 0 ==> r == Some(shape[|shape| + axis])
  {
    if 0 <= axis < |shape| then Some(shape[axis])
    else if -|shape| <= axis < 0 then Some(shape[|shape| + axis])
    else None
  }

  predicate HasAxis(a: NdArray, axis: int) {
    ExtentAlong(Shape(a), axis).Some?
  }

  /** `min(arr.shape[axis] for arr in arrays)`. */
  function MinExtent(arrays: seq<NdArray>, axis: int): (r: Result<nat, CropError>)
    ensures r == Failure(EmptyArrays) <==> |arrays| == 0
    ensures r.Success? <==> |arrays| > 0 && forall k :: 0 <= k < |arrays| ==> HasAxis(arrays[k], axis)
    ensures r.Success? ==> forall k :: 0 <= k < |arrays| ==> r.value <= ExtentAlong(Shape(arrays[k]), axis).value
    ensures r.Success? ==> exists k :: 0 <= k < |arrays| && r.value == ExtentAlong(Shape(arrays[k]), axis).value
  {
    if |arrays| == 0 then Failure(EmptyArrays)
    else match ExtentAlong(Shape(arrays[0]), axis)
      case None => Failure(AxisOutOfRange)
      case Some(e) =>
        if |arrays| == 1 then Success(e)
        else match MinExtent(arrays[1..], axis)
          case Failure(err) => Failure(err)
          case Success(m) =>
            assert forall k :: 1 <= k < |arrays| ==> arrays[k] == arrays[1..][k - 1];
            Success(if e <= m then e else m)
  }

  /** The slicing tuple built for one array: `slice(0, m)` where `i == axis`,
      `slice(None)` on every other axis `i` in `range(ndim)`. */
  function CropSlices(ndim: nat, axis: int, m: nat): (ss: seq<Slice>)
    ensures |ss| == ndim
    ensures 0 <= axis < ndim ==> ss[axis] == Prefix(m)
    ensures forall i :: 0 <= i < ndim && i != axis ==> ss[i] == Whole
  {
    seq(ndim, i requires 0 <= i < ndim => if i == axis then Prefix(m) else Whole)
  }

  /** The shape `arr[CropSlices(...)]` has: the axis (when it is non-negative)
      set to `m`, every other extent kept. */
  lemma CropShape(shape: seq<nat>, axis: int, m: nat)
    requires 0 <= axis < |shape| ==> m <= shape[axis]
    ensures 0 <= axis < |shape| ==> SlicedShape(shape, CropSlices(|shape|, axis, m)) == shape[axis := m]
    ensures axis < 0 ==> SlicedShape(shape, CropSlices(|shape|, axis, m)) == shape
  {
  }

  /** `crop_arrays_to_min_size(arrays, axis)`. */
  function CropArraysToMinSize(arrays: seq<NdArray>, axis: int): (r: Result<seq<NdArray>, CropError>)
    requires forall k :: 0 <= k < |arrays| ==> WellFormed(arrays[k])
    ensures r.Failure? <==> MinExtent(arrays, axis).Failure?
    ensures r.Failure? ==> r.error == MinExtent(arrays, axis).error
    ensures r.Success? ==> |r.value| == |arrays|
    ensures r.Success? ==> forall k :: 0 <= k < |arrays| ==> WellFormed(r.value[k]) && Rank(r.value[k]) == Rank(arrays[k])
  {
    var m :- MinExtent(arrays, axis);
    Success(seq(|arrays|, k requires 0 <= k < |arrays| => Subscript(arrays[k], CropSlices(Rank(arrays[k]), axis, m))))
  }

  /** The function fails exactly when the list is empty or some array lacks the axis. */
  lemma CropErrors(arrays: seq<NdArray>, axis: int)
    requires forall k :: 0 <= k < |arrays| ==> WellFormed(arrays[k])
    ensures CropArraysToMinSize(arrays, axis) == Failure(EmptyArrays) <==> |arrays| == 0
    ensures CropArraysToMinSize(arrays, axis).Success? <==>
              |arrays| > 0 && forall k :: 0 <= k < |arrays| ==> HasAxis(arrays[k], axis)
  {
  }

  /** One result per input, in order; each is the prefix `[0, min_size)` of its
      input along a non-negative axis, all other axes whole and every kept element
      at its own index. */
  lemma CropResult(arrays: seq<NdArray>, axis: int)
    requires forall k :: 0 <= k < |arrays| ==> WellFormed(arrays[k])
    requires CropArraysToMinSize(arrays, axis).Success?
    ensures var r := CropArraysToMinSize(arrays, axis).value;
            var m := MinExtent(arrays, axis).value;
            && |r| == |arrays|
            && (forall k :: 0 <= k < |r| ==> WellFormed(r[k]))
            && (forall k :: 0 <= k < |r| ==>
                  Shape(r[k]) == if axis >= 0 then Shape(arrays[k])[axis := m] else Shape(arrays[k]))
            && (forall k, idx :: 0 <= k < |r| && ValidIndex(Shape(r[k]), idx) ==>
                  ValidIndex(Shape(arrays[k]), idx) && Get(r[k], idx) == Get(arrays[k], idx))
  {
    var r := CropArraysToMinSize(arrays, axis).value;
    var m := MinExtent(arrays, axis).value;
    forall k | 0 <= k < |r|
      ensures Shape(r[k]) == if axis >= 0 then Shape(arrays[k])[axis := m] else Shape(arrays[k])
    {
      assert HasAxis(arrays[k], axis);
      CropShape(Shape(arrays[k]), axis, m);
    }
    forall k, idx | 0 <= k < |r| && ValidIndex(Shape(r[k]), idx)
      ensures ValidIndex(Shape(arrays[k]), idx) && Get(r[k], idx) == Get(arrays[k], idx)
    {
      SubscriptGet(arrays[k], CropSlices(Rank(arrays[k]), axis, m), idx);
    }
  }

  /** With a non-negative axis every result has the minimum extent along it. */
  lemma CropEqualizesAxis(arrays: seq<NdArray>, axis: nat)
    requires forall k :: 0 <= k < |arrays| ==> WellFormed(arrays[k])
    requires CropArraysToMinSize(arrays, axis).Success?
    ensures var r := CropArraysToMinSize(arrays, axis).value;
            forall k :: 0 <= k < |r| ==>
              axis < Rank(r[k]) && Shape(r[k])[axis] == MinExtent(arrays, axis).value
  {
    CropResult(arrays, axis);
    var r := CropArraysToMinSize(arrays, axis).value;
    forall k | 0 <= k < |r| ensures axis < Rank(r[k]) {
      assert HasAxis(arrays[k], axis);
    }
  }

  /** A negative axis is accepted by `shape[axis]` but matches no `i` in
      `range(ndim)`, so nothing is cropped. */
  lemma NegativeAxisCropsNothing(arrays: seq<NdArray>, axis: int)
    requires forall k :: 0 <= k < |arrays| ==> WellFormed(arrays[k])
    requires axis < 0 && CropArraysToMinSize(arrays, axis).Success?
    ensures CropArraysToMinSize(arrays, axis).value == arrays
  {
    var r := CropArraysToMinSize(arrays, axis).value;
    var m := MinExtent(arrays, axis).value;
    forall k | 0 <= k < |arrays| ensures r[k] == arrays[k] {
      CroppedArray(arrays, axis, k);
      NegativeAxisKeepsArray(arrays[k], axis, m);
    }
    assert r == arrays;
  }

  /** Result `k` is array `k` under its slicing tuple. */
  lemma CroppedArray(arrays: seq<NdArray>, axis: int, k: nat)
    requires forall k :: 0 <= k < |arrays| ==> WellFormed(arrays[k])
    requires CropArraysToMinSize(arrays, axis).Success? && k < |arrays|
    ensures var m := MinExtent(arrays, axis).value;
            CropArraysToMinSize(arrays, axis).value[k] == Subscript(arrays[k], CropSlices(Rank(arrays[k]), axis, m))
  {
  }

  lemma NegativeAxisKeepsArray(a: NdArray, axis: int, m: nat)
    requires WellFormed(a) && axis < 0
    ensures Subscript(a, CropSlices(Rank(a), axis, m)) == a
  {
    CropShape(Shape(a), axis, m);
    SubscriptWholeIsIdentity(a, CropSlices(Rank(a), axis, m));
  }

  /** Arrays that already agree along the axis come back unchanged. */
  lemma EqualExtentsCropNothing(arrays: seq<NdArray>, axis: int)
    requires forall k :: 0 <= k < |arrays| ==> WellFormed(arrays[k])
    requires CropArraysToMinSize(arrays, axis).Success?
    requires forall k, l :: 0 <= k < |arrays| && 0 <= l < |arrays| ==>
               ExtentAlong(Shape(arrays[k]), axis) == ExtentAlong(Shape(arrays[l]), axis)
    ensures CropArraysToMinSize(arrays, axis).value == arrays
  {
    var r := CropArraysToMinSize(arrays, axis).value;
    var m := MinExtent(arrays, axis).value;
    forall k | 0 <= k < |arrays| ensures r[k] == arrays[k] {
      var sh := Shape(arrays[k]);
      var j :| 0 <= j < |arrays| && m == ExtentAlong(Shape(arrays[j]), axis).value;
      assert HasAxis(arrays[k], axis);
      if 0 <= axis {
        assert sh[axis := m] == sh;
      }
      CropShape(sh, axis, m);
      SubscriptWholeIsIdentity(arrays[k], CropSlices(Rank(arrays[k]), axis, m));
    }
  }

  /** Cropping twice is cropping once. */
  lemma CropIdempotent(arrays: seq<NdArray>, axis: int)
    requires forall k :: 0 <= k < |arrays| ==> WellFormed(arrays[k])
    requires CropArraysToMinSize(arrays, axis).Success?
    ensures var r := CropArraysToMinSize(arrays, axis).value;
            CropArraysToMinSize(r, axis) == Success(r)
  {
    CropResult(arrays, axis);
    var r := CropArraysToMinSize(arrays, axis).value;
    var m := MinExtent(arrays, axis).value;
    if axis < 0 {
      NegativeAxisCropsNothing(arrays, axis);
      NegativeAxisCropsNothing(r, axis);
    } else {
      CropEqualizesAxis(arrays, axis);
      forall k | 0 <= k < |r| ensures HasAxis(r[k], axis) && ExtentAlong(Shape(r[k]), axis) == Some(m) {
      }
      assert CropArraysToMinSize(r, axis).Success?;
      EqualExtentsCropNothing(r, axis);
    }
  }
}
