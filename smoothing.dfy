/** `conv_smooth`: smooth a 1-D signal by convolving a normalised window with
    the signal extended by reflected copies of its ends. */
module Smoothing {
  import opened Wrappers
  import opened NdArrays

  /** The three ValueErrors the function raises. */
  datatype SmoothError = NotOneDimensional | ShorterThanWindow | UnknownWindow

  datatype WindowKind = Flat | Hanning | Hamming | Bartlett | Blackman

  /** The Python defaults of `window_len` and `window`; callers pass them
      explicitly here. */
  const DefaultWindowLen: int := 11
  const DefaultWindow: string := "hanning"

  /** The accepted window names; any other string is rejected. */
  function ParseWindow(name: string): (r: Option<WindowKind>)
    ensures r.Some? <==> name in {"flat", "hanning", "hamming", "bartlett", "blackman"}
    ensures r.Some? ==> WindowName(r.value) == name
  {
    if name == "flat" then Some(Flat)
    else if name == "hanning" then Some(Hanning)
    else if name == "hamming" then Some(Hamming)
    else if name == "bartlett" then Some(Bartlett)
    else if name == "blackman" then Some(Blackman)
    else None
  }

  function WindowName(kind: WindowKind): string {
    match kind
    case Flat => "flat"
    case Hanning => "hanning"
    case Hamming => "hamming"
    case Bartlett => "bartlett"
    case Blackman => "blackman"
  }

  lemma ParseWindowName(kind: WindowKind)
    ensures ParseWindow(WindowName(kind)) == Some(kind)
  {
  }

  // ----- sums over reals -----

  function Sum(s: seq<real>): real {
    if s == [] then 0.0 else s[0] + Sum(s[1..])
  }

  /** `sum_k a[k] * b[k]` */
  function Dot(a: seq<real>, b: seq<real>): real
    requires |a| == |b|
  {
    if a == [] then 0.0 else a[0] * b[0] + Dot(a[1..], b[1..])
  }

  function Reverse(s: seq<real>): (r: seq<real>)
    ensures |r| == |s|
  {
    seq(|s|, k requires 0 <= k < |s| => s[|s| - 1 - k])
  }

  lemma {:induction false} DotSnoc(a: seq<real>, b: seq<real>, x: real, y: real)
    requires |a| == |b|
    ensures Dot(a + [x], b + [y]) == Dot(a, b) + x * y
  {
    if a != [] {
      assert (a + [x])[1..] == a[1..] + [x];
      assert (b + [y])[1..] == b[1..] + [y];
      DotSnoc(a[1..], b[1..], x, y);
    }
  }

  /** Reversing one operand of a dot product is the same as reversing the other. */
  lemma {:induction false} DotReverse(a: seq<real>, b: seq<real>)
    requires |a| == |b|
    ensures Dot(a, Reverse(b)) == Dot(Reverse(a), b)
  {
    if a != [] {
      var n := |b|;
      var a', b' := a[1..], b[..n - 1];
      assert Reverse(b) == [b[n - 1]] + Reverse(b');
      assert Reverse(a) == Reverse(a') + [a[0]];
      assert b == b' + [b[n - 1]];
      DotReverse(a', b');
      DotSnoc(Reverse(a'), b', a[0], b[n - 1]);
    }
  }

  lemma {:induction false} SumScale(s: seq<real>, c: real)
    requires c != 0.0
    ensures Sum(seq(|s|, k requires 0 <= k < |s| => s[k] / c)) == Sum(s) / c
  {
    if s != [] {
      var t := seq(|s|, k requires 0 <= k < |s| => s[k] / c);
      assert t[1..] == seq(|s[1..]|, k requires 0 <= k < |s[1..]| => s[1..][k] / c);
      SumScale(s[1..], c);
      assert Sum(t) == s[0] / c + Sum(s[1..]) / c;
    }
  }

  /** Weighting a constant sequence gives the constant times the total weight. */
  lemma {:induction false} DotConstant(a: seq<real>, b: seq<real>, c: real)
    requires |a| == |b|
    requires forall k :: 0 <= k < |b| ==> b[k] == c
    ensures Dot(a, b) == c * Sum(a)
  {
    if a != [] {
      DotConstant(a[1..], b[1..], c);
    }
  }

  /** Weighting by a constant sequence gives the constant times the sum. */
  lemma {:induction false} DotByConstant(a: seq<real>, b: seq<real>, c: real)
    requires |a| == |b|
    requires forall k :: 0 <= k < |a| ==> a[k] == c
    ensures Dot(a, b) == c * Sum(b)
  {
    if a != [] {
      DotByConstant(a[1..], b[1..], c);
    }
  }

  /** Non-negative weights keep the weighted sum between the bounds of the values. */
  lemma {:induction false} DotBounds(a: seq<real>, b: seq<real>, lo: real, hi: real)
    requires |a| == |b|
    requires forall k :: 0 <= k < |a| ==> 0.0 <= a[k]
    requires forall k :: 0 <= k < |b| ==> lo <= b[k] <= hi
    ensures lo * Sum(a) <= Dot(a, b) <= hi * Sum(a)
  {
    if a != [] {
      DotBounds(a[1..], b[1..], lo, hi);
      assert a[0] * lo <= a[0] * b[0] <= a[0] * hi by {
        assert 0.0 <= a[0] * (b[0] - lo);
        assert 0.0 <= a[0] * (hi - b[0]);
      }
    }
  }

  // ----- the window -----

  /** What `np.hanning`, `np.hamming`, `np.bartlett` and `np.blackman` give for
      `window_len >= 3`: `window_len` non-negative weights, symmetric about the
      centre, with a positive sum. */
  predicate IsWindow(w: seq<real>, windowLen: nat) {
    && |w| == windowLen
    && (forall k :: 0 <= k < |w| ==> 0.0 <= w[k])
    && Reverse(w) == w
    && Sum(w) > 0.0
  }

  /** The library's tapered window shapes are not modelled; `taper` stands for them. */
  ghost predicate TaperLaw(taper: (WindowKind, nat) -> seq<real>) {
    forall kind, windowLen: nat :: windowLen >= 3 ==> IsWindow(taper(kind, windowLen), windowLen)
  }

  /** `np.ones(window_len)` for 'flat', the tapered shape otherwise. */
  function Window(kind: WindowKind, windowLen: nat, taper: (WindowKind, nat) -> seq<real>): (w: seq<real>)
    requires windowLen >= 3 && TaperLaw(taper)
    ensures IsWindow(w, windowLen)
    ensures kind == Flat ==> w == seq(windowLen, _ => 1.0)
    ensures kind != Flat ==> w == taper(kind, windowLen)
  {
    if kind == Flat then
      var w := seq(windowLen, _ => 1.0);
      assert Reverse(w) == w;
      DotByConstant(w, w, 1.0);
      assert Dot(w, w) == Sum(w) by { DotConstant(w, w, 1.0); }
      assert Sum(w) > 0.0 by { SumOfOnes(windowLen); }
      w
    else taper(kind, windowLen)
  }

  lemma {:induction false} SumOfOnes(n: nat)
    ensures Sum(seq(n, _ => 1.0)) == n as real
  {
    if n > 0 {
      assert seq(n, _ => 1.0)[1..] == seq(n - 1, _ => 1.0);
      SumOfOnes(n - 1);
    }
  }

  /** `w / w.sum()` */
  function Normalize(w: seq<real>): (r: seq<real>)
    requires Sum(w) > 0.0
    ensures |r| == |w|
    ensures Sum(r) == 1.0
    ensures forall k :: 0 <= k < |r| ==> r[k] * Sum(w) == w[k]
    ensures (forall k :: 0 <= k < |w| ==> 0.0 <= w[k]) ==> forall k :: 0 <= k < |r| ==> 0.0 <= r[k]
  {
    var r := seq(|w|, k requires 0 <= k < |w| => w[k] / Sum(w));
    SumScale(w, Sum(w));
    r
  }

  // ----- padding and convolution -----

  /** CPython's clamping of a slice bound for a negative step: a negative bound
      counts from the end, and what is still outside becomes -1 or len - 1. */
  function ClampBound(i: int, n: nat): (b: int)
    ensures -1 <= b < n || (n == 0 && b == -1)
  {
    var j := if i < 0 then i + n else i;
    if j < 0 then -1 else if j >= n then n - 1 else j
  }

  /** `x[start:stop:-1]`: for bounds inside `x` it is `x[stop+1:start+1]` read
      backwards, and it is never longer than `x`. */
  function ReverseSlice(x: seq<real>, start: int, stop: int): (r: seq<real>)
    ensures |r| <= |x|
    ensures 0 <= stop <= start < |x| ==> r == Reverse(x[stop + 1..start + 1])
    ensures 0 <= start <= stop ==> r == []
  {
    var hi, lo := ClampBound(start, |x|), ClampBound(stop, |x|);
    if hi <= lo then [] else seq(hi - lo, k requires 0 <= k < hi - lo => x[hi - k])
  }

  /** `np.r_[x[window_len//2-1:0:-1], x, x[-1:-window_len//2-1:-1]]`; in the
      second bound `-window_len//2` is `(-window_len)//2`, Python's floor division,
      which Dafny's `/` matches for the positive divisor 2. */
  function Pad(x: seq<real>, windowLen: int): (s: seq<real>)
    ensures 3 <= windowLen <= |x| ==> |s| == |x| + windowLen - 1
  {
    var head := ReverseSlice(x, windowLen / 2 - 1, 0);
    var tail := ReverseSlice(x, -1, (-windowLen) / 2 - 1);
    assert 3 <= windowLen <= |x| ==> |head| == windowLen / 2 - 1 && |tail| == (windowLen + 1) / 2;
    head + x + tail
  }

  /** The extended signal: `floor(L/2) - 1` reflected samples `x[L/2-1], ..., x[1]`
      (never `x[0]`) before `x`, then `ceil(L/2)` reflected samples `x[n-1], ...,
      x[n-ceil(L/2)]` (repeating `x[n-1]`), so `n + L - 1` samples in all. */
  lemma PadLayout(x: seq<real>, windowLen: int)
    requires 3 <= windowLen <= |x|
    ensures var s, h, n := Pad(x, windowLen), windowLen / 2 - 1, |x|;
            && |s| == n + windowLen - 1
            && |s| - h - n == (windowLen + 1) / 2
            && (forall k :: 0 <= k < h ==> s[k] == x[h - k])
            && (forall k :: h <= k < h + n ==> s[k] == x[k - h])
            && (forall k :: h + n <= k < |s| ==> s[k] == x[n - 1 - (k - h - n)])
  {
    var n := |x|;
    var head := ReverseSlice(x, windowLen / 2 - 1, 0);
    var tail := ReverseSlice(x, -1, (-windowLen) / 2 - 1);
    assert (-windowLen) / 2 == -((windowLen + 1) / 2);
    assert |head| == windowLen / 2 - 1;
    assert |tail| == (windowLen + 1) / 2;
    assert Pad(x, windowLen) == head + x + tail;
  }

  /** The `len` samples of `s` starting at `t`. */
  function Frame(s: seq<real>, t: nat, len: nat): (f: seq<real>)
    requires t + len <= |s|
    ensures |f| == len
  {
    s[t..t + len]
  }

  /** `np.convolve(a, v, mode='valid')` for `1 <= len(a) <= len(v)`: output sample
      `t` is `sum_k a[k] * v[t + len(a) - 1 - k]`, the kernel taken in reverse. */
  function ConvolveValid(a: seq<real>, v: seq<real>): (y: seq<real>)
    requires 1 <= |a| <= |v|
    ensures |y| == |v| - |a| + 1
  {
    seq(|v| - |a| + 1, t requires 0 <= t <= |v| - |a| => Dot(a, Reverse(Frame(v, t, |a|))))
  }

  /** For a symmetric kernel the reversal is invisible: each output sample is the
      forward weighted sum of the frame of samples it covers. */
  lemma SymmetricConvolution(a: seq<real>, v: seq<real>, t: nat)
    requires 1 <= |a| <= |v| && Reverse(a) == a
    requires t <= |v| - |a|
    ensures ConvolveValid(a, v)[t] == Dot(a, Frame(v, t, |a|))
  {
    DotReverse(a, Frame(v, t, |a|));
  }

  /** The valid convolution of the padded signal with the normalised window. */
  function SmoothSignal(x: seq<real>, windowLen: int, kind: WindowKind, taper: (WindowKind, nat) -> seq<real>): (y: seq<real>)
    requires 3 <= windowLen <= |x| && TaperLaw(taper)
    ensures |y| == |x|
  {
    PadLayout(x, windowLen);
    ConvolveValid(Normalize(Window(kind, windowLen, taper)), Pad(x, windowLen))
  }

  /** The samples of a 1-D array. */
  function Samples(x: NdArray): (s: seq<real>)
    requires WellFormed(x) && Rank(x) == 1
    ensures |s| == Size(x)
  {
    assert Shape(x) == [|x.items|] && Size(x) == |x.items| * Product([]);
    seq(|x.items|, k requires 0 <= k < |x.items| => ScalarValue(x.items[k]))
  }

  function ScalarValue(a: NdArray): real {
    match a
    case Scalar(v) => v
    case Block(_, _) => 0.0
  }

  /** A 1-D array holding `y`. */
  function Vector(y: seq<real>): (a: NdArray)
    ensures WellFormed(a) && Shape(a) == [|y|]
  {
    Block([], seq(|y|, k requires 0 <= k < |y| => Scalar(y[k])))
  }

  /** `conv_smooth(x, window_len, window)`, with `taper` standing for the tapered
      window shapes of the numerical library. */
  function ConvSmooth(x: NdArray, windowLen: int, window: string, taper: (WindowKind, nat) -> seq<real>): (r: Result<NdArray, SmoothError>)
    requires WellFormed(x) && TaperLaw(taper)
    ensures r == Failure(NotOneDimensional) <==> Rank(x) != 1
    ensures r == Failure(ShorterThanWindow) <==> Rank(x) == 1 && Size(x) < windowLen
    ensures r.Success? ==> WellFormed(r.value) && Shape(r.value) == Shape(x)
  {
    if Rank(x) != 1 then Failure(NotOneDimensional)
    else if Size(x) < windowLen then Failure(ShorterThanWindow)
    else if windowLen < 3 then Success(x)
    else match ParseWindow(window)
      case None => Failure(UnknownWindow)
      case Some(kind) =>
        assert Shape(x) == [|x.items|] + x.inner && Size(x) == |x.items| * Product(x.inner);
        Success(Vector(SmoothSignal(Samples(x), windowLen, kind, taper)))
  }

  /** Reading the samples back out of a 1-D array built from them. */
  lemma SamplesOfVector(y: seq<real>)
    ensures Samples(Vector(y)) == y
  {
  }

  /** A well-formed 1-D array is the vector of its samples. */
  lemma {:induction false} VectorOfSamples(x: NdArray)
    requires WellFormed(x) && Rank(x) == 1
    ensures Vector(Samples(x)) == x
  {
    assert x.inner == [] by { assert Shape(x) == [|x.items|] + x.inner; }
    forall k | 0 <= k < |x.items| ensures Vector(Samples(x)).items[k] == x.items[k] {
      assert Shape(x.items[k]) == [];
    }
  }

  /** The guards are checked in this order: rank, then length, then the short
      window (which returns `x` whatever the window name), then the name; a
      known name then gives the smoothed signal as a 1-D array. */
  lemma GuardOrder(x: NdArray, windowLen: int, window: string, taper: (WindowKind, nat) -> seq<real>)
    requires WellFormed(x) && TaperLaw(taper)
    ensures var r := ConvSmooth(x, windowLen, window, taper);
            && (Rank(x) != 1 ==> r == Failure(NotOneDimensional))
            && (Rank(x) == 1 && Size(x) < windowLen ==> r == Failure(ShorterThanWindow))
            && (Rank(x) == 1 && windowLen <= Size(x) && windowLen < 3 ==> r == Success(x))
            && (Rank(x) == 1 && 3 <= windowLen <= Size(x) ==>
                  (r == Failure(UnknownWindow) <==> ParseWindow(window).None?))
            && (Rank(x) == 1 && 3 <= windowLen <= Size(x) && ParseWindow(window).Some? ==>
                  r == Success(Vector(SmoothSignal(Samples(x), windowLen, ParseWindow(window).value, taper))))
  {
  }

  /** The smoothed signal has exactly `len(x)` samples (the extended signal has
      `len(x) + window_len - 1`), sample `t` being the weighted sum of the
      `window_len` extended samples from `t` on under the normalised window. */
  lemma {:induction false} SmoothedSamples(x: seq<real>, windowLen: int, kind: WindowKind, taper: (WindowKind, nat) -> seq<real>)
    requires 3 <= windowLen <= |x| && TaperLaw(taper)
    ensures var y, s := SmoothSignal(x, windowLen, kind, taper), Pad(x, windowLen);
            var w := Normalize(Window(kind, windowLen, taper));
            && |y| == |x| && |s| == |x| + windowLen - 1
            && forall t :: 0 <= t < |x| ==> y[t] == Dot(w, Frame(s, t, windowLen))
  {
    var s := Pad(x, windowLen);
    PadLayout(x, windowLen);
    var v := Window(kind, windowLen, taper);
    var w := Normalize(v);
    assert Reverse(w) == w by {
      forall k | 0 <= k < |w| ensures Reverse(w)[k] == w[k] {
        assert Reverse(v)[k] == v[k];
      }
    }
    forall t | 0 <= t < |x| ensures ConvolveValid(w, s)[t] == Dot(w, Frame(s, t, windowLen)) {
      SymmetricConvolution(w, s, t);
    }
  }

  /** The normalised flat window weighs every sample by `1 / window_len`. */
  lemma FlatKernel(windowLen: nat, taper: (WindowKind, nat) -> seq<real>)
    requires windowLen >= 3 && TaperLaw(taper)
    ensures forall k :: 0 <= k < windowLen ==> Normalize(Window(Flat, windowLen, taper))[k] == 1.0 / windowLen as real
  {
    var v := Window(Flat, windowLen, taper);
    assert v == seq(windowLen, _ => 1.0);
    SumOfOnes(windowLen);
  }

  /** Equal weights `1 / n` over `n` samples give their mean. */
  lemma EqualWeightsGiveMean(w: seq<real>, f: seq<real>)
    requires |w| == |f| > 0
    requires forall k :: 0 <= k < |w| ==> w[k] == 1.0 / |w| as real
    ensures Dot(w, f) == Sum(f) / |f| as real
  {
    DotByConstant(w, f, 1.0 / |w| as real);
    ScaleByInverse(Sum(f), |f| as real);
  }

  lemma ScaleByInverse(a: real, n: real)
    requires n != 0.0
    ensures (1.0 / n) * a == a / n
  {
  }

  /** The flat window is an exact moving average of the extended signal. */
  lemma {:induction false} FlatIsMovingAverage(x: seq<real>, windowLen: int, taper: (WindowKind, nat) -> seq<real>)
    requires 3 <= windowLen <= |x| && TaperLaw(taper)
    ensures var y, s := SmoothSignal(x, windowLen, Flat, taper), Pad(x, windowLen);
            forall t :: 0 <= t < |x| ==> y[t] == Sum(Frame(s, t, windowLen)) / windowLen as real
  {
    SmoothedSamples(x, windowLen, Flat, taper);
    var s := Pad(x, windowLen);
    var w := Normalize(Window(Flat, windowLen, taper));
    FlatKernel(windowLen, taper);
    forall t | 0 <= t < |x| ensures Dot(w, Frame(s, t, windowLen)) == Sum(Frame(s, t, windowLen)) / windowLen as real {
      EqualWeightsGiveMean(w, Frame(s, t, windowLen));
    }
  }

  /** The sample of `x` that extended sample `i` copies. */
  function PadSource(windowLen: int, n: nat, i: nat): (j: nat)
    requires 3 <= windowLen <= n && i < n + windowLen - 1
    ensures j < n
  {
    var h := windowLen / 2 - 1;
    if i < h then h - i else if i < h + n then i - h else n - 1 - (i - h - n)
  }

  /** Every extended sample is a sample of `x`. */
  lemma PadCopiesSignal(x: seq<real>, windowLen: int, i: nat)
    requires 3 <= windowLen <= |x| && i < |x| + windowLen - 1
    ensures Pad(x, windowLen)[i] == x[PadSource(windowLen, |x|, i)]
  {
    PadLayout(x, windowLen);
  }

  /** A frame of the extended signal stays within any bounds the signal keeps. */
  lemma FrameInRange(x: seq<real>, windowLen: int, t: nat, lo: real, hi: real)
    requires 3 <= windowLen <= |x| && t < |x|
    requires forall k :: 0 <= k < |x| ==> lo <= x[k] <= hi
    ensures forall k :: 0 <= k < windowLen ==> lo <= Frame(Pad(x, windowLen), t, windowLen)[k] <= hi
  {
    forall k | 0 <= k < windowLen ensures lo <= Frame(Pad(x, windowLen), t, windowLen)[k] <= hi {
      PadCopiesSignal(x, windowLen, t + k);
    }
  }

  /** Non-negative weights summing to 1 give a value within the range of the samples. */
  lemma ConvexCombination(w: seq<real>, f: seq<real>, lo: real, hi: real)
    requires |w| == |f|
    requires (forall k :: 0 <= k < |w| ==> 0.0 <= w[k]) && Sum(w) == 1.0
    requires forall k :: 0 <= k < |f| ==> lo <= f[k] <= hi
    ensures lo <= Dot(w, f) <= hi
  {
    DotBounds(w, f, lo, hi);
  }

  /** The normalised window is a set of convex weights. */
  lemma NormalizedWindowIsConvex(kind: WindowKind, windowLen: nat, taper: (WindowKind, nat) -> seq<real>)
    requires windowLen >= 3 && TaperLaw(taper)
    ensures var w := Normalize(Window(kind, windowLen, taper));
            (forall k :: 0 <= k < |w| ==> 0.0 <= w[k]) && Sum(w) == 1.0
  {
    var v := Window(kind, windowLen, taper);
    assert forall k :: 0 <= k < |v| ==> 0.0 <= v[k];
  }

  /** Smoothing never leaves the range of the signal: with every sample in
      `[lo, hi]`, every smoothed sample is in `[lo, hi]`. */
  lemma {:induction false} SmoothingStaysInRange(x: seq<real>, windowLen: int, kind: WindowKind, taper: (WindowKind, nat) -> seq<real>, lo: real, hi: real)
    requires 3 <= windowLen <= |x| && TaperLaw(taper)
    requires forall k :: 0 <= k < |x| ==> lo <= x[k] <= hi
    ensures var y := SmoothSignal(x, windowLen, kind, taper);
            forall t :: 0 <= t < |y| ==> lo <= y[t] <= hi
  {
    SmoothedSamples(x, windowLen, kind, taper);
    var s := Pad(x, windowLen);
    var w := Normalize(Window(kind, windowLen, taper));
    NormalizedWindowIsConvex(kind, windowLen, taper);
    forall t | 0 <= t < |x| ensures lo <= Dot(w, Frame(s, t, windowLen)) <= hi {
      FrameInRange(x, windowLen, t, lo, hi);
      ConvexCombination(w, Frame(s, t, windowLen), lo, hi);
    }
  }

  /** A constant signal smooths to the same constant, under every window. */
  lemma ConstantIsPreserved(x: seq<real>, windowLen: int, kind: WindowKind, taper: (WindowKind, nat) -> seq<real>, c: real)
    requires 3 <= windowLen <= |x| && TaperLaw(taper)
    requires forall k :: 0 <= k < |x| ==> x[k] == c
    ensures var y := SmoothSignal(x, windowLen, kind, taper);
            |y| == |x| && forall t :: 0 <= t < |y| ==> y[t] == c
  {
    SmoothingStaysInRange(x, windowLen, kind, taper, c, c);
  }
}
