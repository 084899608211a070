# Markov-chain utilities: cropping, smoothing and the graph of a transition matrix

This project is a Dafny model of two small utility modules. It covers their
numerical helpers and the graph-building half of their Markov-chain plot. The
model proves what these functions promise.

- `utilities/stats.py`
  - `crop_arrays_to_min_size` crops a list of n-dimensional arrays along one
    axis to the smallest extent any of them has.
  - `conv_smooth` smooths a 1-D signal. It reflects the signal's ends, then
    convolves the result with a normalised window, in numpy's `valid` mode.
- `utilities/visualization.py`
  - `hex_to_rgb` parses `#RRGGBB` into three components in `[0, 1]`.
  - `timescale_label` writes a transition timescale as " Stable", as
    microseconds or as milliseconds.
  - `visualize_markov_chain` builds a directed multigraph from a transition
    matrix `P`. It adds node `i` for each state and edge `(i, j)` exactly when
    `P[i, j]` exceeds the threshold. Each edge's label goes into one of three
    maps: self-loops, forward edges (`j > i`) or backward edges (`j < i`).

Files:

- `wrappers.dfy`: `Option` and `Result`. A Python exception becomes a `Failure`.
- `ndarrays.dfy`: a numpy array as a nested value with its shape, and basic
  slicing with `slice(None)` and `slice(0, m)`.
- `cropping.dfy`: `crop_arrays_to_min_size`.
- `smoothing.dfy`: `conv_smooth`, with the padding, `np.convolve` in `valid`
  mode and the window normalisation.
- `colors.dfy`: `hex_to_rgb`, plus its inverse, the canonical hex text of
  three bytes.
- `timescales.dfy`: `timescale_label` and the timescale of one edge.
- `markov_graph.dfy`: lines 100-158 of `visualize_markov_chain`. These are
  imperative methods with the source's loops: `PlaceNodes` for the node loop,
  and `BuildGraph`, `AddRow` and `VisitCell` for the double loop over `P`.
  They are proved against the functions `EdgeSet` and `RoutedLabels`.

Where the docstrings and the code disagree, the model follows the code:

- The `hex_to_rgb` docstring (`utilities/visualization.py:17`) says the
  components are in `[0, 255]`. The code divides by 255, so they are in
  `[0, 1]`.
- The NOTE in the `conv_smooth` docstring (`utilities/stats.py:59`) says the
  output length differs from the input length. With the padding at line 74,
  the output has exactly `len(x)` samples (`Smoothing.SmoothedSamples`).

Other behaviours of the code that the model keeps:

- `lstrip('#')` removes every leading `#`, not just one.
- A negative `axis` is accepted by `arr.shape[axis]`, but no `i` in
  `range(arr.ndim)` equals it. So such an axis crops nothing.
- In `conv_smooth`, a window shorter than 3 returns `x` before the window name
  is checked.

## Model

| member | source | states |
|---|---|---|
| NdArrays.Subscript | utilities/stats.py:24 | `arr[s]` with a tuple of whole/prefix slices is well formed and has, on every sliced axis, the slice's extent and elsewhere the array's own extent |
| NdArrays.SubscriptGet | utilities/stats.py:24 | every element of `arr[s]` is the element of `arr` at the same index, and that index is valid in `arr` |
| NdArrays.SubscriptWholeIsIdentity | utilities/stats.py:24 | slicing that keeps every extent returns the array itself |
| Cropping.ExtentAlong | utilities/stats.py:15 | `shape[axis]` exists exactly for `-ndim <= axis < ndim`, with negative axes counted from the end |
| Cropping.MinExtent | utilities/stats.py:15 | `min` over the arrays' extents fails on an empty list and when an array lacks the axis; otherwise it is at most every extent and equal to one of them |
| Cropping.CropShape | utilities/stats.py:18-21 | the slice tuple sets a non-negative axis to `min_size` and keeps every extent when the axis is negative |
| Cropping.CropSlices | utilities/stats.py:18-21 | the tuple has one slice per axis: `slice(0, min_size)` at the axis when it is in `range(ndim)`, `slice(None)` everywhere else |
| Cropping.CropArraysToMinSize | utilities/stats.py:3-26 | the crop fails exactly when `min` over the extents fails, with the same error; otherwise it gives one well-formed array per input with the input's rank |
| Cropping.CroppedArray | utilities/stats.py:18-24 | result `k` is array `k` indexed by its own slicing tuple |
| Cropping.NegativeAxisKeepsArray | utilities/stats.py:18-24 | under a negative axis, an array indexed by its slicing tuple is the array itself |
| Cropping.CropErrors | utilities/stats.py:15-24 | the crop fails exactly for an empty list (ValueError) or an array without the axis (IndexError) |
| Cropping.CropResult | utilities/stats.py:15-26 | one result per array, in order; each has the array's shape with a non-negative axis set to the minimum, and every kept element unchanged |
| Cropping.CropEqualizesAxis | utilities/stats.py:15-24 | after cropping along a non-negative axis, all arrays have the minimum extent along it |
| Cropping.NegativeAxisCropsNothing | utilities/stats.py:18-21 | a negative axis matches no `i` in `range(ndim)`, so every array comes back unchanged |
| Cropping.EqualExtentsCropNothing | utilities/stats.py:15-24 | arrays that already agree along the axis come back unchanged |
| Cropping.CropIdempotent | utilities/stats.py:3-26 | cropping the result again changes nothing |
| Smoothing.ParseWindow | utilities/stats.py:71-72 | a window name is accepted exactly when it is one of the five names, and maps back to that name |
| Smoothing.ParseWindowName | utilities/stats.py:71 | each window kind's name is accepted and parsed back to that kind |
| Smoothing.Window | utilities/stats.py:77-80 | the window has `window_len` non-negative, symmetric weights with a positive sum; for 'flat' it is exactly `window_len` ones, otherwise exactly the tapered window of that name and length |
| Smoothing.Normalize | utilities/stats.py:82 | `w / w.sum()` has the length of `w`, weight `k` times `w.sum()` is `w[k]` (weights proportional to `w`), the weights sum to 1, and non-negative `w` gives non-negative weights |
| Smoothing.Pad | utilities/stats.py:74 | for `3 <= window_len <= len(x)` the extended signal has `len(x) + window_len - 1` samples |
| Smoothing.ReverseSlice | utilities/stats.py:74 | `x[start:stop:-1]` is never longer than `x`, is `x[stop+1:start+1]` reversed for bounds inside `x`, and is empty when `0 <= start <= stop` |
| Smoothing.PadLayout | utilities/stats.py:74 | the extended signal is `x[L/2-1], ..., x[1]`, then `x`, then `x[n-1], ..., x[n-ceil(L/2)]`, with CPython's slice clamping and floor division |
| Smoothing.PadCopiesSignal | utilities/stats.py:74 | every extended sample is a sample of `x` |
| Smoothing.ConvolveValid | utilities/stats.py:82 | `np.convolve(a, v, 'valid')` has `len(v) - len(a) + 1` samples |
| Smoothing.SymmetricConvolution | utilities/stats.py:82 | with a symmetric kernel, each convolution sample is the forward weighted sum of its frame |
| Smoothing.SmoothSignal | utilities/stats.py:74-84 | the smoothed signal has exactly `len(x)` samples |
| Smoothing.GuardOrder | utilities/stats.py:62-84 | the guards apply in the source's order: rank, then length, then a short window returns `x`, then the name; a known name gives the smoothed 1-D array |
| Smoothing.ConvSmooth | utilities/stats.py:29-84 | ValueError for a non-1-D input exactly when the rank is not 1, and for a short input exactly when it is 1-D with fewer samples than `window_len`; any result is a well-formed array of the input's shape |
| Smoothing.SamplesOfVector | utilities/stats.py:82-84 | reading the samples of the returned 1-D array gives the smoothed sequence |
| Smoothing.VectorOfSamples | utilities/stats.py:62-69 | a well-formed 1-D array is the vector of its samples, so returning `x` and rebuilding it agree |
| Smoothing.SmoothedSamples | utilities/stats.py:74-84 | output sample `t` is the normalised window's weighted sum of extended samples `t .. t+L-1` |
| Smoothing.FlatIsMovingAverage | utilities/stats.py:77-78 | with the flat window, each output sample is the mean of its `window_len` extended samples |
| Smoothing.FlatKernel | utilities/stats.py:77-82 | the normalised flat window weighs every sample by `1 / window_len` |
| Smoothing.FrameInRange | utilities/stats.py:74 | every frame of the extended signal stays within bounds that `x` keeps |
| Smoothing.NormalizedWindowIsConvex | utilities/stats.py:77-82 | every window, once normalised, has non-negative weights summing to 1 |
| Smoothing.SmoothingStaysInRange | utilities/stats.py:62-84 | every smoothed sample lies within any bounds the input keeps |
| Smoothing.ConstantIsPreserved | utilities/stats.py:62-84 | a constant signal smooths to the same constant, under every window |
| Colors.LStrip | utilities/visualization.py:19 | `lstrip('#')` removes the whole run of leading `#` and leaves a suffix that does not start with `#` |
| Colors.HexDigit | utilities/visualization.py:22 | a character is a base-16 digit (either case) exactly when it has a value, and that value is below 16 |
| Colors.HexDigitValue | utilities/visualization.py:22 | the value of a digit, written back as a lower-case digit, is the lower-cased character: `'F'` and `'f'` are 15, `'7'` is 7 |
| Colors.HexDigitIgnoresCase | utilities/visualization.py:22 | a digit and its lower-case form have the same value |
| Colors.PairValueIgnoresCase | utilities/visualization.py:22 | `int(pair, 16)` does not depend on the case of the pair |
| Colors.PairValue | utilities/visualization.py:22 | `int(pair, 16)` exists exactly for two base-16 digits and is below 256 |
| Colors.Component | utilities/visualization.py:22 | a byte divided by 255 is in `[0, 1]` |
| Colors.HexTextPairs | utilities/visualization.py:22 | the three pairs all parse exactly when all six characters are base-16 digits |
| Colors.ParsePairs | utilities/visualization.py:22 | six characters parse exactly when they are all base-16 digits, and otherwise give the pair error |
| Colors.HexToRgb | utilities/visualization.py:19-22 | the length error comes exactly when the stripped text is not six characters, and the pair error exactly when it is six with a non-hex character; on success, every component is in `[0, 1]` |
| Colors.PairRoundTrip | utilities/visualization.py:22 | parsing a byte's two hex digits gives the byte back |
| Colors.LStripRun | utilities/visualization.py:19 | stripping `#` from any number of `#` followed by other text gives that text |
| Colors.HexRoundTrip | utilities/visualization.py:9-22 | parsing `#...#RRGGBB` written from three bytes gives each byte divided by 255 |
| Colors.ToByteOfScaled | utilities/visualization.py:22 | a component read back as a byte is the byte it came from |
| Colors.ParsedBytes | utilities/visualization.py:22 | every parsed colour is three bytes divided by 255 |
| Colors.ReencodeParsedColor | utilities/visualization.py:9-22 | a parsed colour is reproduced exactly by parsing its canonical hex text |
| Colors.LowerText | utilities/visualization.py:22 | lower-casing keeps the length and lower-cases each character |
| Colors.LStripLower | utilities/visualization.py:19 | stripping the leading `#` commutes with lower-casing |
| Colors.HexToRgbIgnoresCase | utilities/visualization.py:19-22 | upper- and lower-case spellings of a colour give the same result, errors included |
| Colors.DocumentedExample | utilities/visualization.py:14-22 | `'#FF5733'` is `(255, 87, 51) / 255`, and `'FF5733'` gives the same |
| Timescales.TimescaleLabel | utilities/visualization.py:84-91 | " Stable" exactly below 1e-6; in `[1e-6, 0.5)` exactly `f"{t*1000:.0f}"` followed by " $\mu$s", and only there a microsecond suffix; from 0.5 on exactly `f"{t:.1f}"` followed by " ms", and only there a millisecond suffix |
| Timescales.LabelNamesBand | utilities/visualization.py:84-91 | the band can be read back from any label, whatever the decimal rendering |
| Timescales.BandMonotone | utilities/visualization.py:86-91 | a longer timescale never gets an earlier band |
| Timescales.CertainTransitionIsStable | utilities/visualization.py:137-145 | a transition of probability at least 1 is labelled " Stable" |
| Timescales.EdgeTimescale | utilities/visualization.py:137-138 | a transition of probability at least 1 has an infinite rate and so the timescale `1 / inf = 0`; below 1 the timescale is the supplied one |
| MarkovGraph.CertainEdgeIsStable | utilities/visualization.py:137-147 | with timescale labels, an edge of probability at least 1 reads " Stable" |
| MarkovGraph.EdgeLabel | utilities/visualization.py:144-147 | in timescale mode the label is exactly the timescale label of the edge's timescale (0 for probability at least 1, giving " Stable") and names its band; otherwise it is the probability with two decimals |
| MarkovGraph.Decimal | utilities/visualization.py:111 | `str(n)` is a non-empty string of decimal digits with no leading zero (only `0` itself starts with `'0'`) |
| MarkovGraph.DecimalRoundTrip | utilities/visualization.py:111 | `int(str(n)) == n` |
| MarkovGraph.DefaultLabelsDistinct | utilities/visualization.py:110-111 | the default labels `"State {i+1}"` of distinct states differ |
| MarkovGraph.StateName | utilities/visualization.py:111 | `f"State {i+1}"` is "State " followed by the digits of `i + 1`, which read back as `i + 1` |
| MarkovGraph.DefaultLabels | utilities/visualization.py:110-111 | exactly the nodes `0..N-1` get a label, and node `i`'s label is "State " and then the number `i + 1` |
| MarkovGraph.DefaultPositions | utilities/visualization.py:119-124 | exactly the nodes `0..N-1` get a position, node `i` at `(i, 0)`, and no two nodes share a position |
| MarkovGraph.EdgeSet | utilities/visualization.py:133-142 | the pairs `(a, b)` with `a, b < N` inside `P` and `P[a, b] > threshold`, with a strict comparison |
| MarkovGraph.RoutedLabels | utilities/visualization.py:149-158 | each map's keys are the edge set; an edge of the map's direction has its label, every other edge "" |
| MarkovGraph.EdgesStep | utilities/visualization.py:133-142 | visiting `(i, j)` adds that pair exactly when `P[i, j] > threshold`, and it was not there before |
| MarkovGraph.RoutedStep | utilities/visualization.py:140-158 | visiting `(i, j)` adds its routed label to each map above the threshold and changes nothing otherwise |
| MarkovGraph.RowEnd | utilities/visualization.py:133-134 | the end of row `i` is the start of row `i + 1` |
| MarkovGraph.NothingBefore | utilities/visualization.py:129-131 | before the loops there are no edges and the three maps are empty |
| MarkovGraph.CellStep | utilities/visualization.py:135-158 | one visit appends the pair and routes its labels above the threshold, and changes nothing otherwise; the visiting order is kept |
| MarkovGraph.VisitCell | utilities/visualization.py:135-158 | the loop body moves the built state from before `(i, j)` to before `(i, j + 1)` |
| MarkovGraph.AddRow | utilities/visualization.py:134-158 | the inner loop moves the built state from the start of row `i` to the start of row `i + 1` |
| MarkovGraph.PlaceNodes | utilities/visualization.py:103-126 | nodes `0..N-1` are added; without positions, node `i` is at `(i, 0)`; with positions, the first missing node raises KeyError, which happens exactly when some node is missing |
| MarkovGraph.EdgesDone | utilities/visualization.py:133-158 | after the double loop, the edges are exactly the pairs above the threshold, in visiting order, and the three maps are the routed labels |
| MarkovGraph.BuildGraph | utilities/visualization.py:100-158 | the KeyError cases as in PlaceNodes; then IndexError at the first row shorter than `N`, which happens exactly when some row is; otherwise the nodes, the positions, the supplied or default labels, the edges `(a, b)` exactly where `P[a, b] > threshold` in row-major order, and the three label maps |
| MarkovGraph.RoutingPartition | utilities/visualization.py:149-158 | each map's keys are exactly the edges; each edge's label is in the map of its direction, and the other two hold "" |
| MarkovGraph.ThresholdMonotone | utilities/visualization.py:140 | raising the threshold only removes edges |
| MarkovGraph.RowMajorDistinct | utilities/visualization.py:133-142 | the edge list never holds the same pair twice |
| MarkovGraph.TwoStateChain | utilities/visualization.py:140 | for `[[0.9, 0.1], [0.3, 0.7]]`, the default threshold gives all four edges and threshold 0.5 only the two self-loops |

## Left out

- Drawing is not modelled (`utilities/visualization.py:160-207`): node and
  edge drawing, arrow styles, the figure, `max_y`, label rotation and the
  Bezier-curve helpers at lines 25-81. The graph is modelled as its node
  list, position and label maps, edge list and three label maps. The
  `networkx.MultiDiGraph` object is represented by its node and edge lists.
- Node colour and node size only affect drawing, so they are not modelled.
- Floating point is not modelled. Arithmetic is exact on reals, so
  `w / w.sum()` sums to exactly 1 and the range and constant-signal lemmas
  hold exactly rather than up to rounding.
- The tapered windows are not modelled. `np.hanning`, `np.hamming`,
  `np.bartlett` and `np.blackman` (the `eval` at `utilities/stats.py:80`)
  are a parameter `taper`. It is only assumed to give `window_len`
  symmetric, non-negative weights with a positive sum. `np.blackman`'s end
  weights are rounding-level negatives in float64; this assumption treats
  them as 0.
- The transition rate `-np.log(1 - prob) / dt` for `prob < 1` is not
  modelled (`utilities/visualization.py:137`). The logarithm and `dt` are
  replaced by a parameter `finiteTimescale` that gives that edge's timescale.
  The case `prob >= 1` (infinite rate, timescale 0) is modelled.
- Decimal formatting of reals is not modelled. The formats `:.2f`, `:.0f` and
  `:.1f` are a parameter `fixed(v, d)`. The labels are proved to be exactly
  `fixed(t * 1000, 0)` followed by " $\mu$s" and `fixed(t, 1)` followed by
  " ms", but the digits `fixed` produces are not.
- Python's default arguments are not modelled as defaults: every argument is
  an explicit parameter. The constants `Cropping.DefaultAxis` (`axis=0`),
  `Smoothing.DefaultWindowLen` and `Smoothing.DefaultWindow`
  (`window_len=11`, `window='hanning'`), and `MarkovGraph.DefaultThreshold`
  and `MarkovGraph.DefaultUseTimescale` (`threshold=1.0e-6`,
  `use_timescale_instead_of_probabilities=False`) record them.
- Colors.HexToRgb: accepts exactly two ASCII base-16 digits per pair.
  Python's `int(_, 16)` also accepts a pair with a sign or surrounding
  whitespace (`int('-f', 16)`, `int(' f', 16)`) and pairs of non-ASCII
  Unicode decimal digits, such as Arabic-Indic or full-width digits
  (`int('١٢', 16) == 18`). The model reports all of those pairs as
  `NotHexPair`.
- MarkovGraph.BuildGraph: `P` is a sequence of rows. A `P` that is not
  two-dimensional, such as a 1-D array, which makes `P[i, j]` raise
  IndexError, cannot be represented. A 2-D `P` with fewer than `N` columns is
  modelled. The source raises IndexError partway through the first row; the
  model raises it at the start of that row. The difference is not observable,
  because the partly built graph is discarded with the exception.
- Cropping.CropArraysToMinSize: works on arrays of reals. Numpy's dtype,
  views versus copies, and any iterable other than a list are not modelled.
- Smoothing.ConvSmooth: the input's rank and size come from the array value.
  Inputs that are not numpy arrays (which would have no `ndim`) are not
  modelled.
