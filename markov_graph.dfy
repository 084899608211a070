/** The graph-building half of `visualize_markov_chain`: from a transition
    matrix to node positions and labels, the edge list, and the three maps that
    route each edge's label to self-loops, forward edges or backward edges.
    Drawing is not modelled. */
module MarkovGraph {
  import opened Wrappers
  import opened Timescales

  datatype Point = Point(x: real, y: real)

  /** The Python defaults of `threshold` and
      `use_timescale_instead_of_probabilities`; callers pass them explicitly
      here. */
  const DefaultThreshold: real := 0.000001
  const DefaultUseTimescale: bool := false

  /** `P[i, j]` is read for `i, j < N` where `N = P.shape[0]`: every row has at
      least `N` entries (columns beyond `N` are never read); otherwise reading
      `P[i, j]` raises IndexError. */
  predicate CoversSquare(P: seq<seq<real>>) {
    forall i :: 0 <= i < |P| ==> |P[i]| >= |P|
  }

  /** How edge labels are written: the flag choosing timescales over
      probabilities, the decimal rendering `fixed(v, d)` of a real with `d`
      decimals, and the timescale of a transition of probability below 1. */
  datatype LabelFormat = LabelFormat(useTimescale: bool, fixed: (real, nat) -> string, finiteTimescale: real -> real)

  /** The label of an edge of probability `prob`: `f"{prob:.2f}"`, or the
      timescale label when the flag is set. */
  function EdgeLabel(prob: real, fmt: LabelFormat): (text: string)
    ensures fmt.useTimescale ==> BandOfLabel(text) == Some(BandOf(EdgeTimescale(prob, fmt.finiteTimescale)))
    ensures fmt.useTimescale ==> text == TimescaleLabel(EdgeTimescale(prob, fmt.finiteTimescale), fmt.fixed)
    ensures fmt.useTimescale && prob >= 1.0 ==> text == StableLabel
    ensures !fmt.useTimescale ==> text == fmt.fixed(prob, 2)
  {
    LabelNamesBand(EdgeTimescale(prob, fmt.finiteTimescale), fmt.fixed);
    if fmt.useTimescale then TimescaleLabel(EdgeTimescale(prob, fmt.finiteTimescale), fmt.fixed)
    else fmt.fixed(prob, 2)
  }

  /** With timescale labels, a transition of probability at least 1 reads " Stable". */
  lemma CertainEdgeIsStable(prob: real, fmt: LabelFormat)
    requires fmt.useTimescale && prob >= 1.0
    ensures EdgeLabel(prob, fmt) == StableLabel
  {
    CertainTransitionIsStable(prob, fmt.finiteTimescale, fmt.fixed);
  }

  // ----- default node positions and labels -----

  /** `str(n)` */
  function Decimal(n: nat): (s: string)
    ensures |s| >= 1 && forall k :: 0 <= k < |s| ==> '0' <= s[k] <= '9'
    ensures n > 0 ==> s[0] != '0'
    ensures |s| == 1 || s[0] != '0'
    decreases n
  {
    if n < 10 then [('0' as nat + n) as char]
    else Decimal(n / 10) + [('0' as nat + n % 10) as char]
  }

  /** `int(s)` for a string of decimal digits. */
  function ParseDecimal(s: string): nat
    requires forall k :: 0 <= k < |s| ==> '0' <= s[k] <= '9'
  {
    if s == [] then 0 else ParseDecimal(s[..|s| - 1]) * 10 + (s[|s| - 1] as nat - '0' as nat)
  }

  lemma {:induction false} DecimalRoundTrip(n: nat)
    ensures ParseDecimal(Decimal(n)) == n
    decreases n
  {
    if n >= 10 {
      var s := Decimal(n);
      assert s[..|s| - 1] == Decimal(n / 10);
      DecimalRoundTrip(n / 10);
    }
  }

  /** `{i: f"State {i+1}" for i in range(N)}`: every node has a label, and
      the label of node `i` reads "State " and then the number `i + 1`. */
  function DefaultLabels(n: nat): (labels: map<nat, string>)
    ensures forall i: nat :: i in labels <==> i < n
    ensures forall i :: i in labels ==>
              && |labels[i]| > 6 && labels[i][..6] == "State " && labels[i][6..] == Decimal(i + 1)
              && ParseDecimal(labels[i][6..]) == i + 1
  {
    var labels := map i: nat | i < n :: StateName(i);
    assert forall i: nat :: i in labels ==> labels[i] == StateName(i);
    labels
  }

  function StateName(i: nat): (s: string)
    ensures |s| > 6 && s[..6] == "State "
    ensures s[6..] == Decimal(i + 1) && ParseDecimal(s[6..]) == i + 1
  {
    DecimalRoundTrip(i + 1);
    "State " + Decimal(i + 1)
  }

  /** Node `i` at `(i, 0)`: every node gets a place on the x-axis, and no two
      nodes share one. */
  function DefaultPositions(n: nat): (pos: map<nat, Point>)
    ensures forall i: nat :: i in pos <==> i < n
    ensures forall i :: i in pos ==> pos[i].y == 0.0 && pos[i].x == i as real
    ensures forall i, j :: i in pos && j in pos && i != j ==> pos[i] != pos[j]
  {
    var pos := map i: nat | i < n :: LinePosition(i);
    assert forall i: nat :: i in pos ==> pos[i] == LinePosition(i);
    pos
  }

  function LinePosition(i: nat): Point {
    Point(i as real, 0.0)
  }

  /** Every state gets a label of its own. */
  lemma DefaultLabelsDistinct(n: nat, i: nat, j: nat)
    requires i < n && j < n && i != j
    ensures DefaultLabels(n)[i] != DefaultLabels(n)[j]
  {
  }

  // ----- edges and routed labels -----

  /** `(a, b)` is visited before position `(i, j)` of the row-major double loop. */
  predicate VisitedBefore(e: (nat, nat), i: nat, j: nat) {
    e.0 < i || (e.0 == i && e.1 < j)
  }

  /** The edges the double loop has added before reaching `(i, j)`. */
  function EdgesBefore(P: seq<seq<real>>, threshold: real, i: nat, j: nat): set<(nat, nat)>
  {
    set a: nat, b: nat | a < |P| && b < |P| && b < |P[a]| && P[a][b] > threshold && VisitedBefore((a, b), i, j) :: (a, b)
  }

  /** `{(i, j) | P[i, j] > threshold}`: the comparison is strict. */
  function EdgeSet(P: seq<seq<real>>, threshold: real): (edges: set<(nat, nat)>)
    ensures forall a: nat, b: nat :: (a, b) in edges <==> a < |P| && b < |P| && b < |P[a]| && P[a][b] > threshold
  {
    EdgesBefore(P, threshold, |P|, 0)
  }

  datatype Direction = SelfLoop | Forward | Backward

  function DirectionOf(e: (nat, nat)): Direction {
    if e.0 == e.1 then SelfLoop else if e.1 > e.0 then Forward else Backward
  }

  /** What one of the three label maps holds for edge `e`: its label when the
      edge goes in direction `dir`, the empty string otherwise. */
  function Routed(P: seq<seq<real>>, fmt: LabelFormat, dir: Direction, e: (nat, nat)): string
    requires e.0 < |P| && e.1 < |P[e.0]|
  {
    if DirectionOf(e) == dir then EdgeLabel(P[e.0][e.1], fmt) else ""
  }

  /** The label map for direction `dir` as the double loop has built it before `(i, j)`. */
  function RoutedBefore(P: seq<seq<real>>, threshold: real, fmt: LabelFormat, dir: Direction, i: nat, j: nat): map<(nat, nat), string>
  {
    map e | e in EdgesBefore(P, threshold, i, j) :: Routed(P, fmt, dir, e)
  }

  /** The finished label map for direction `dir`. */
  function RoutedLabels(P: seq<seq<real>>, threshold: real, fmt: LabelFormat, dir: Direction): (labels: map<(nat, nat), string>)
    ensures labels.Keys == EdgeSet(P, threshold)
    ensures forall e :: e in labels && DirectionOf(e) == dir ==> labels[e] == EdgeLabel(P[e.0][e.1], fmt)
    ensures forall e :: e in labels && DirectionOf(e) != dir ==> labels[e] == ""
  {
    RoutedBefore(P, threshold, fmt, dir, |P|, 0)
  }

  /** One step of the inner loop: pair `(i, j)` is added exactly when its
      entry exceeds the threshold, and it was not there before. */
  lemma EdgesStep(P: seq<seq<real>>, threshold: real, i: nat, j: nat)
    requires i < |P| && j < |P| <= |P[i]|
    ensures (i, j) !in EdgesBefore(P, threshold, i, j)
    ensures EdgesBefore(P, threshold, i, j + 1) ==
              if P[i][j] > threshold then EdgesBefore(P, threshold, i, j) + {(i, j)}
              else EdgesBefore(P, threshold, i, j)
  {
  }

  lemma RoutedStep(P: seq<seq<real>>, threshold: real, fmt: LabelFormat, dir: Direction, i: nat, j: nat)
    requires i < |P| && j < |P| <= |P[i]|
    ensures P[i][j] > threshold ==>
              RoutedBefore(P, threshold, fmt, dir, i, j + 1) == RoutedBefore(P, threshold, fmt, dir, i, j)[(i, j) := Routed(P, fmt, dir, (i, j))]
    ensures P[i][j] <= threshold ==>
              RoutedBefore(P, threshold, fmt, dir, i, j + 1) == RoutedBefore(P, threshold, fmt, dir, i, j)
  {
    EdgesStep(P, threshold, i, j);
  }

  /** The end of row `i` is the start of row `i + 1`. */
  lemma RowEnd(P: seq<seq<real>>, threshold: real, fmt: LabelFormat, i: nat)
    requires i < |P|
    ensures EdgesBefore(P, threshold, i, |P|) == EdgesBefore(P, threshold, i + 1, 0)
    ensures forall dir :: RoutedBefore(P, threshold, fmt, dir, i, |P|) == RoutedBefore(P, threshold, fmt, dir, i + 1, 0)
  {
  }

  lemma NothingBefore(P: seq<seq<real>>, threshold: real, fmt: LabelFormat)
    ensures EdgesBefore(P, threshold, 0, 0) == {}
    ensures forall dir :: RoutedBefore(P, threshold, fmt, dir, 0, 0) == map[]
  {
  }

  lemma Overwrite<K, V>(m: map<K, V>, k: K, a: V, b: V)
    ensures m[k := a][k := b] == m[k := b]
  {
  }

  predicate LexLess(e: (nat, nat), f: (nat, nat)) {
    e.0 < f.0 || (e.0 == f.0 && e.1 < f.1)
  }

  /** The order the double loop visits pairs in, which is the order of `G.edges()`. */
  predicate RowMajor(edges: seq<(nat, nat)>) {
    forall p, q :: 0 <= p < q < |edges| ==> LexLess(edges[p], edges[q])
  }

  function Nodes(n: nat): (s: seq<nat>)
    ensures |s| == n && forall k :: 0 <= k < n ==> s[k] == k
  {
    seq(n, k requires 0 <= k < n => k)
  }

  /** `pos[i]` for a node with no entry in the supplied positions raises
      KeyError; `P[i, j]` past the end of row `i` raises IndexError. */
  datatype GraphError = MissingPosition(node: nat) | IndexOutOfRange(row: nat)

  datatype Graph = Graph(
    nodes: seq<nat>,
    pos: map<nat, Point>,
    labels: map<nat, string>,
    edges: seq<(nat, nat)>,
    selfLoopLabels: map<(nat, nat), string>,
    forwardLabels: map<(nat, nat), string>,
    backwardLabels: map<(nat, nat), string>)

  /** What the double loop has built before reaching `(i, j)`: the edge list
      in visiting order and the three label maps. */
  ghost predicate EdgesSoFar(P: seq<seq<real>>, threshold: real, fmt: LabelFormat, i: nat, j: nat,
                             edges: seq<(nat, nat)>, selfLoops: map<(nat, nat), string>,
                             forward: map<(nat, nat), string>, backward: map<(nat, nat), string>)
  {
    && (forall e :: e in edges <==> e in EdgesBefore(P, threshold, i, j))
    && RowMajor(edges)
    && selfLoops == RoutedBefore(P, threshold, fmt, SelfLoop, i, j)
    && forward == RoutedBefore(P, threshold, fmt, Forward, i, j)
    && backward == RoutedBefore(P, threshold, fmt, Backward, i, j)
  }

  /** The state after visiting `(i, j)`: the pair is appended and its labels
      routed when its entry exceeds the threshold; nothing changes otherwise. */
  lemma {:induction false} CellStep(P: seq<seq<real>>, threshold: real, fmt: LabelFormat, i: nat, j: nat,
                                    edges: seq<(nat, nat)>, selfLoops: map<(nat, nat), string>,
                                    forward: map<(nat, nat), string>, backward: map<(nat, nat), string>)
    requires i < |P| && j < |P| <= |P[i]|
    requires EdgesSoFar(P, threshold, fmt, i, j, edges, selfLoops, forward, backward)
    ensures P[i][j] > threshold ==>
              EdgesSoFar(P, threshold, fmt, i, j + 1, edges + [(i, j)],
                         selfLoops[(i, j) := Routed(P, fmt, SelfLoop, (i, j))],
                         forward[(i, j) := Routed(P, fmt, Forward, (i, j))],
                         backward[(i, j) := Routed(P, fmt, Backward, (i, j))])
    ensures P[i][j] <= threshold ==>
              EdgesSoFar(P, threshold, fmt, i, j + 1, edges, selfLoops, forward, backward)
  {
    EdgesStep(P, threshold, i, j);
    RoutedStep(P, threshold, fmt, SelfLoop, i, j);
    RoutedStep(P, threshold, fmt, Forward, i, j);
    RoutedStep(P, threshold, fmt, Backward, i, j);
    if P[i][j] > threshold {
      var edges' := edges + [(i, j)];
      forall p | 0 <= p < |edges| ensures LexLess(edges[p], (i, j)) {
        assert edges[p] in EdgesBefore(P, threshold, i, j);
      }
      assert RowMajor(edges') by {
        forall p, q | 0 <= p < q < |edges'| ensures LexLess(edges'[p], edges'[q]) {
          if q < |edges| {
            assert edges'[p] == edges[p] && edges'[q] == edges[q];
          }
        }
      }
      forall e ensures e in edges' <==> e in EdgesBefore(P, threshold, i, j + 1) {
        assert e in edges' <==> e in edges || e == (i, j);
      }
    }
  }

  /** The body of the inner loop of `visualize_markov_chain` at `(i, j)`: the
      pair is added when `P[i, j] > threshold`, its three label entries are
      first set to "" and the one for its direction then to the edge's label. */
  method VisitCell(P: seq<seq<real>>, threshold: real, fmt: LabelFormat, i: nat, j: nat,
                   edges: seq<(nat, nat)>, selfLoops: map<(nat, nat), string>,
                   forward: map<(nat, nat), string>, backward: map<(nat, nat), string>)
    returns (edges': seq<(nat, nat)>, selfLoops': map<(nat, nat), string>,
             forward': map<(nat, nat), string>, backward': map<(nat, nat), string>)
    requires i < |P| && j < |P| <= |P[i]|
    requires EdgesSoFar(P, threshold, fmt, i, j, edges, selfLoops, forward, backward)
    ensures EdgesSoFar(P, threshold, fmt, i, j + 1, edges', selfLoops', forward', backward')
  {
    CellStep(P, threshold, fmt, i, j, edges, selfLoops, forward, backward);
    edges', selfLoops', forward', backward' := edges, selfLoops, forward, backward;
    var prob := P[i][j];
    if prob > threshold {
      edges' := edges' + [(i, j)];
      var text := EdgeLabel(prob, fmt);
      selfLoops' := selfLoops'[(i, j) := ""];
      forward' := forward'[(i, j) := ""];
      backward' := backward'[(i, j) := ""];
      if i == j {
        selfLoops' := selfLoops'[(i, j) := text];
        Overwrite(selfLoops, (i, j), "", text);
      } else if j > i {
        forward' := forward'[(i, j) := text];
        Overwrite(forward, (i, j), "", text);
      } else {
        backward' := backward'[(i, j) := text];
        Overwrite(backward, (i, j), "", text);
      }
    }
  }

  /** The inner loop of `visualize_markov_chain` over row `i`. */
  method AddRow(P: seq<seq<real>>, threshold: real, fmt: LabelFormat, i: nat,
                edges: seq<(nat, nat)>, selfLoops: map<(nat, nat), string>,
                forward: map<(nat, nat), string>, backward: map<(nat, nat), string>)
    returns (edges': seq<(nat, nat)>, selfLoops': map<(nat, nat), string>,
             forward': map<(nat, nat), string>, backward': map<(nat, nat), string>)
    requires i < |P| && |P| <= |P[i]|
    requires EdgesSoFar(P, threshold, fmt, i, 0, edges, selfLoops, forward, backward)
    ensures EdgesSoFar(P, threshold, fmt, i + 1, 0, edges', selfLoops', forward', backward')
  {
    edges', selfLoops', forward', backward' := edges, selfLoops, forward, backward;
    var j := 0;
    while j < |P|
      invariant 0 <= j <= |P|
      invariant EdgesSoFar(P, threshold, fmt, i, j, edges', selfLoops', forward', backward')
    {
      edges', selfLoops', forward', backward' := VisitCell(P, threshold, fmt, i, j, edges', selfLoops', forward', backward');
      j := j + 1;
    }
    RowEnd(P, threshold, fmt, i);
  }

  /** Some node `i < n` has no entry in the supplied positions. */
  predicate PositionMissing(n: nat, nodePositions: Option<map<nat, Point>>) {
    nodePositions.Some? && exists i :: 0 <= i < n && i !in nodePositions.value
  }

  /** The first loop of `visualize_markov_chain`: add nodes `0 .. n - 1` and,
      without supplied positions, place node `i` at `(i, 0)`; with supplied
      positions, reading `pos[i]` raises KeyError for the first node missing. */
  method PlaceNodes(n: nat, nodePositions: Option<map<nat, Point>>)
    returns (r: Result<(seq<nat>, map<nat, Point>), GraphError>)
    ensures r.Failure? <==> PositionMissing(n, nodePositions)
    ensures r.Failure? ==> r.error.MissingPosition? && var i := r.error.node;
              && nodePositions.Some? && i < n && i !in nodePositions.value
              && forall k :: 0 <= k < i ==> k in nodePositions.value
    ensures r.Success? ==>
              && r.value.0 == Nodes(n)
              && r.value.1 == (if nodePositions.Some? then nodePositions.value else DefaultPositions(n))
  {
    var nodes: seq<nat> := [];
    var pos: map<nat, Point> := if nodePositions.Some? then nodePositions.value else map[];
    var i := 0;
    while i < n
      invariant 0 <= i <= n
      invariant nodes == Nodes(i)
      invariant nodePositions.None? ==> pos == DefaultPositions(i)
      invariant nodePositions.Some? ==> pos == nodePositions.value && forall k :: 0 <= k < i ==> k in pos
    {
      nodes := nodes + [i];
      if nodePositions.None? {
        pos := pos[i := LinePosition(i)];
      } else if i !in pos {
        return Failure(MissingPosition(i));
      }
      i := i + 1;
    }
    r := Success((nodes, pos));
  }

  /** The finished double loop: the edge list holds exactly the pairs above
      the threshold, in visiting order, and the three maps are the routed labels. */
  lemma EdgesDone(P: seq<seq<real>>, threshold: real, fmt: LabelFormat,
                  edges: seq<(nat, nat)>, selfLoops: map<(nat, nat), string>,
                  forward: map<(nat, nat), string>, backward: map<(nat, nat), string>)
    requires CoversSquare(P)
    requires EdgesSoFar(P, threshold, fmt, |P|, 0, edges, selfLoops, forward, backward)
    ensures forall e :: e in edges ==> e.0 < |P| && e.1 < |P|
    ensures forall a: nat, b: nat :: a < |P| && b < |P| ==> ((a, b) in edges <==> P[a][b] > threshold)
    ensures RowMajor(edges)
    ensures selfLoops == RoutedLabels(P, threshold, fmt, SelfLoop)
    ensures forward == RoutedLabels(P, threshold, fmt, Forward)
    ensures backward == RoutedLabels(P, threshold, fmt, Backward)
  {
    forall a: nat, b: nat | a < |P| && b < |P| ensures (a, b) in edges <==> P[a][b] > threshold {
      assert (a, b) in edges <==> (a, b) in EdgesBefore(P, threshold, |P|, 0);
    }
  }

  /** Lines 100-158 of `visualize_markov_chain`: the nodes, their positions
      and labels, and the edges with their routed labels, in the order the
      loops produce them. */
  method BuildGraph(P: seq<seq<real>>, threshold: real, fmt: LabelFormat,
                    nodePositions: Option<map<nat, Point>>, labels: Option<map<nat, string>>)
    returns (r: Result<Graph, GraphError>)
    ensures r.Failure? <==> PositionMissing(|P|, nodePositions) || !CoversSquare(P)
    ensures r.Failure? && r.error.MissingPosition? <==> PositionMissing(|P|, nodePositions)
    ensures r.Failure? && r.error.MissingPosition? ==> var i := r.error.node;
              && nodePositions.Some? && i < |P| && i !in nodePositions.value
              && forall k :: 0 <= k < i ==> k in nodePositions.value
    ensures r.Failure? && r.error.IndexOutOfRange? ==> var i := r.error.row;
              && i < |P| && |P[i]| < |P|
              && forall k :: 0 <= k < i ==> |P[k]| >= |P|
    ensures r.Success? ==> var g := r.value;
              && CoversSquare(P)
              && g.nodes == Nodes(|P|)
              && g.pos == (if nodePositions.Some? then nodePositions.value else DefaultPositions(|P|))
              && g.labels == (if labels.Some? then labels.value else DefaultLabels(|P|))
              && (forall e :: e in g.edges ==> e.0 < |P| && e.1 < |P|)
              && (forall a: nat, b: nat :: a < |P| && b < |P| ==> ((a, b) in g.edges <==> P[a][b] > threshold))
              && RowMajor(g.edges)
              && g.selfLoopLabels == RoutedLabels(P, threshold, fmt, SelfLoop)
              && g.forwardLabels == RoutedLabels(P, threshold, fmt, Forward)
              && g.backwardLabels == RoutedLabels(P, threshold, fmt, Backward)
  {
    var n := |P|;
    var nodeLabels := if labels.Some? then labels.value else DefaultLabels(n);
    var placed := PlaceNodes(n, nodePositions);
    if placed.Failure? {
      return Failure(placed.error);
    }
    var (nodes, pos) := placed.value;

    var edges: seq<(nat, nat)> := [];
    var selfLoops: map<(nat, nat), string> := map[];
    var forward: map<(nat, nat), string> := map[];
    var backward: map<(nat, nat), string> := map[];
    NothingBefore(P, threshold, fmt);
    var i := 0;
    while i < n
      invariant 0 <= i <= n
      invariant forall k :: 0 <= k < i ==> |P[k]| >= n
      invariant EdgesSoFar(P, threshold, fmt, i, 0, edges, selfLoops, forward, backward)
    {
      if |P[i]| < n {
        // P[i, |P[i]|] is out of range; the graph built so far is discarded
        return Failure(IndexOutOfRange(i));
      }
      edges, selfLoops, forward, backward := AddRow(P, threshold, fmt, i, edges, selfLoops, forward, backward);
      i := i + 1;
    }
    EdgesDone(P, threshold, fmt, edges, selfLoops, forward, backward);
    r := Success(Graph(nodes, pos, nodeLabels, edges, selfLoops, forward, backward));
  }

  // ----- properties of the finished graph -----

  /** Every drawn edge's label lands in exactly one map, the one of its
      direction; the other two maps hold "" for it, and no map has other keys. */
  lemma RoutingPartition(P: seq<seq<real>>, threshold: real, fmt: LabelFormat, e: (nat, nat))
    ensures e in RoutedLabels(P, threshold, fmt, SelfLoop) <==> e in EdgeSet(P, threshold)
    ensures e in RoutedLabels(P, threshold, fmt, Forward) <==> e in EdgeSet(P, threshold)
    ensures e in RoutedLabels(P, threshold, fmt, Backward) <==> e in EdgeSet(P, threshold)
    ensures e in EdgeSet(P, threshold) ==>
              && e.0 < |P| && e.1 < |P|
              && RoutedLabels(P, threshold, fmt, DirectionOf(e))[e] == EdgeLabel(P[e.0][e.1], fmt)
              && forall dir :: dir != DirectionOf(e) ==> RoutedLabels(P, threshold, fmt, dir)[e] == ""
  {
  }

  /** Raising the threshold only removes edges. */
  lemma ThresholdMonotone(P: seq<seq<real>>, low: real, high: real)
    requires low <= high
    ensures EdgeSet(P, high) <= EdgeSet(P, low)
  {
  }

  /** An edge list in visiting order never holds the same pair twice, as a
      `MultiDiGraph` would allow. */
  lemma {:induction false} RowMajorDistinct(edges: seq<(nat, nat)>, p: nat, q: nat)
    requires RowMajor(edges) && p < |edges| && q < |edges| && p != q
    ensures edges[p] != edges[q]
  {
    if p < q {
      assert LexLess(edges[p], edges[q]);
    } else {
      assert LexLess(edges[q], edges[p]);
    }
  }

  /** The two-state chain `[[0.9, 0.1], [0.3, 0.7]]`: at the default threshold
      all four transitions are edges, at 0.5 only the two self-loops remain. */
  lemma TwoStateChain()
    ensures var P := [[0.9, 0.1], [0.3, 0.7]];
            && CoversSquare(P)
            && EdgeSet(P, 0.000001) == {(0, 0), (0, 1), (1, 0), (1, 1)}
            && EdgeSet(P, 0.5) == {(0, 0), (1, 1)}
  {
    var P := [[0.9, 0.1], [0.3, 0.7]];
    assert (0, 0) in EdgeSet(P, 0.5) && (1, 1) in EdgeSet(P, 0.5);
    assert (0, 0) in EdgeSet(P, 0.000001) && (0, 1) in EdgeSet(P, 0.000001);
    assert (1, 0) in EdgeSet(P, 0.000001) && (1, 1) in EdgeSet(P, 0.000001);
  }
}
