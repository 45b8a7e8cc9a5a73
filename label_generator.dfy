/** The graph label generator: per-point metadata derived once from the
    subdivided road graph, and the label of one training patch. */
module GraphLabels {
  import opened Geometry
  import opened Samples
  import opened Outcomes

  /** The configuration keys the generator reads. */
  datatype Config = Config(
    patchSize: int,
    roadNmsRadius: real,
    topoSampleNum: nat,
    neighborRadius: int,
    maxNeighborQueries: nat)

  /** Spacing, in pixels, of the subdivided road graph. */
  const SubdivideResolution := 4
  const CrossoverExcludeRadius := 4.0
  const InterestingRadius := 32.0

  // ---------------------------------------------------------------------------
  // Neighbourhoods of the graph points.

  /** The points within r of any of the centres: the union of one ball query per centre. */
  function Near(points: seq<Point>, centres: seq<Point>, r: real): (s: set<nat>)
    ensures forall i :: i in s ==> i < |points|
  {
    if centres == [] then {} else Near(points, centres[..|centres| - 1], r) + BallQuery(points, centres[|centres| - 1], r)
  }

  lemma {:induction false} NearMembers(points: seq<Point>, centres: seq<Point>, r: real)
    ensures forall i: int :: i in Near(points, centres, r) <==>
      0 <= i < |points| && exists c :: 0 <= c < |centres| && Within(points[i], centres[c], r)
  {
    if centres != [] {
      var init := centres[..|centres| - 1];
      NearMembers(points, init, r);
      forall i: int | 0 <= i < |points| && (exists c :: 0 <= c < |centres| && Within(points[i], centres[c], r))
        ensures i in Near(points, centres, r)
      {
        var c :| 0 <= c < |centres| && Within(points[i], centres[c], r);
        if c < |init| {
          assert init[c] == centres[c];
        }
      }
    }
  }

  /** The points within r of any of the points whose indices are in `centres`. */
  function NearIndices(points: seq<Point>, centres: set<nat>, r: real): (s: set<nat>)
    ensures forall j: int :: j in s <==>
      0 <= j < |points| && exists i :: i in centres && i < |points| && j in BallQuery(points, points[i], r)
  {
    set i, j | i in centres && i < |points| && j in BallQuery(points, points[i], r) :: j
  }

  lemma NearIndicesAdd(points: seq<Point>, done: set<nat>, i: nat, r: real)
    requires i < |points|
    ensures NearIndices(points, done + {i}, r) == NearIndices(points, done, r) + BallQuery(points, points[i], r)
  {
    var lhs, rhs := NearIndices(points, done + {i}, r), NearIndices(points, done, r) + BallQuery(points, points[i], r);
    forall j: int | j in lhs
      ensures j in rhs
    {
      var k :| k in done + {i} && k < |points| && j in BallQuery(points, points[k], r);
      if k != i {
        assert k in done;
      }
    }
    forall j: int | j in rhs
      ensures j in lhs
    {
      if j !in BallQuery(points, points[i], r) {
        var k :| k in done && k < |points| && j in BallQuery(points, points[k], r);
        assert k in done + {i};
      } else {
        assert i in done + {i};
      }
    }
  }

  /** Vertices of degree other than 2: dead ends and junctions. */
  function Junctions(degree: seq<nat>): (s: set<nat>)
    ensures forall i: int :: i in s <==> 0 <= i < |degree| && degree[i] != 2
  {
    set i: nat | i < |degree| && degree[i] != 2
  }

  /** The points sampled more often: near a junction or near a crossover. */
  function Interesting(points: seq<Point>, degree: seq<nat>, crossovers: seq<Point>): (s: set<nat>)
    ensures forall i: int :: i in s <==>
      && 0 <= i < |points|
      && ((exists j :: 0 <= j < |degree| && degree[j] != 2 && j < |points| && Within(points[i], points[j], InterestingRadius))
          || (exists c :: 0 <= c < |crossovers| && Within(points[i], crossovers[c], InterestingRadius)))
  {
    NearMembers(points, crossovers, InterestingRadius);
    NearIndices(points, Junctions(degree), InterestingRadius) + Near(points, crossovers, InterestingRadius)
  }

  /** NMS override score per point: 2.0 for a junction, 0 otherwise. */
  function OverrideScores(degree: seq<nat>): (r: seq<real>)
    ensures |r| == |degree|
    ensures forall i :: 0 <= i < |degree| ==> (r[i] == 2.0 <==> degree[i] != 2) && (r[i] == 0.0 <==> degree[i] == 2)
  {
    var itsc := Junctions(degree);
    assert forall i :: 0 <= i < |degree| ==> (i in itsc <==> degree[i] != 2);
    seq(|degree|, i requires 0 <= i < |degree| => if i in itsc then 2.0 else 0.0)
  }

  /** Anchor draw weight per point: 0.9 for an interesting point, 0.1 otherwise. */
  function SampleWeights(n: nat, interesting: set<nat>): (r: seq<real>)
    ensures |r| == n
    ensures forall i :: 0 <= i < n ==> (r[i] == 0.9 <==> i in interesting) && (r[i] == 0.1 <==> i !in interesting)
    ensures forall i :: 0 <= i < n ==> r[i] > 0.0
  {
    seq(n, i requires 0 <= i < n => if i in interesting then 0.9 else 0.1)
  }

  // ---------------------------------------------------------------------------
  // The override scatter as the constructor writes it.

  datatype ScatterError = NonIntegerIndexArray

  /** The zero array with 2.0 scattered at the junctions through an index
      array built from the list of junctions. numpy gives the array built
      from an empty list a float dtype, and indexing with a float array
      raises, so a graph without a single junction is rejected. */
  function OverrideScatterAsWritten(degree: seq<nat>): (r: Result<seq<real>, ScatterError>)
    ensures r.Err? <==> forall i :: 0 <= i < |degree| ==> degree[i] == 2
    ensures r.Ok? ==> r.value == OverrideScores(degree)
  {
    var itsc := Junctions(degree);
    if itsc == {} then Err(NonIntegerIndexArray)
    else Ok(seq(|degree|, i requires 0 <= i < |degree| => if i in itsc then 2.0 else 0.0))
  }

  /** A ring road (every subdivided vertex has degree 2) makes the scatter
      raise, while the intended scores for it are all zero. */
  lemma RingRoadRejected()
    ensures OverrideScatterAsWritten([2, 2, 2]).Err?
    ensures OverrideScores([2, 2, 2]) == [0.0, 0.0, 0.0]
  {
    assert Junctions([2, 2, 2]) == {};
  }

  // ---------------------------------------------------------------------------
  // The loops of the constructor.

  /** Indices of the points within r of a crossover, one ball query per crossover. */
  method NearCrossovers(points: seq<Point>, crossovers: seq<Point>, r: real) returns (s: set<nat>)
    ensures s == Near(points, crossovers, r)
    ensures forall i: int :: i in s <==> 0 <= i < |points| && exists c :: 0 <= c < |crossovers| && Within(points[i], crossovers[c], r)
  {
    s := {};
    var k := 0;
    while k < |crossovers|
      invariant 0 <= k <= |crossovers|
      invariant s == Near(points, crossovers[..k], r)
    {
      assert crossovers[..k + 1][..k] == crossovers[..k];
      s := s + BallQuery(points, crossovers[k], r);
      k := k + 1;
    }
    assert crossovers[..k] == crossovers;
    NearMembers(points, crossovers, r);
  }

  /** Indices of the vertices whose degree is not 2. */
  method JunctionIndices(degree: seq<nat>) returns (s: set<nat>)
    ensures forall i: int :: i in s <==> 0 <= i < |degree| && degree[i] != 2
  {
    s := {};
    var i := 0;
    while i < |degree|
      invariant 0 <= i <= |degree|
      invariant forall j: int :: j in s <==> 0 <= j < i && degree[j] != 2
    {
      if degree[i] != 2 {
        s := s + {i};
      }
      i := i + 1;
    }
  }

  /** Indices of the points within r of a junction, the junctions visited
      in the set's own order. */
  method NearJunctions(points: seq<Point>, itsc: set<nat>, r: real) returns (s: set<nat>)
    requires forall i :: i in itsc ==> i < |points|
    ensures s == NearIndices(points, itsc, r)
  {
    s := {};
    var rest := itsc;
    while rest != {}
      invariant rest <= itsc
      invariant s == NearIndices(points, itsc - rest, r)
      decreases |rest|
    {
      var i :| i in rest;
      NearIndicesAdd(points, itsc - rest, i, r);
      assert itsc - (rest - {i}) == (itsc - rest) + {i};
      s := s + BallQuery(points, points[i], r);
      rest := rest - {i};
    }
    assert itsc - rest == itsc;
  }

  /** Indices of the points within r of a junction or of a crossover. */
  method InterestingIndices(points: seq<Point>, itsc: set<nat>, crossovers: seq<Point>, r: real) returns (s: set<nat>)
    requires forall i :: i in itsc ==> i < |points|
    ensures s == NearIndices(points, itsc, r) + Near(points, crossovers, r)
  {
    var nearJunctions := NearJunctions(points, itsc, r);
    var nearCrossovers := NearCrossovers(points, crossovers, r);
    s := nearJunctions + nearCrossovers;
  }

  /** A fresh array of n copies of `fill`, then `value` written at every
      listed index: numpy's `full` followed by an indexed assignment. */
  method Scatter(n: nat, fill: real, indices: set<nat>, value: real) returns (a: array<real>)
    ensures fresh(a) && a.Length == n
    ensures forall i :: 0 <= i < n ==> a[i] == if i in indices then value else fill
  {
    a := new real[n](_ => fill);
    forall i | 0 <= i < n && i in indices {
      a[i] := value;
    }
  }

  /** `list(s)`: the members of a set, each once, in an order the model leaves open. */
  method EnumerateSet(s: set<nat>) returns (xs: seq<nat>)
    ensures |xs| == |s|
    ensures forall x :: x in xs <==> x in s
    ensures forall i, j :: 0 <= i < j < |xs| ==> xs[i] != xs[j]
  {
    xs := [];
    var rest := s;
    while rest != {}
      invariant rest <= s
      invariant |xs| + |rest| == |s|
      invariant forall x :: x in xs <==> x in s && x !in rest
      invariant forall i, j :: 0 <= i < j < |xs| ==> xs[i] != xs[j]
      decreases |rest|
    {
      var x :| x in rest;
      xs := xs + [x];
      rest := rest - {x};
    }
  }

  // ---------------------------------------------------------------------------
  // Randomness and library queries the patch sampler consumes.

  /** `uniform(n)`: n NMS scores drawn from [0.9, 1.0).
      `nms(points, scores, radius)`: the indices `nms_points` keeps.
      `choice(n, p, size)`: `size` draws from 0..n-1 with probabilities p.
      `knn(points, q, k, bound)`: the KD-tree's k nearest neighbours of q
      within `bound`, nearest first, with `|points|` for a missing one.
      `bfs(source, targets, hops)`: the targets the bounded graph search reaches.
      `gauss(n)`: n unit Gaussian offsets. */
  datatype Oracles = Oracles(
    uniform: nat -> seq<real>,
    nms: (seq<Point>, seq<real>, real) -> seq<nat>,
    choice: (nat, seq<real>, nat) -> seq<nat>,
    knn: (seq<Point>, Point, nat, real) -> seq<nat>,
    bfs: (nat, set<nat>, int) -> set<nat>,
    gauss: nat -> seq<Point>)

  /** What the model relies on from each draw and query: result sizes and index ranges. */
  ghost predicate Sound(o: Oracles)
  {
    && (forall n :: |o.uniform(n)| == n)
    && (forall n, j :: 0 <= j < |o.uniform(n)| ==> 0.9 <= o.uniform(n)[j] <= 1.0)
    && (forall pts, sc, r, j :: 0 <= j < |o.nms(pts, sc, r)| ==> o.nms(pts, sc, r)[j] < |pts|)
    && (forall n, p, size :: n > 0 ==> |o.choice(n, p, size)| == size)
    && (forall n, p, size, j :: n > 0 && 0 <= j < |o.choice(n, p, size)| ==> o.choice(n, p, size)[j] < n)
    && (forall pts, q, k, r :: |o.knn(pts, q, k, r)| == k)
    && (forall pts, q, k, r, j :: 0 <= j < |o.knn(pts, q, k, r)| ==> o.knn(pts, q, k, r)[j] <= |pts|)
    && (forall v, targets, hops :: o.bfs(v, targets, hops) <= targets)
    && (forall n :: |o.gauss(n)| == n)
  }

  /** The NMS score of each candidate: its random score raised to its override. */
  function NmsScores(random: seq<real>, override: seq<real>): (r: seq<real>)
    requires |random| == |override|
    requires forall j :: 0 <= j < |random| ==> 0.9 <= random[j] <= 1.0
    requires forall j :: 0 <= j < |override| ==> override[j] == 0.0 || override[j] == 2.0
    ensures |r| == |random|
    ensures forall j :: 0 <= j < |r| ==> (r[j] == 2.0 <==> override[j] == 2.0)
    ensures forall j :: 0 <= j < |r| ==> override[j] != 2.0 ==> r[j] == random[j] <= 1.0
  {
    seq(|random|, j requires 0 <= j < |random| => if random[j] < override[j] then override[j] else random[j])
  }

  /** A junction outranks every other candidate in the suppression, so it is always kept. */
  lemma JunctionsOutrank(random: seq<real>, override: seq<real>, j: nat, k: nat)
    requires |random| == |override|
    requires forall i :: 0 <= i < |random| ==> 0.9 <= random[i] <= 1.0
    requires forall i :: 0 <= i < |override| ==> override[i] == 0.0 || override[i] == 2.0
    requires j < |random| && k < |random|
    requires override[j] == 2.0 && override[k] != 2.0
    ensures NmsScores(random, override)[j] > NmsScores(random, override)[k]
  {
  }

  /** What `sample_patch` returns. */
  datatype Label = Label(points: seq<Point>, samples: seq<Sample>)

  /** Why `sample_patch` raises: the anchor draw has no point to draw from,
      or the neighbour query asks for a single neighbour, so scipy squeezes
      its index array to one dimension and the row indexing fails. */
  datatype PatchError = EmptyDraw | SqueezedNeighbourIndex

  /** `MAX_NEIGHBOR_QUERIES` of 0 makes the query ask for k = 1, and some
      anchor's row is then indexed. */
  predicate SqueezedQuery(config: Config)
  {
    config.maxNeighborQueries == 0 && config.topoSampleNum > 0
  }

  /** The label returned for a patch without candidates: one point at the
      origin and the stand-in sample for every anchor. */
  function SentinelLabel(config: Config): (l: Label)
    ensures |l.points| == 1 && |l.samples| == config.topoSampleNum
    ensures forall i :: 0 <= i < |l.samples| ==>
      && WellShaped(l.samples[i], |l.points|, config.maxNeighborQueries)
      && forall j :: 0 <= j < config.maxNeighborQueries ==> !l.samples[i].valid[j]
  {
    Label([Point(0.0, 0.0)], SentinelSamples(config.topoSampleNum, config.maxNeighborQueries))
  }

  /** Every sample of a label is well shaped against its point count. */
  predicate WellShapedLabel(l: Label, config: Config)
  {
    && |l.points| > 0
    && |l.samples| == config.topoSampleNum
    && forall i :: 0 <= i < |l.samples| ==> WellShaped(l.samples[i], |l.points|, config.maxNeighborQueries)
  }

  /** The entries of a per-point sequence at the given indices, in order. */
  function Gather<T>(xs: seq<T>, idx: seq<nat>): (r: seq<T>)
    requires forall j :: 0 <= j < |idx| ==> idx[j] < |xs|
    ensures |r| == |idx|
  {
    seq(|idx|, j requires 0 <= j < |idx| => xs[idx[j]])
  }

  /** The anchors drawn among n kept points, as positions in the kept list. */
  function Anchors(o: Oracles, weights: seq<real>, sampleNum: nat): (anchors: seq<nat>)
    requires Sound(o)
    requires |weights| > 0 && forall j :: 0 <= j < |weights| ==> weights[j] > 0.0
    ensures |anchors| == sampleNum
    ensures forall i :: 0 <= i < sampleNum ==> anchors[i] < |weights|
  {
    o.choice(|weights|, ChoiceProbabilities(weights), sampleNum)
  }

  /** The nearest-neighbour row of one anchor: k = width + 1 neighbours
      within the neighbour radius. */
  function KnnRow(o: Oracles, keptPoints: seq<Point>, anchor: nat, width: nat, radius: int): (row: seq<nat>)
    requires Sound(o)
    requires anchor < |keptPoints|
    ensures |row| == width + 1
  {
    o.knn(keptPoints, keptPoints[anchor], width + 1, radius as real)
  }

  /** The samples of a label: sample i belongs to the i-th drawn anchor and
      is built from its nearest kept neighbours and the graph search. */
  predicate SamplesOfKept(samples: seq<Sample>, keptPoints: seq<Point>, keptNodes: seq<nat>, weights: seq<real>,
                          config: Config, o: Oracles)
    requires Sound(o)
    requires |keptNodes| == |keptPoints| == |weights| > 0
    requires forall j :: 0 <= j < |weights| ==> weights[j] > 0.0
  {
    && |samples| == config.topoSampleNum
    && forall i :: 0 <= i < config.topoSampleNum ==>
         var anchor := Anchors(o, weights, config.topoSampleNum)[i];
         SampleOfAnchor(samples[i], keptNodes, anchor,
                        KnnRow(o, keptPoints, anchor, config.maxNeighborQueries, config.neighborRadius),
                        o.bfs, config.neighborRadius / SubdivideResolution, config.maxNeighborQueries)
  }

  /** The label of the kept points: each point moved into rotated
      patch-local coordinates and jittered by its noise, and the samples of
      the drawn anchors. */
  predicate LabelOfKept(l: Label, keptPoints: seq<Point>, keptNodes: seq<nat>, weights: seq<real>, origin: Point,
                        config: Config, rotIndex: int, o: Oracles)
    requires Sound(o)
    requires |keptNodes| == |keptPoints| == |weights| > 0
    requires forall j :: 0 <= j < |weights| ==> weights[j] > 0.0
  {
    && |l.points| == |keptPoints|
    && (forall j :: 0 <= j < |keptPoints| ==>
          l.points[j] == Add(LocalTransform(keptPoints[j], origin, config.patchSize as real, rotIndex),
                             o.gauss(|keptPoints|)[j]))
    && SamplesOfKept(l.samples, keptPoints, keptNodes, weights, config, o)
  }

  /** The samples of a label: anchors drawn by weight, then one sample per
      anchor from its nearest kept neighbours and the graph search. */
  method LabelSamples(keptPoints: seq<Point>, keptNodes: seq<nat>, weights: seq<real>, config: Config, o: Oracles)
    returns (samples: seq<Sample>)
    requires |keptNodes| == |keptPoints| == |weights| > 0
    requires forall j :: 0 <= j < |weights| ==> weights[j] > 0.0
    requires Sound(o)
    ensures SamplesOfKept(samples, keptPoints, keptNodes, weights, config, o)
  {
    var anchors := Anchors(o, weights, config.topoSampleNum);
    var width := config.maxNeighborQueries;
    var knnRows := seq(config.topoSampleNum, i requires 0 <= i < config.topoSampleNum =>
                         KnnRow(o, keptPoints, anchors[i], width, config.neighborRadius));
    // Python's `//` and Dafny's `/` agree for a positive divisor.
    var hops := config.neighborRadius / SubdivideResolution;
    samples := BuildSamples(keptNodes, anchors, knnRows, o.bfs, hops, width);
  }

  /** Every sample of the kept points is well shaped against their count. */
  lemma SamplesWellShaped(samples: seq<Sample>, keptPoints: seq<Point>, keptNodes: seq<nat>, weights: seq<real>,
                          config: Config, o: Oracles)
    requires Sound(o)
    requires |keptNodes| == |keptPoints| == |weights| > 0
    requires forall j :: 0 <= j < |weights| ==> weights[j] > 0.0
    requires SamplesOfKept(samples, keptPoints, keptNodes, weights, config, o)
    ensures forall i :: 0 <= i < |samples| ==> WellShaped(samples[i], |keptPoints|, config.maxNeighborQueries)
  {
  }

  /** The part of `sample_patch` after suppression: the anchor draw, the
      neighbour query, the samples, then the kept points moved into rotated
      patch-local coordinates and jittered. */
  method AssembleLabel(keptPoints: seq<Point>, keptNodes: seq<nat>, weights: seq<real>, origin: Point,
                       config: Config, rotIndex: int, o: Oracles)
    returns (r: Result<Label, PatchError>)
    requires |keptNodes| == |keptPoints| == |weights|
    requires forall j :: 0 <= j < |weights| ==> weights[j] > 0.0
    requires Sound(o)
    ensures r.Err? <==> |keptPoints| == 0 || SqueezedQuery(config)
    ensures r.Err? ==> r.error == if |keptPoints| == 0 then EmptyDraw else SqueezedNeighbourIndex
    ensures r.Ok? ==> LabelOfKept(r.value, keptPoints, keptNodes, weights, origin, config, rotIndex, o)
    ensures r.Ok? ==> WellShapedLabel(r.value, config)
  {
    var n := |keptPoints|;
    if n == 0 {
      return Err(EmptyDraw);
    }
    if SqueezedQuery(config) {
      return Err(SqueezedNeighbourIndex);
    }
    var samples := LabelSamples(keptPoints, keptNodes, weights, config, o);
    SamplesWellShaped(samples, keptPoints, keptNodes, weights, config, o);
    var noise := o.gauss(n);
    var points := seq(n, j requires 0 <= j < n =>
                        Add(LocalTransform(keptPoints[j], origin, config.patchSize as real, rotIndex), noise[j]));
    r := Ok(Label(points, samples));
  }

  /** What the label of a patch with the given candidates is: the sentinel
      when there are none; otherwise a label built from kept nodes that are
      all candidates, failing exactly when none is kept or the neighbour
      query is squeezed. */
  predicate PatchLabelOf(r: Result<Label, PatchError>, keptNodes: seq<nat>, points: seq<Point>, candidateSet: set<nat>,
                         sampleWeights: seq<real>, config: Config, origin: Point, rotIndex: int, o: Oracles)
    requires forall i :: i in candidateSet ==> i < |points|
    requires |sampleWeights| == |points|
    requires forall i :: 0 <= i < |sampleWeights| ==> sampleWeights[i] > 0.0
    requires Sound(o)
  {
    && (forall j :: 0 <= j < |keptNodes| ==> keptNodes[j] in candidateSet)
    && (candidateSet == {} ==> r == Ok(SentinelLabel(config)) && keptNodes == [])
    && (candidateSet != {} ==> (r.Err? <==> |keptNodes| == 0 || SqueezedQuery(config)))
    && (candidateSet != {} && r.Err? ==> r.error == if |keptNodes| == 0 then EmptyDraw else SqueezedNeighbourIndex)
    && (candidateSet != {} && r.Ok? ==>
          LabelOfKept(r.value, Gather(points, keptNodes), keptNodes, Gather(sampleWeights, keptNodes),
                      origin, config, rotIndex, o))
    && (r.Ok? ==> WellShapedLabel(r.value, config))
  }

  /** The suppression step of `sample_patch`: `cands` lists the candidate
      set once each, and the kept nodes are the candidates at the indices
      `nms_points` keeps when the candidates are scored by NmsScores. */
  ghost predicate KeptBySuppression(keptNodes: seq<nat>, cands: seq<nat>, candidateSet: set<nat>, points: seq<Point>,
                              overrides: seq<real>, config: Config, o: Oracles)
    requires forall i :: i in candidateSet ==> i < |points|
    requires |overrides| == |points|
    requires forall i :: 0 <= i < |overrides| ==> overrides[i] == 0.0 || overrides[i] == 2.0
    requires Sound(o)
  {
    && |cands| == |candidateSet|
    && (forall x :: x in cands <==> x in candidateSet)
    && (candidateSet != {} ==>
          assert forall j :: 0 <= j < |cands| ==> cands[j] in candidateSet;
          var kept := o.nms(Gather(points, cands), NmsScores(o.uniform(|cands|), Gather(overrides, cands)),
                            config.roadNmsRadius);
          keptNodes == Gather(cands, kept))
  }

  /** The body of `sample_patch` once the candidates are known: the
      sentinel for an empty patch; otherwise suppression over the
      candidates, listed in the set's own order, then the label of the kept
      points. */
  method PatchLabel(points: seq<Point>, candidateSet: set<nat>, overrides: seq<real>, sampleWeights: seq<real>,
                    config: Config, origin: Point, rotIndex: int, o: Oracles)
    returns (r: Result<Label, PatchError>, keptNodes: seq<nat>, ghost cands: seq<nat>)
    requires forall i :: i in candidateSet ==> i < |points|
    requires |overrides| == |sampleWeights| == |points|
    requires forall i :: 0 <= i < |overrides| ==> overrides[i] == 0.0 || overrides[i] == 2.0
    requires forall i :: 0 <= i < |sampleWeights| ==> sampleWeights[i] > 0.0
    requires Sound(o)
    ensures PatchLabelOf(r, keptNodes, points, candidateSet, sampleWeights, config, origin, rotIndex, o)
    ensures KeptBySuppression(keptNodes, cands, candidateSet, points, overrides, config, o)
  {
    var candidates := EnumerateSet(candidateSet);
    cands := candidates;
    if |candidates| == 0 {
      return Ok(SentinelLabel(config)), [], cands;
    }
    var m := |candidates|;
    assert forall j :: 0 <= j < m ==> candidates[j] in candidateSet;
    var patchPoints := seq(m, j requires 0 <= j < m => points[candidates[j]]);
    var override := seq(m, j requires 0 <= j < m => overrides[candidates[j]]);
    var scores := NmsScores(o.uniform(m), override);
    var kept := o.nms(patchPoints, scores, config.roadNmsRadius);
    assert forall j :: 0 <= j < |kept| ==> kept[j] < m;
    keptNodes := seq(|kept|, j requires 0 <= j < |kept| => candidates[kept[j]]);
    var keptPoints := seq(|kept|, j requires 0 <= j < |kept| => patchPoints[kept[j]]);
    var weights := seq(|kept|, j requires 0 <= j < |kept| => sampleWeights[keptNodes[j]]);
    assert keptPoints == Gather(points, keptNodes);
    assert weights == Gather(sampleWeights, keptNodes);
    assert patchPoints == Gather(points, candidates) && override == Gather(overrides, candidates);
    assert keptNodes == Gather(candidates, kept);
    r := AssembleLabel(keptPoints, keptNodes, weights, origin, config, rotIndex, o);
  }

  /** Every kept point of a patch given by its first corner and the corner
      one patch size further lands, before the noise, in the rotated
      patch square [0, P] x [0, P]. */
  lemma KeptPointsInPatch(points: seq<Point>, keptNodes: seq<nat>, candidateSet: set<nat>, origin: Point,
                          size: real, rotIndex: int)
    requires forall i :: i in candidateSet ==> i < |points| && InBox(points[i], Box(origin.x, origin.y, origin.x + size, origin.y + size))
    requires forall j :: 0 <= j < |keptNodes| ==> keptNodes[j] in candidateSet
    ensures forall j :: 0 <= j < |keptNodes| ==>
      keptNodes[j] < |points| && InSquare(LocalTransform(points[keptNodes[j]], origin, size, rotIndex), size)
  {
    forall j | 0 <= j < |keptNodes|
      ensures keptNodes[j] < |points| && InSquare(LocalTransform(points[keptNodes[j]], origin, size, rotIndex), size)
    {
      LocalTransformKeepsPatch(points[keptNodes[j]], origin, size, rotIndex);
    }
  }

  // ---------------------------------------------------------------------------

  class GraphLabelGenerator {
    const config: Config
    /** Coordinates and degree of each vertex of the subdivided road graph. */
    const points: seq<Point>
    const degree: seq<nat>
    /** Where two roads cross without meeting. */
    const crossoverPoints: seq<Point>
    /** Points near a crossover; never patch candidates. */
    const excludeIndices: set<nat>
    const nmsScoreOverride: array<real>
    const sampleWeights: array<real>

    ghost predicate Valid()
      reads nmsScoreOverride, sampleWeights
    {
      && |degree| == |points|
      && excludeIndices == Near(points, crossoverPoints, CrossoverExcludeRadius)
      && nmsScoreOverride[..] == OverrideScores(degree)
      && sampleWeights[..] == SampleWeights(|points|, Interesting(points, degree, crossoverPoints))
    }

    /** Derives the per-point metadata from the subdivided graph. The
        override is written as intended, so a graph without junctions gets
        all-zero scores instead of raising. */
    constructor(config: Config, points: seq<Point>, degree: seq<nat>, crossoverPoints: seq<Point>)
      requires |degree| == |points|
      ensures Valid()
      ensures this.config == config && this.points == points && this.degree == degree
      ensures this.crossoverPoints == crossoverPoints
      ensures fresh(nmsScoreOverride) && fresh(sampleWeights)
    {
      this.config := config;
      this.points := points;
      this.degree := degree;
      this.crossoverPoints := crossoverPoints;
      var exclude := NearCrossovers(points, crossoverPoints, CrossoverExcludeRadius);
      this.excludeIndices := exclude;
      var itsc := JunctionIndices(degree);
      assert itsc == Junctions(degree);
      var override := Scatter(|points|, 0.0, itsc, 2.0);
      var interesting := InterestingIndices(points, itsc, crossoverPoints, InterestingRadius);
      var weights := Scatter(|points|, 0.1, interesting, 0.9);
      this.nmsScoreOverride := override;
      this.sampleWeights := weights;
      new;
      assert nmsScoreOverride[..] == OverrideScores(degree);
      assert sampleWeights[..] == SampleWeights(|points|, Interesting(points, degree, crossoverPoints));
    }

    /** The candidate points of a patch: those in the box the two corners
        span, boundary included, less the excluded ones. */
    function Candidates(c0: Point, c1: Point): (s: set<nat>)
      ensures forall i: int :: i in s <==>
        0 <= i < |points| && InBox(points[i], NormaliseBox(c0, c1)) && i !in excludeIndices
    {
      BoxQuery(points, NormaliseBox(c0, c1)) - excludeIndices
    }

    /** The candidates depend only on the rectangle, not on which two
        opposite corners name it nor in which order. */
    lemma CandidatesOrderFree(x0: real, y0: real, x1: real, y1: real)
      ensures Candidates(Point(x0, y0), Point(x1, y1)) == Candidates(Point(x1, y1), Point(x0, y0))
      ensures Candidates(Point(x0, y0), Point(x1, y1)) == Candidates(Point(x0, y1), Point(x1, y0))
    {
      NormaliseBoxOrderFree(x0, y0, x1, y1);
    }

    /** `sample_patch`: the label of the patch with corners c0 and c1,
        rotated by `rotIndex` quarter turns, with the graph nodes the
        suppression kept and the candidates in the order it saw them. When
        c1 lies one patch size beyond c0, every kept point lies, before the
        noise, in the rotated patch square. */
    method SamplePatch(c0: Point, c1: Point, o: Oracles, rotIndex: int := 0)
      returns (r: Result<Label, PatchError>, keptNodes: seq<nat>, ghost cands: seq<nat>)
      requires Valid() && Sound(o)
      ensures PatchLabelOf(r, keptNodes, points, Candidates(c0, c1), sampleWeights[..], config, c0, rotIndex, o)
      ensures KeptBySuppression(keptNodes, cands, Candidates(c0, c1), points, nmsScoreOverride[..], config, o)
      ensures var size := config.patchSize as real;
        c1 == Point(c0.x + size, c0.y + size) && 0.0 <= size ==>
          forall j :: 0 <= j < |keptNodes| ==>
            keptNodes[j] < |points| && InSquare(LocalTransform(points[keptNodes[j]], c0, size, rotIndex), size)
    {
      var overrides, weights := nmsScoreOverride[..], sampleWeights[..];
      r, keptNodes, cands := PatchLabel(points, Candidates(c0, c1), overrides, weights, config, c0, rotIndex, o);
      var size := config.patchSize as real;
      if c1 == Point(c0.x + size, c0.y + size) && 0.0 <= size {
        KeptPointsInPatch(points, keptNodes, Candidates(c0, c1), c0, size, rotIndex);
      }
    }
  }
}
