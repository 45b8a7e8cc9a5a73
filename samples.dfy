/** The per-anchor topology samples of one patch label: for each sampled
    anchor, a fixed number of slots that pair the anchor with one of its
    nearest kept neighbours, say whether the two are joined on the road
    graph, and say whether the slot is real or padding. */
module Samples {

  /** One anchor's slots: index pairs into the kept points, the
      shall-connect flags and the validity flags. */
  datatype Sample = Sample(pairs: seq<(nat, nat)>, shallConnect: seq<bool>, valid: seq<bool>)

  /** The entries of a nearest-neighbour row that name a real kept point;
      the KD-tree marks a missing neighbour with the index n itself. */
  function Below(row: seq<nat>, n: nat): (r: seq<nat>)
    ensures |r| <= |row|
    ensures forall j :: 0 <= j < |r| ==> r[j] < n
    ensures forall v :: multiset(r)[v] == if v < n then multiset(row)[v] else 0
  {
    if row == [] then []
    else
      assert row == [row[0]] + row[1..];
      (if row[0] < n then [row[0]] else []) + Below(row[1..], n)
  }

  /** Boolean-mask filtering keeps row order: the filter of a concatenation
      is the concatenation of the filters. With `BelowSingle` this fixes
      `Below` as the order-preserving filter. */
  lemma {:induction false} BelowAppend(a: seq<nat>, b: seq<nat>, n: nat)
    ensures Below(a + b, n) == Below(a, n) + Below(b, n)
  {
    if a == [] {
      assert a + b == b;
    } else {
      assert (a + b)[0] == a[0] && (a + b)[1..] == a[1..] + b;
      BelowAppend(a[1..], b, n);
    }
  }

  lemma BelowSingle(v: nat, n: nat)
    ensures Below([v], n) == if v < n then [v] else []
  {
    assert [v][1..] == [];
  }

  /** numpy's `[1:]`: everything after the first entry, and nothing for an empty row. */
  function DropFirst(s: seq<nat>): (r: seq<nat>)
    ensures s == [] ==> r == []
    ensures s != [] ==> [s[0]] + r == s
  {
    if s == [] then [] else s[1..]
  }

  /** The neighbours an anchor is paired with: the real entries of its
      nearest-neighbour row, less the first one (the anchor itself). */
  function ValidNeighbours(row: seq<nat>, n: nat): (r: seq<nat>)
    ensures |row| > 0 ==> |r| <= |row| - 1
    ensures forall j :: 0 <= j < |r| ==> r[j] < n
  {
    DropFirst(Below(row, n))
  }

  /** The road-graph vertex of each neighbour. */
  function Targets(nbrs: seq<nat>, keptNodes: seq<nat>): (r: seq<nat>)
    requires forall j :: 0 <= j < |nbrs| ==> nbrs[j] < |keptNodes|
    ensures |r| == |nbrs|
  {
    seq(|nbrs|, j requires 0 <= j < |nbrs| => keptNodes[nbrs[j]])
  }

  /** The shall-connect flag of each real slot: its target was reached by
      the bounded breadth-first search from the anchor. */
  function Reached(targets: seq<nat>, reached: set<nat>): (r: seq<bool>)
    ensures |r| == |targets|
  {
    seq(|targets|, j requires 0 <= j < |targets| => targets[j] in reached)
  }

  /** Sample `s` has `width` slots: the first |nbrs| pair the anchor `src`
      with each neighbour in turn, are valid, and carry the flags `shall`;
      the rest are padding, pairing `src` with itself, invalid and not
      connected. */
  predicate Slots(s: Sample, src: nat, nbrs: seq<nat>, shall: seq<bool>, width: nat)
  {
    && |shall| == |nbrs| <= width
    && |s.pairs| == width && |s.shallConnect| == width && |s.valid| == width
    && (forall j :: 0 <= j < |nbrs| ==> s.pairs[j] == (src, nbrs[j]) && s.valid[j] && s.shallConnect[j] == shall[j])
    && (forall j :: |nbrs| <= j < width ==> s.pairs[j] == (src, src) && !s.valid[j] && !s.shallConnect[j])
  }

  /** The shape every sample of a label has, whatever the graph: `width`
      slots, all pairs starting at one anchor, indices below the kept-point
      count n, valid slots forming a prefix, and every invalid slot a
      self-pair that is not connected. */
  predicate WellShaped(s: Sample, n: nat, width: nat)
  {
    && |s.pairs| == width && |s.shallConnect| == width && |s.valid| == width
    && (forall j :: 0 <= j < width ==> s.pairs[j].0 < n && s.pairs[j].1 < n)
    && (forall j :: 0 <= j < width ==> s.pairs[j].0 == s.pairs[0].0)
    && (forall j, k :: 0 <= j < k < width && s.valid[k] ==> s.valid[j])
    && (forall j :: 0 <= j < width && !s.valid[j] ==> s.pairs[j].1 == s.pairs[j].0 && !s.shallConnect[j])
  }

  /** Slots built for an anchor and neighbours inside the kept points are well shaped. */
  lemma SlotsWellShaped(s: Sample, src: nat, nbrs: seq<nat>, shall: seq<bool>, width: nat, n: nat)
    requires Slots(s, src, nbrs, shall, width)
    requires src < n && forall j :: 0 <= j < |nbrs| ==> nbrs[j] < n
    ensures WellShaped(s, n, width)
  {
    forall j, k | 0 <= j < k < width && s.valid[k]
      ensures s.valid[j]
    {
      assert k < |nbrs|;
    }
  }

  /** The neighbour of each valid slot, in slot order. */
  function ValidTargets(pairs: seq<(nat, nat)>, valid: seq<bool>): (r: seq<nat>)
    requires |valid| == |pairs|
    ensures |r| <= |pairs|
  {
    if pairs == [] then []
    else (if valid[0] then [pairs[0].1] else []) + ValidTargets(pairs[1..], valid[1..])
  }

  lemma {:induction false} ValidTargetsOfSlots(pairs: seq<(nat, nat)>, valid: seq<bool>, src: nat, nbrs: seq<nat>)
    requires |valid| == |pairs| && |nbrs| <= |pairs|
    requires forall j :: 0 <= j < |nbrs| ==> pairs[j] == (src, nbrs[j]) && valid[j]
    requires forall j :: |nbrs| <= j < |pairs| ==> !valid[j]
    ensures ValidTargets(pairs, valid) == nbrs
  {
    if pairs != [] {
      if nbrs == [] {
        ValidTargetsOfSlots(pairs[1..], valid[1..], src, []);
      } else {
        ValidTargetsOfSlots(pairs[1..], valid[1..], src, nbrs[1..]);
      }
    }
  }

  /** Reading the valid slots back gives exactly the neighbours the sample
      was built from: no neighbour is lost, none is invented. */
  lemma ValidTargetsRecover(s: Sample, src: nat, nbrs: seq<nat>, shall: seq<bool>, width: nat)
    requires Slots(s, src, nbrs, shall, width)
    ensures ValidTargets(s.pairs, s.valid) == nbrs
  {
    ValidTargetsOfSlots(s.pairs, s.valid, src, nbrs);
  }

  /** A row of k = width + 1 nearest neighbours yields at most `width` real
      neighbours once the anchor itself is dropped. */
  lemma NeighbourCountFits(row: seq<nat>, n: nat, width: nat)
    requires |row| == width + 1
    ensures |ValidNeighbours(row, n)| <= width
  {
  }

  /** The inner loops of `sample_patch` for one anchor: one valid slot per
      neighbour, then self-pair padding up to `width`. */
  method AnchorSample(src: nat, nbrs: seq<nat>, shall: seq<bool>, width: nat) returns (s: Sample)
    requires |shall| == |nbrs| <= width
    ensures Slots(s, src, nbrs, shall, width)
  {
    var pairs: seq<(nat, nat)> := [];
    var valid: seq<bool> := [];
    var i := 0;
    while i < |nbrs|
      invariant 0 <= i <= |nbrs|
      invariant |pairs| == |valid| == i
      invariant forall j :: 0 <= j < i ==> pairs[j] == (src, nbrs[j]) && valid[j]
    {
      pairs := pairs + [(src, nbrs[i])];
      valid := valid + [true];
      i := i + 1;
    }
    var shallConnect := shall;
    var j := |pairs|;
    while j < width
      invariant |nbrs| <= j <= width
      invariant |pairs| == |valid| == |shallConnect| == j
      invariant forall k :: 0 <= k < |nbrs| ==> pairs[k] == (src, nbrs[k]) && valid[k] && shallConnect[k] == shall[k]
      invariant forall k :: |nbrs| <= k < j ==> pairs[k] == (src, src) && !valid[k] && !shallConnect[k]
    {
      pairs := pairs + [(src, src)];
      shallConnect := shallConnect + [false];
      valid := valid + [false];
      j := j + 1;
    }
    s := Sample(pairs, shallConnect, valid);
  }

  /** What anchor i of a label holds: its neighbours are the valid entries
      of its nearest-neighbour row, and a neighbour is connected exactly when
      the search from the anchor's vertex, bounded by `hops`, reached it. */
  predicate AnchorSlots(s: Sample, keptNodes: seq<nat>, anchor: nat, row: seq<nat>,
                        bfs: (nat, set<nat>, int) -> set<nat>, hops: int, width: nat)
    requires anchor < |keptNodes|
  {
    var nbrs := ValidNeighbours(row, |keptNodes|);
    var targets := Targets(nbrs, keptNodes);
    Slots(s, anchor, nbrs, Reached(targets, bfs(keptNodes[anchor], (set t | t in targets), hops)), width)
  }

  /** Everything a label promises about the sample of one anchor. */
  predicate SampleOfAnchor(s: Sample, keptNodes: seq<nat>, anchor: nat, row: seq<nat>,
                              bfs: (nat, set<nat>, int) -> set<nat>, hops: int, width: nat)
    requires anchor < |keptNodes|
  {
    && AnchorSlots(s, keptNodes, anchor, row, bfs, hops, width)
    && WellShaped(s, |keptNodes|, width)
    && forall j :: 0 <= j < width ==> s.pairs[j].0 == anchor
  }

  /** The body of the outer sample loop for one anchor: collect its
      neighbours, search the graph for them, then fill the slots. */
  method SampleForAnchor(keptNodes: seq<nat>, anchor: nat, row: seq<nat>,
                         bfs: (nat, set<nat>, int) -> set<nat>, hops: int, width: nat)
    returns (s: Sample)
    requires anchor < |keptNodes|
    requires |row| == width + 1
    ensures SampleOfAnchor(s, keptNodes, anchor, row, bfs, hops, width)
  {
    var nbrs := ValidNeighbours(row, |keptNodes|);
    var targets := Targets(nbrs, keptNodes);
    var reached := bfs(keptNodes[anchor], (set t | t in targets), hops);
    var shall := Reached(targets, reached);
    NeighbourCountFits(row, |keptNodes|, width);
    s := AnchorSample(anchor, nbrs, shall, width);
    SlotsWellShaped(s, anchor, nbrs, shall, width, |keptNodes|);
  }

  /** The outer sample loop of `sample_patch`: one sample per drawn anchor. */
  method BuildSamples(keptNodes: seq<nat>, anchors: seq<nat>, knnRows: seq<seq<nat>>,
                      bfs: (nat, set<nat>, int) -> set<nat>, hops: int, width: nat)
    returns (samples: seq<Sample>)
    requires forall i :: 0 <= i < |anchors| ==> anchors[i] < |keptNodes|
    requires |knnRows| == |anchors|
    requires forall i :: 0 <= i < |knnRows| ==> |knnRows[i]| == width + 1
    ensures |samples| == |anchors|
    ensures forall i :: 0 <= i < |anchors| ==> SampleOfAnchor(samples[i], keptNodes, anchors[i], knnRows[i], bfs, hops, width)
  {
    samples := [];
    var i := 0;
    while i < |anchors|
      invariant 0 <= i <= |anchors|
      invariant |samples| == i
      invariant forall k :: 0 <= k < i ==> SampleOfAnchor(samples[k], keptNodes, anchors[k], knnRows[k], bfs, hops, width)
    {
      var s := SampleForAnchor(keptNodes, anchors[i], knnRows[i], bfs, hops, width);
      samples := samples + [s];
      i := i + 1;
    }
  }

  /** The slots of the stand-in sample returned for an empty patch: every
      pair is (0, 0), nothing is valid and nothing is connected; it is the
      sample an anchor at kept index 0 without neighbours would get. */
  function FakeSample(width: nat): (s: Sample)
    ensures Slots(s, 0, [], [], width)
    ensures WellShaped(s, 1, width)
  {
    Sample(seq(width, _ => (0, 0)), seq(width, _ => false), seq(width, _ => false))
  }

  /** `sample_num` copies of the stand-in sample. */
  function SentinelSamples(sampleNum: nat, width: nat): (r: seq<Sample>)
    ensures |r| == sampleNum
    ensures forall i :: 0 <= i < sampleNum ==> Slots(r[i], 0, [], [], width) && WellShaped(r[i], 1, width)
  {
    seq(sampleNum, _ => FakeSample(width))
  }

  // ---------------------------------------------------------------------------
  // The anchor draw weights: `p = w / sum(w)`.

  function Sum(w: seq<real>): real
  {
    if w == [] then 0.0 else Sum(w[..|w| - 1]) + w[|w| - 1]
  }

  function Scale(w: seq<real>, c: real): (r: seq<real>)
    ensures |r| == |w|
  {
    seq(|w|, j requires 0 <= j < |w| => w[j] * c)
  }

  lemma {:induction false} SumScale(w: seq<real>, c: real)
    ensures Sum(Scale(w, c)) == Sum(w) * c
  {
    if w != [] {
      var init := w[..|w| - 1];
      assert forall j :: 0 <= j < |init| ==> Scale(w, c)[..|w| - 1][j] == Scale(init, c)[j];
      assert Scale(w, c)[..|w| - 1] == Scale(init, c);
      SumScale(init, c);
    }
  }

  lemma {:induction false} SumNonNegative(w: seq<real>)
    requires forall j :: 0 <= j < |w| ==> w[j] >= 0.0
    ensures Sum(w) >= 0.0
  {
    if w != [] {
      SumNonNegative(w[..|w| - 1]);
    }
  }

  /** Every entry is at most the sum of non-negative weights. */
  lemma {:induction false} EntryBelowSum(w: seq<real>, k: nat)
    requires forall j :: 0 <= j < |w| ==> w[j] >= 0.0
    requires k < |w|
    ensures w[k] <= Sum(w)
  {
    var init := w[..|w| - 1];
    SumNonNegative(init);
    if k < |w| - 1 {
      EntryBelowSum(init, k);
    }
  }

  /** A non-empty sum of positive weights is positive. */
  lemma {:induction false} SumPositive(w: seq<real>)
    requires |w| > 0
    requires forall j :: 0 <= j < |w| ==> w[j] > 0.0
    ensures Sum(w) > 0.0
  {
    SumNonNegative(w[..|w| - 1]);
  }

  /** The probabilities handed to the anchor draw: the weights divided by
      their sum. They form a distribution over the kept points. */
  function ChoiceProbabilities(w: seq<real>): (p: seq<real>)
    requires |w| > 0
    requires forall j :: 0 <= j < |w| ==> w[j] > 0.0
    ensures |p| == |w|
    ensures Sum(p) == 1.0
    ensures forall j :: 0 <= j < |p| ==> 0.0 < p[j] <= 1.0
  {
    SumPositive(w);
    var c := 1.0 / Sum(w);
    SumScale(w, c);
    forall j | 0 <= j < |w|
      ensures 0.0 < w[j] * c <= 1.0
    {
      EntryBelowSum(w, j);
    }
    Scale(w, c)
  }
}
