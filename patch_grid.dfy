/** The grid of evaluation patches laid over one image. */
module PatchGrid {

  datatype Corner = Corner(x: int, y: int)

  /** One evaluation patch: the image it is cut from, its first corner and
      the corner opposite to it. */
  datatype PatchInfo = PatchInfo(imageIndex: int, begin: Corner, end: Corner)

  /** `np.linspace(start, stop, num)` with its endpoint included, on exact reals. */
  function Linspace(start: real, stop: real, num: nat): (r: seq<real>)
    ensures |r| == num
    ensures num > 0 ==> r[0] == start
    ensures num > 1 ==> r[num - 1] == stop
  {
    if num == 1 then [start]
    else
      var step := (stop - start) / ((num - 1) as real);
      seq(num, i requires 0 <= i < num => (i as real) * step + start)
  }

  /** n is a nearest integer to v, and the even one when v lies halfway. */
  predicate RoundsHalfEven(n: int, v: real)
  {
    && v - 0.5 <= n as real <= v + 0.5
    && (n as real == v - 0.5 || n as real == v + 0.5 ==> n % 2 == 0)
  }

  /** Python's `round` of a float to an int: halves go to the even neighbour. */
  function RoundHalfEven(v: real): (n: int)
    ensures (n - 1) as real < v < (n + 1) as real
    ensures RoundsHalfEven(n, v)
  {
    var f := v.Floor;
    var d := v - f as real;
    if d < 0.5 then f else if d > 0.5 then f + 1 else if f % 2 == 0 then f else f + 1
  }

  /** The rounded sample positions along one edge. */
  function EvalSamples(imageSize: int, sampleMargin: int, patchSize: int, patchesPerEdge: nat): (s: seq<int>)
    ensures |s| == patchesPerEdge
    ensures var samples := Linspace(sampleMargin as real, (imageSize - (patchSize + sampleMargin)) as real, patchesPerEdge);
      forall i :: 0 <= i < |s| ==> RoundsHalfEven(s[i], samples[i])
  {
    var samples := Linspace(sampleMargin as real, (imageSize - (patchSize + sampleMargin)) as real, patchesPerEdge);
    seq(patchesPerEdge, i requires 0 <= i < patchesPerEdge => RoundHalfEven(samples[i]))
  }

  function Cell(imageIndex: int, x: int, y: int, patchSize: int): PatchInfo
  {
    PatchInfo(imageIndex, Corner(x, y), Corner(x + patchSize, y + patchSize))
  }

  /** The patches of one row of the grid: first corner x fixed, y walking `ys`. */
  function Row(imageIndex: int, x: int, ys: seq<int>, patchSize: int): (r: seq<PatchInfo>)
    ensures |r| == |ys|
  {
    seq(|ys|, j requires 0 <= j < |ys| => Cell(imageIndex, x, ys[j], patchSize))
  }

  /** The rows for every x in `xs`, in order. */
  function Grid(imageIndex: int, xs: seq<int>, ys: seq<int>, patchSize: int): seq<PatchInfo>
  {
    if xs == [] then []
    else Grid(imageIndex, xs[..|xs| - 1], ys, patchSize) + Row(imageIndex, xs[|xs| - 1], ys, patchSize)
  }

  lemma MulLe(x: nat, y: nat, n: nat)
    requires x <= y
    ensures x * n <= y * n
  {
    assert y * n - x * n == (y - x) * n;
  }

  /** Entry a * n + b of a row-major n-column grid sits at row a, column b. */
  lemma DivModPlace(a: nat, b: nat, n: nat)
    requires b < n
    ensures (a * n + b) / n == a && (a * n + b) % n == b
  {
    var k := a * n + b;
    var q, r := k / n, k % n;
    assert k == q * n + r;
    assert (q + 1) * n == q * n + n;
    assert (a + 1) * n == a * n + n;
    if q < a {
      MulLe(q + 1, a, n);
      assert false;
    }
    if q > a {
      MulLe(a + 1, q, n);
      assert false;
    }
  }

  /** An index below c rows of m entries lies in one of those rows. */
  lemma DivBelow(k: nat, c: nat, m: nat)
    requires k < c * m
    ensures k / m < c
  {
    assert k == (k / m) * m + k % m;
    if k / m >= c {
      MulLe(c, k / m, m);
      assert false;
    }
  }

  lemma {:induction false} GridLength(imageIndex: int, xs: seq<int>, ys: seq<int>, patchSize: int)
    ensures |Grid(imageIndex, xs, ys, patchSize)| == |xs| * |ys|
  {
    if xs != [] {
      GridLength(imageIndex, xs[..|xs| - 1], ys, patchSize);
      assert |xs| * |ys| == (|xs| - 1) * |ys| + |ys|;
    }
  }

  /** Entry k of the grid is the patch at x = xs[k / |ys|], y = ys[k % |ys|]:
      the grid runs x-outer, y-inner. */
  lemma {:induction false} GridCell(imageIndex: int, xs: seq<int>, ys: seq<int>, patchSize: int, k: nat)
    requires k < |xs| * |ys|
    ensures |Grid(imageIndex, xs, ys, patchSize)| == |xs| * |ys|
    ensures Grid(imageIndex, xs, ys, patchSize)[k] == Cell(imageIndex, xs[k / |ys|], ys[k % |ys|], patchSize)
  {
    GridLength(imageIndex, xs, ys, patchSize);
    var init, m := xs[..|xs| - 1], |ys|;
    GridLength(imageIndex, init, ys, patchSize);
    if k < |init| * m {
      DivBelow(k, |init|, m);
      GridCell(imageIndex, init, ys, patchSize, k);
    } else {
      DivModPlace(|init|, k - |init| * m, m);
    }
  }

  /** The whole grid, read entry by entry. */
  lemma GridEntries(imageIndex: int, xs: seq<int>, ys: seq<int>, patchSize: int, info: seq<PatchInfo>)
    requires info == Grid(imageIndex, xs, ys, patchSize)
    ensures |info| == |xs| * |ys|
    ensures forall k :: 0 <= k < |info| ==>
      0 < |ys| && k / |ys| < |xs| && info[k] == Cell(imageIndex, xs[k / |ys|], ys[k % |ys|], patchSize)
  {
    GridLength(imageIndex, xs, ys, patchSize);
    forall k | 0 <= k < |info|
      ensures 0 < |ys| && k / |ys| < |xs|
      ensures info[k] == Cell(imageIndex, xs[k / |ys|], ys[k % |ys|], patchSize)
    {
      DivBelow(k, |xs|, |ys|);
      GridCell(imageIndex, xs, ys, patchSize, k);
    }
  }

  /** `get_patch_info_one_img`: the outer loop walks x over the samples, the
      inner loop walks y, and each step appends one patch. */
  method PatchInfoOneImg(imageIndex: int, imageSize: int, sampleMargin: int, patchSize: int, patchesPerEdge: nat)
    returns (info: seq<PatchInfo>)
    ensures info == Grid(imageIndex, EvalSamples(imageSize, sampleMargin, patchSize, patchesPerEdge),
                         EvalSamples(imageSize, sampleMargin, patchSize, patchesPerEdge), patchSize)
    ensures |info| == patchesPerEdge * patchesPerEdge
    ensures forall k :: 0 <= k < |info| ==>
      && 0 < patchesPerEdge && k / patchesPerEdge < patchesPerEdge
      && info[k].imageIndex == imageIndex
      && info[k].begin == Corner(EvalSamples(imageSize, sampleMargin, patchSize, patchesPerEdge)[k / patchesPerEdge],
                                 EvalSamples(imageSize, sampleMargin, patchSize, patchesPerEdge)[k % patchesPerEdge])
      && info[k].end == Corner(info[k].begin.x + patchSize, info[k].begin.y + patchSize)
  {
    var samples := EvalSamples(imageSize, sampleMargin, patchSize, patchesPerEdge);
    info := [];
    var a := 0;
    while a < |samples|
      invariant 0 <= a <= |samples|
      invariant info == Grid(imageIndex, samples[..a], samples, patchSize)
    {
      var x := samples[a];
      var b := 0;
      while b < |samples|
        invariant 0 <= b <= |samples|
        invariant info == Grid(imageIndex, samples[..a], samples, patchSize) + Row(imageIndex, x, samples[..b], patchSize)
      {
        info := info + [Cell(imageIndex, x, samples[b], patchSize)];
        b := b + 1;
      }
      assert samples[..a + 1][..a] == samples[..a];
      assert samples[..b] == samples;
      a := a + 1;
    }
    assert samples[..a] == samples;
    GridEntries(imageIndex, samples, samples, patchSize, info);
  }

  /** With at least two patches per edge, the first sample is the margin and
      the last one leaves exactly the margin after a patch. */
  lemma EvalSamplesEnds(imageSize: int, sampleMargin: int, patchSize: int, patchesPerEdge: nat)
    requires patchesPerEdge >= 1
    ensures EvalSamples(imageSize, sampleMargin, patchSize, patchesPerEdge)[0] == sampleMargin
    ensures patchesPerEdge >= 2 ==>
      EvalSamples(imageSize, sampleMargin, patchSize, patchesPerEdge)[patchesPerEdge - 1] == imageSize - (patchSize + sampleMargin)
  {
    var lo, hi := sampleMargin as real, (imageSize - (patchSize + sampleMargin)) as real;
    if patchesPerEdge >= 2 {
      var step := (hi - lo) / ((patchesPerEdge - 1) as real);
      assert ((patchesPerEdge - 1) as real) * step == hi - lo;
    }
  }

  /** Rounding a value that lies between two integers stays between them. */
  lemma RoundWithin(v: real, lo: int, hi: int)
    requires lo as real <= v <= hi as real
    ensures lo <= RoundHalfEven(v) <= hi
  {
  }

  lemma MulNonNegReal(x: real, y: real)
    requires 0.0 <= x && 0.0 <= y
    ensures 0.0 <= x * y
  {
  }

  /** The samples are evenly spaced: consecutive samples differ by the
      same step. */
  lemma LinspaceEvenlySpaced(start: real, stop: real, num: nat, i: nat)
    requires 0 < i < num
    ensures var r := Linspace(start, stop, num); r[i] - r[i - 1] == r[1] - r[0]
  {
    var step := (stop - start) / ((num - 1) as real);
    assert (i as real) * step - ((i - 1) as real) * step == step;
  }

  lemma LinspaceWithin(start: real, stop: real, num: nat, i: nat)
    requires start <= stop && i < num
    ensures start <= Linspace(start, stop, num)[i] <= stop
  {
    if num > 1 {
      var step := (stop - start) / ((num - 1) as real);
      var last := (num - 1) as real;
      assert Linspace(start, stop, num)[i] == (i as real) * step + start;
      assert step >= 0.0;
      MulNonNegReal(i as real, step);
      assert last * step - (i as real) * step == (last - i as real) * step;
      MulNonNegReal(last - i as real, step);
      assert last * step == stop - start;
    }
  }

  /** When a patch fits between the margins, every evaluation position lies
      between the first and the last. */
  lemma SamplesInRange(imageSize: int, sampleMargin: int, patchSize: int, patchesPerEdge: nat)
    requires sampleMargin <= imageSize - (patchSize + sampleMargin)
    ensures var s := EvalSamples(imageSize, sampleMargin, patchSize, patchesPerEdge);
      forall i :: 0 <= i < |s| ==> sampleMargin <= s[i] <= imageSize - (patchSize + sampleMargin)
  {
    var lo, hi := sampleMargin, imageSize - (patchSize + sampleMargin);
    var s := EvalSamples(imageSize, sampleMargin, patchSize, patchesPerEdge);
    forall i | 0 <= i < |s|
      ensures lo <= s[i] <= hi
    {
      LinspaceWithin(lo as real, hi as real, patchesPerEdge, i);
      RoundWithin(Linspace(lo as real, hi as real, patchesPerEdge)[i], lo, hi);
    }
  }

  /** When a patch fits between the margins, every evaluation patch lies in
      the image and keeps the margin free on all four sides. */
  lemma PatchesInsideImage(imageIndex: int, imageSize: int, sampleMargin: int, patchSize: int, patchesPerEdge: nat,
                           info: seq<PatchInfo>, k: nat)
    requires sampleMargin <= imageSize - (patchSize + sampleMargin)
    requires |info| == patchesPerEdge * patchesPerEdge && k < |info|
    requires (DivBelow(k, patchesPerEdge, patchesPerEdge);
              info[k].begin == Corner(EvalSamples(imageSize, sampleMargin, patchSize, patchesPerEdge)[k / patchesPerEdge],
                                      EvalSamples(imageSize, sampleMargin, patchSize, patchesPerEdge)[k % patchesPerEdge]))
    requires info[k].end == Corner(info[k].begin.x + patchSize, info[k].begin.y + patchSize)
    ensures sampleMargin <= info[k].begin.x && info[k].end.x <= imageSize - sampleMargin
    ensures sampleMargin <= info[k].begin.y && info[k].end.y <= imageSize - sampleMargin
  {
    var n := patchesPerEdge;
    var s := EvalSamples(imageSize, sampleMargin, patchSize, n);
    SamplesInRange(imageSize, sampleMargin, patchSize, n);
    DivBelow(k, n, n);
    var i, j := k / n, k % n;
    assert i < |s| && j < |s|;
    assert info[k].begin == Corner(s[i], s[j]);
    assert sampleMargin <= s[i] <= imageSize - (patchSize + sampleMargin);
    assert sampleMargin <= s[j] <= imageSize - (patchSize + sampleMargin);
  }
}
