/** The train / validation / test split of a data directory: every base name
    whose four files are all present, shuffled, cut into three consecutive
    slices by the ratios, and each slice sorted. */
module DataSplit {
  import opened StringOrder

  predicate EndsWith(s: string, suffix: string)
  {
    |suffix| <= |s| && s[|s| - |suffix|..] == suffix
  }

  /** A satellite image of the directory, as opposed to its keypoint and road mask images. */
  predicate IsImageName(f: string): (b: bool)
    ensures b ==> |f| >= 4 && f[|f| - 4..] == ".png"
  {
    EndsWith(f, ".png") && !EndsWith(f, "_keypoints.png") && !EndsWith(f, "_road_mask.png")
  }

  /** The name without its last four characters (the `.png` extension). */
  function BaseName(f: string): (b: string)
    requires |f| >= 4
    ensures |b| == |f| - 4
    ensures f == b + f[|f| - 4..]
  {
    f[..|f| - 4]
  }

  /** An accepted image name is its base name followed by `.png`, and that
      base name is not itself the base of a keypoint or road mask image. */
  lemma ImageNameParts(f: string)
    requires IsImageName(f)
    ensures BaseName(f) + ".png" == f
    ensures !EndsWith(BaseName(f), "_keypoints") && !EndsWith(BaseName(f), "_road_mask")
  {
    var b := BaseName(f);
    assert f == b + f[|f| - 4..];
  }

  /** Distinct image names have distinct base names. */
  lemma BaseNameInjective(f: string, g: string)
    requires IsImageName(f) && IsImageName(g) && BaseName(f) == BaseName(g)
    ensures f == g
  {
    ImageNameParts(f);
    ImageNameParts(g);
  }

  /** The four files a sample is made of. */
  function RequiredFiles(base: string): (fs: seq<string>)
    ensures |fs| == 4 && fs[0] == base + ".png"
  {
    [base + ".png", base + "_keypoints.png", base + "_road_mask.png", base + "_graph.json"]
  }

  /** Every required file of the base name is in the directory. */
  predicate HasCompanions(base: string, directory: seq<string>)
  {
    forall f :: f in RequiredFiles(base) ==> f in directory
  }

  predicate Accepted(f: string, directory: seq<string>)
  {
    IsImageName(f) && HasCompanions(BaseName(f), directory)
  }

  /** The base names collected from `names`, in listing order. */
  function Kept(names: seq<string>, directory: seq<string>): (r: seq<string>)
    ensures |r| <= |names|
  {
    if names == [] then []
    else
      var f := names[|names| - 1];
      Kept(names[..|names| - 1], directory) + (if Accepted(f, directory) then [BaseName(f)] else [])
  }

  /** A base name is kept exactly when it comes from an accepted image name
      of the listing; every kept name has all four of its files present. */
  lemma {:induction false} KeptMembers(names: seq<string>, directory: seq<string>, b: string)
    ensures b in Kept(names, directory) <==> b + ".png" in names && Accepted(b + ".png", directory)
    ensures b in Kept(names, directory) ==> forall f :: f in RequiredFiles(b) ==> f in directory
  {
    if names != [] {
      var init, f := names[..|names| - 1], names[|names| - 1];
      KeptMembers(init, directory, b);
      assert names == init + [f];
      if Accepted(f, directory) {
        ImageNameParts(f);
        if b == BaseName(f) {
          assert b + ".png" == f;
        }
        if b + ".png" == f {
          assert BaseName(f) == b;
        }
      }
      if b + ".png" in names && Accepted(b + ".png", directory) {
        ImageNameParts(b + ".png");
        assert BaseName(b + ".png") == b;
      }
    }
  }

  /** A listing without repeats yields base names without repeats. */
  lemma {:induction false} KeptDistinct(names: seq<string>, directory: seq<string>)
    requires forall i, j :: 0 <= i < j < |names| ==> names[i] != names[j]
    ensures forall i, j :: 0 <= i < j < |Kept(names, directory)| ==> Kept(names, directory)[i] != Kept(names, directory)[j]
  {
    if names != [] {
      var init, f := names[..|names| - 1], names[|names| - 1];
      KeptDistinct(init, directory);
      var prefix := Kept(init, directory);
      if Accepted(f, directory) {
        forall i | 0 <= i < |prefix|
          ensures prefix[i] != BaseName(f)
        {
          KeptMembers(init, directory, prefix[i]);
          assert prefix[i] in prefix;
          if prefix[i] == BaseName(f) {
            ImageNameParts(f);
            assert false;
          }
        }
      }
    }
  }

  /** The loop over the directory listing. */
  method ScanDirectory(listing: seq<string>) returns (allFiles: seq<string>)
    ensures allFiles == Kept(listing, listing)
  {
    allFiles := [];
    var i := 0;
    while i < |listing|
      invariant 0 <= i <= |listing|
      invariant allFiles == Kept(listing[..i], listing)
    {
      var file := listing[i];
      assert listing[..i + 1][..i] == listing[..i];
      if IsImageName(file) {
        var baseName := BaseName(file);
        var required := RequiredFiles(baseName);
        var present := true;
        var k := 0;
        while k < |required|
          invariant 0 <= k <= |required|
          invariant present <==> forall j :: 0 <= j < k ==> required[j] in listing
        {
          present := present && required[k] in listing;
          k := k + 1;
        }
        if present {
          allFiles := allFiles + [baseName];
        }
      }
      i := i + 1;
    }
    assert listing[..i] == listing;
  }

  /** Python's `int` of a float: the integer part, rounded toward zero. */
  function Trunc(v: real): (n: int)
    ensures 0.0 <= v ==> 0 <= n
    ensures v <= 0.0 ==> n <= 0
  {
    if v >= 0.0 then v.Floor else -((-v).Floor)
  }

  /** `Trunc` drops the fraction: the result lies within one of v, on the
      side of v nearer to zero. */
  lemma TruncTowardZero(v: real)
    ensures 0.0 <= v ==> 0 <= Trunc(v) && Trunc(v) as real <= v < Trunc(v) as real + 1.0
    ensures v < 0.0 ==> Trunc(v) <= 0 && Trunc(v) as real - 1.0 < v <= Trunc(v) as real
  {
  }

  /** A slice bound as Python reads it: negative bounds count from the end,
      and every bound is clamped to the list. */
  function ClampIndex(i: int, n: nat): (k: nat)
    ensures k <= n
    ensures 0 <= i <= n ==> k == i
    ensures n < i ==> k == n
    ensures i < 0 ==> k == if n + i < 0 then 0 else n + i
  {
    if i < 0 then (if n + i < 0 then 0 else n + i) else if i > n then n else i
  }

  /** `s[start:stop]`. */
  function Slice<T>(s: seq<T>, start: int, stop: int): (r: seq<T>)
    ensures |r| <= |s|
    ensures 0 <= start <= stop <= |s| ==> r == s[start..stop]
  {
    var a, b := ClampIndex(start, |s|), ClampIndex(stop, |s|);
    if a < b then s[a..b] else []
  }

  /** With non-negative sizes the three slices are consecutive: they put the
      list back together, so no file is lost and none is in two splits. */
  lemma SlicesPartition<T>(s: seq<T>, t: int, v: int)
    requires 0 <= t && 0 <= v
    ensures Slice(s, 0, t) + Slice(s, t, t + v) + Slice(s, t + v, |s|) == s
  {
    var a := if t <= |s| then t else |s|;
    var b := if t + v <= |s| then t + v else |s|;
    assert Slice(s, 0, t) == s[..a];
    assert Slice(s, t, t + v) == s[a..b];
    assert Slice(s, t + v, |s|) == s[b..];
    assert s[..a] + s[a..b] + s[b..] == s;
  }

  /** `int(total * ratio)`, the size of a share. */
  function ShareSize(total: nat, ratio: real): (n: int)
    ensures 0.0 <= ratio ==> 0 <= n
    ensures 0.0 <= ratio <= 1.0 ==> n <= total
  {
    var scaled := total as real * ratio;
    if 0.0 <= ratio then
      ScaledBounds(total, ratio);
      TruncTowardZero(scaled);
      Trunc(scaled)
    else Trunc(scaled)
  }

  lemma {:induction false} ScaledBounds(n: nat, ratio: real)
    requires 0.0 <= ratio
    ensures 0.0 <= n as real * ratio
    ensures ratio <= 1.0 ==> n as real * ratio <= n as real
  {
    if n > 0 {
      ScaledBounds(n - 1, ratio);
      assert n as real * ratio == (n - 1) as real * ratio + ratio;
    }
  }

  const TrainKey := "train"
  const ValidationKey := "validation"
  const TestKey := "test"

  /** The split for a training size t and a validation size v: the three
      keys, each a sorted arrangement of its slice. */
  function SplitBySizes(files: seq<string>, t: int, v: int): (d: map<string, seq<string>>)
    ensures d.Keys == {TrainKey, ValidationKey, TestKey}
    ensures SortedLex(d[TrainKey]) && multiset(d[TrainKey]) == multiset(Slice(files, 0, t))
    ensures SortedLex(d[ValidationKey]) && multiset(d[ValidationKey]) == multiset(Slice(files, t, t + v))
    ensures SortedLex(d[TestKey]) && multiset(d[TestKey]) == multiset(Slice(files, t + v, |files|))
  {
    map[TrainKey := Sorted(Slice(files, 0, t)),
        ValidationKey := Sorted(Slice(files, t, t + v)),
        TestKey := Sorted(Slice(files, t + v, |files|))]
  }

  /** The split of the shuffled base names by the two ratios. */
  function SplitFiles(files: seq<string>, trainRatio: real, valRatio: real): (d: map<string, seq<string>>)
    ensures d.Keys == {TrainKey, ValidationKey, TestKey}
    ensures SortedLex(d[TrainKey]) && SortedLex(d[ValidationKey]) && SortedLex(d[TestKey])
  {
    SplitBySizes(files, ShareSize(|files|, trainRatio), ShareSize(|files|, valRatio))
  }

  /** Each list of the split is the only sorted arrangement of its slice. */
  lemma SplitListsDetermined(files: seq<string>, t: int, v: int, key: string, other: seq<string>)
    requires key in SplitBySizes(files, t, v)
    requires SortedLex(other) && multiset(other) == multiset(SplitBySizes(files, t, v)[key])
    ensures other == SplitBySizes(files, t, v)[key]
  {
    SortedUnique(other, SplitBySizes(files, t, v)[key]);
  }

  /** A dictionary with the three keys, each a sorted arrangement of its
      slice, is the split. */
  lemma SplitDetermined(files: seq<string>, t: int, v: int, d: map<string, seq<string>>)
    requires d.Keys == {TrainKey, ValidationKey, TestKey}
    requires SortedLex(d[TrainKey]) && multiset(d[TrainKey]) == multiset(Slice(files, 0, t))
    requires SortedLex(d[ValidationKey]) && multiset(d[ValidationKey]) == multiset(Slice(files, t, t + v))
    requires SortedLex(d[TestKey]) && multiset(d[TestKey]) == multiset(Slice(files, t + v, |files|))
    ensures d == SplitBySizes(files, t, v)
  {
    var e := SplitBySizes(files, t, v);
    SortedUnique(d[TrainKey], e[TrainKey]);
    SortedUnique(d[ValidationKey], e[ValidationKey]);
    SortedUnique(d[TestKey], e[TestKey]);
    assert d.Keys == e.Keys;
    assert forall key :: key in d ==> d[key] == e[key];
  }

  /** With non-negative sizes the three lists together hold every file once,
      the training list holds t files (all of them when t exceeds the
      total), and the validation list v of what the training list leaves. */
  lemma SplitIsPartition(files: seq<string>, t: int, v: int)
    requires 0 <= t && 0 <= v
    ensures var d := SplitBySizes(files, t, v);
      && multiset(d[TrainKey]) + multiset(d[ValidationKey]) + multiset(d[TestKey]) == multiset(files)
      && |d[TrainKey]| == (if t <= |files| then t else |files|)
      && |d[ValidationKey]| == (if t + v <= |files| then t + v else |files|) - (if t <= |files| then t else |files|)
  {
    var d := SplitBySizes(files, t, v);
    SlicesPartition(files, t, v);
    var s0, s1, s2 := Slice(files, 0, t), Slice(files, t, t + v), Slice(files, t + v, |files|);
    assert multiset(s0 + s1 + s2) == multiset(s0) + multiset(s1) + multiset(s2);
    assert |d[TrainKey]| == |multiset(d[TrainKey])| == |s0|;
    assert |d[ValidationKey]| == |multiset(d[ValidationKey])| == |s1|;
  }

  /** With a training ratio in [0, 1] the training list holds exactly
      int(total * ratio) files. */
  lemma TrainShare(files: seq<string>, trainRatio: real, valRatio: real)
    requires 0.0 <= trainRatio <= 1.0
    ensures |SplitFiles(files, trainRatio, valRatio)[TrainKey]| == Trunc(|files| as real * trainRatio)
  {
    var d := SplitFiles(files, trainRatio, valRatio);
    assert |d[TrainKey]| == |multiset(d[TrainKey])| == |Slice(files, 0, ShareSize(|files|, trainRatio))|;
  }

  /** With non-negative ratios no file is lost and none is in two lists. */
  lemma SplitFilesPartition(files: seq<string>, trainRatio: real, valRatio: real)
    requires 0.0 <= trainRatio && 0.0 <= valRatio
    ensures var d := SplitFiles(files, trainRatio, valRatio);
      multiset(d[TrainKey]) + multiset(d[ValidationKey]) + multiset(d[TestKey]) == multiset(files)
  {
    SplitIsPartition(files, ShareSize(|files|, trainRatio), ShareSize(|files|, valRatio));
  }

  /** The statements that cut the shuffled list into three slices and sort
      each into the dictionary: three keys, each a sorted arrangement of its
      slice. */
  method CutAndSort(allFiles: seq<string>, trainSize: int, valSize: int) returns (d: map<string, seq<string>>)
    ensures d.Keys == {TrainKey, ValidationKey, TestKey}
    ensures SortedLex(d[TrainKey]) && multiset(d[TrainKey]) == multiset(Slice(allFiles, 0, trainSize))
    ensures SortedLex(d[ValidationKey]) && multiset(d[ValidationKey]) == multiset(Slice(allFiles, trainSize, trainSize + valSize))
    ensures SortedLex(d[TestKey]) && multiset(d[TestKey]) == multiset(Slice(allFiles, trainSize + valSize, |allFiles|))
  {
    var trainFiles := Slice(allFiles, 0, trainSize);
    var valFiles := Slice(allFiles, trainSize, trainSize + valSize);
    var testFiles := Slice(allFiles, trainSize + valSize, |allFiles|);
    d := map[TrainKey := Sorted(trainFiles), ValidationKey := Sorted(valFiles), TestKey := Sorted(testFiles)];
  }

  /** `generate_data_split`: scan the directory, shuffle, cut and sort.
      `shuffle(seed, s)` is what `random.shuffle` makes of s after
      `random.seed(seed)`. The test ratio is accepted and never read: the
      test list is whatever the first two slices leave. */
  method GenerateDataSplit(listing: seq<string>, shuffle: (int, seq<string>) -> seq<string>,
                           trainRatio: real := 0.7, valRatio: real := 0.15, testRatio: real := 0.15,
                           seed: int := 42)
    returns (d: map<string, seq<string>>)
    requires forall seed, s :: multiset(shuffle(seed, s)) == multiset(s)
    ensures d == SplitFiles(shuffle(seed, Kept(listing, listing)), trainRatio, valRatio)
    ensures 0.0 <= trainRatio && 0.0 <= valRatio ==>
      multiset(d[TrainKey]) + multiset(d[ValidationKey]) + multiset(d[TestKey]) == multiset(Kept(listing, listing))
  {
    var allFiles := ScanDirectory(listing);
    var shuffled := shuffle(seed, allFiles);
    var totalSize := |shuffled|;
    var trainSize := ShareSize(totalSize, trainRatio);
    var valSize := ShareSize(totalSize, valRatio);
    d := CutAndSort(shuffled, trainSize, valSize);
    SplitDetermined(shuffled, trainSize, valSize, d);
    if 0.0 <= trainRatio && 0.0 <= valRatio {
      SplitFilesPartition(shuffled, trainRatio, valRatio);
      assert multiset(shuffled) == multiset(allFiles);
    }
  }
}
