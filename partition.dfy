/** The fixed train / validation / test partition of the 180 CityScale tiles. */
module CityScalePartition {

  const TileCount := 180

  predicate IsTrain(x: int) { x % 10 < 8 }
  predicate IsValidation(x: int) { x % 20 == 18 }
  predicate IsTest(x: int) { x % 10 == 9 || x % 20 == 8 }

  predicate StrictlyIncreasing(s: seq<nat>)
  {
    forall i, j :: 0 <= i < j < |s| ==> s[i] < s[j]
  }

  /** The last digit of x is the last digit of x mod 20. */
  lemma Mod20Mod10(x: nat)
    ensures x % 10 == (x % 20) % 10
  {
    var q, r := x / 20, x % 20;
    assert x == 10 * (2 * q) + r;
    if r >= 10 {
      assert x == 10 * (2 * q + 1) + (r - 10);
    }
  }

  /** Every tile index lands in exactly one of the three lists. */
  lemma PartitionIsExact(x: nat)
    requires x < TileCount
    ensures IsTrain(x) || IsValidation(x) || IsTest(x)
    ensures !(IsTrain(x) && IsValidation(x))
    ensures !(IsTrain(x) && IsTest(x))
    ensures !(IsValidation(x) && IsTest(x))
  {
    Mod20Mod10(x);
  }

  /** How x / 20 and x % 20 move when x grows by one. */
  lemma Step20(x: nat)
    ensures x % 20 < 19 ==> (x + 1) / 20 == x / 20 && (x + 1) % 20 == x % 20 + 1
    ensures x % 20 == 19 ==> (x + 1) / 20 == x / 20 + 1 && (x + 1) % 20 == 0
  {
    var q, r := x / 20, x % 20;
    assert x + 1 == 20 * q + (r + 1);
    if r == 19 {
      assert x + 1 == 20 * (q + 1) + 0;
    }
  }

  datatype List = Train | Validation | Test

  predicate Belongs(x: int, list: List)
  {
    match list
    case Train => IsTrain(x)
    case Validation => IsValidation(x)
    case Test => IsTest(x)
  }

  /** Number of indices below x that belong to `list`, in closed form. */
  function CountBelow(x: nat, list: List): nat
  {
    var q, r := x / 20, x % 20;
    match list
    case Train => 16 * q + (if r <= 8 then r else if r <= 10 then 8 else if r <= 18 then r - 2 else 16)
    case Validation => q + (if r > 18 then 1 else 0)
    case Test => 3 * q + (if r > 8 then 1 else 0) + (if r > 9 then 1 else 0)
  }

  /** The list `cityscale_data_partition` builds for `list` once the indices
      below x have been classified, in the order they were appended. */
  function ListBelow(x: nat, list: List): seq<nat>
  {
    if x == 0 then [] else ListBelow(x - 1, list) + (if Belongs(x - 1, list) then [x - 1] else [])
  }

  lemma ListBelowStep(x: nat, list: List)
    ensures ListBelow(x + 1, list) == ListBelow(x, list) + (if Belongs(x, list) then [x] else [])
  {
  }

  /** The list holds exactly the indices below x that belong to it. */
  lemma {:induction false} ListBelowMembers(x: nat, list: List)
    ensures forall y: int :: y in ListBelow(x, list) <==> 0 <= y < x && Belongs(y, list)
  {
    if x > 0 {
      ListBelowMembers(x - 1, list);
    }
  }

  /** The list is strictly increasing, and all its entries are below x. */
  lemma {:induction false} ListBelowIncreasing(x: nat, list: List)
    ensures StrictlyIncreasing(ListBelow(x, list))
    ensures forall i :: 0 <= i < |ListBelow(x, list)| ==> ListBelow(x, list)[i] < x
  {
    if x > 0 {
      ListBelowIncreasing(x - 1, list);
    }
  }

  /** The closed form grows by one exactly at the indices that belong. */
  lemma CountBelowStep(x: nat, list: List)
    ensures CountBelow(x + 1, list) == CountBelow(x, list) + (if Belongs(x, list) then 1 else 0)
  {
    Mod20Mod10(x);
    Step20(x);
    match list
    case Train =>
    case Validation =>
    case Test =>
  }

  /** The list has as many entries as the closed form counts. */
  lemma {:induction false} ListBelowCount(x: nat, list: List)
    ensures |ListBelow(x, list)| == CountBelow(x, list)
  {
    if x > 0 {
      ListBelowCount(x - 1, list);
      CountBelowStep(x - 1, list);
    }
  }

  lemma CountsOfTheTiles()
    ensures CountBelow(TileCount, Train) == 144
    ensures CountBelow(TileCount, Validation) == 9
    ensures CountBelow(TileCount, Test) == 27
  {
  }

  /** Everything known about one list once the indices below x are classified. */
  lemma ListFacts(x: nat, list: List, l: seq<nat>)
    requires l == ListBelow(x, list)
    ensures forall y: int :: y in l <==> 0 <= y < x && Belongs(y, list)
    ensures StrictlyIncreasing(l)
    ensures |l| == CountBelow(x, list)
  {
    ListBelowMembers(x, list);
    ListBelowIncreasing(x, list);
    ListBelowCount(x, list);
  }

  /** What the three lists hold once the indices below x are classified. */
  lemma PartitionBelow(x: nat, train: seq<nat>, validation: seq<nat>, test: seq<nat>)
    requires train == ListBelow(x, Train) && validation == ListBelow(x, Validation) && test == ListBelow(x, Test)
    ensures forall y: int :: y in train <==> 0 <= y < x && IsTrain(y)
    ensures forall y: int :: y in validation <==> 0 <= y < x && IsValidation(y)
    ensures forall y: int :: y in test <==> 0 <= y < x && IsTest(y)
    ensures StrictlyIncreasing(train) && StrictlyIncreasing(validation) && StrictlyIncreasing(test)
    ensures |train| == CountBelow(x, Train) && |validation| == CountBelow(x, Validation) && |test| == CountBelow(x, Test)
  {
    ListFacts(x, Train, train);
    ListFacts(x, Validation, validation);
    ListFacts(x, Test, test);
  }

  /** `cityscale_data_partition`: one pass over 0..179 appending each index
      to the lists whose rule it meets. */
  method DataPartition() returns (train: seq<nat>, validation: seq<nat>, test: seq<nat>)
    ensures forall x: int :: x in train <==> 0 <= x < TileCount && IsTrain(x)
    ensures forall x: int :: x in validation <==> 0 <= x < TileCount && IsValidation(x)
    ensures forall x: int :: x in test <==> 0 <= x < TileCount && IsTest(x)
    ensures StrictlyIncreasing(train) && StrictlyIncreasing(validation) && StrictlyIncreasing(test)
    ensures |train| == 144 && |validation| == 9 && |test| == 27
  {
    train, test, validation := [], [], [];
    var x := 0;
    while x < TileCount
      invariant 0 <= x <= TileCount
      invariant train == ListBelow(x, Train)
      invariant validation == ListBelow(x, Validation)
      invariant test == ListBelow(x, Test)
    {
      Mod20Mod10(x);
      ghost var train0, validation0, test0 := train, validation, test;
      if x % 10 < 8 {
        train := train + [x];
      }
      if x % 10 == 9 {
        test := test + [x];
      }
      if x % 20 == 18 {
        validation := validation + [x];
      }
      if x % 20 == 8 {
        test := test + [x];
      }
      assert train == train0 + (if Belongs(x, Train) then [x] else []);
      assert validation == validation0 + (if Belongs(x, Validation) then [x] else []);
      assert test == test0 + (if Belongs(x, Test) then [x] else []);
      ListBelowStep(x, Train);
      ListBelowStep(x, Validation);
      ListBelowStep(x, Test);
      x := x + 1;
    }
    PartitionBelow(x, train, validation, test);
    CountsOfTheTiles();
  }
}
