/** Python's ordering of strings (code point by code point, a proper
    prefix first) and `sorted` over lists of strings. */
module StringOrder {

  /** `a <= b` on Python strings. */
  predicate LexLe(a: string, b: string): (r: bool)
    ensures r && a != [] ==> b != [] && a[0] <= b[0]
  {
    if a == [] then true
    else if b == [] then false
    else if a[0] != b[0] then a[0] < b[0]
    else LexLe(a[1..], b[1..])
  }

  /** a is a prefix of b, or at the first position where they differ a has
      the smaller character. */
  predicate PrefixOrSmallerAt(a: string, b: string)
  {
    (|a| <= |b| && a == b[..|a|]) || exists k :: 0 <= k < |a| && k < |b| && a[..k] == b[..k] && a[k] < b[k]
  }

  /** The order agrees with its usual description as a first difference. */
  lemma {:induction false} LexLeFirstDifference(a: string, b: string)
    ensures LexLe(a, b) <==> PrefixOrSmallerAt(a, b)
  {
    if a != [] && b != [] {
      if a[0] != b[0] {
        forall k | 0 < k <= |a| && k <= |b|
          ensures a[..k] != b[..k]
        {
          assert a[..k][0] == a[0] && b[..k][0] == b[0];
        }
        if LexLe(a, b) {
          assert a[..0] == b[..0];
        }
      } else {
        var a', b' := a[1..], b[1..];
        LexLeFirstDifference(a', b');
        if |a| <= |b| && a == b[..|a|] {
          assert b[..|a|][1..] == b'[..|a'|];
        }
        if |a'| <= |b'| && a' == b'[..|a'|] {
          assert a == [a[0]] + a' && b[..|a|] == [b[0]] + b'[..|a'|];
        }
        forall k | 0 <= k < |a| && k < |b| && a[..k] == b[..k] && a[k] < b[k]
          ensures PrefixOrSmallerAt(a', b')
        {
          assert k > 0;
          assert a'[..k - 1] == a[..k][1..] && b'[..k - 1] == b[..k][1..];
          assert a'[k - 1] == a[k] && b'[k - 1] == b[k];
        }
        forall k | 0 <= k < |a'| && k < |b'| && a'[..k] == b'[..k] && a'[k] < b'[k]
          ensures PrefixOrSmallerAt(a, b)
        {
          assert a[..k + 1] == [a[0]] + a'[..k] && b[..k + 1] == [b[0]] + b'[..k];
          assert a[k + 1] == a'[k] && b[k + 1] == b'[k];
        }
      }
    }
  }

  lemma {:induction false} LexLeTotal(a: string, b: string)
    ensures LexLe(a, b) || LexLe(b, a)
  {
    if a != [] && b != [] && a[0] == b[0] {
      LexLeTotal(a[1..], b[1..]);
    }
  }

  lemma {:induction false} LexLeAntisymmetric(a: string, b: string)
    requires LexLe(a, b) && LexLe(b, a)
    ensures a == b
  {
    if a != [] && b != [] {
      LexLeAntisymmetric(a[1..], b[1..]);
      assert a == [a[0]] + a[1..] && b == [b[0]] + b[1..];
    }
  }

  lemma {:induction false} LexLeTransitive(a: string, b: string, c: string)
    requires LexLe(a, b) && LexLe(b, c)
    ensures LexLe(a, c)
  {
    if a != [] && b != [] && c != [] && a[0] == b[0] && b[0] == c[0] {
      LexLeTransitive(a[1..], b[1..], c[1..]);
    }
  }

  predicate SortedLex(s: seq<string>)
  {
    forall i, j :: 0 <= i < j < |s| ==> LexLe(s[i], s[j])
  }

  /** x placed before the first entry it does not follow. */
  function Insert(x: string, s: seq<string>): (r: seq<string>)
    ensures multiset(r) == multiset(s) + multiset{x}
  {
    if s == [] then [x]
    else if LexLe(x, s[0]) then [x] + s
    else
      assert s == [s[0]] + s[1..];
      [s[0]] + Insert(x, s[1..])
  }

  lemma {:induction false} InsertSorted(x: string, s: seq<string>)
    requires SortedLex(s)
    ensures SortedLex(Insert(x, s))
  {
    if s == [] {
    } else if LexLe(x, s[0]) {
      forall j | 0 < j < |s|
        ensures LexLe(x, s[j])
      {
        LexLeTransitive(x, s[0], s[j]);
      }
    } else {
      var rest := Insert(x, s[1..]);
      InsertSorted(x, s[1..]);
      LexLeTotal(x, s[0]);
      assert s == [s[0]] + s[1..];
      forall j | 0 <= j < |rest|
        ensures LexLe(s[0], rest[j])
      {
        assert rest[j] in multiset(rest);
        if rest[j] != x {
          assert rest[j] in s[1..];
        }
      }
    }
  }

  /** Python's `sorted` on a list of strings. */
  function Sorted(s: seq<string>): (r: seq<string>)
    ensures SortedLex(r)
    ensures multiset(r) == multiset(s)
  {
    if s == [] then []
    else
      var init := s[..|s| - 1];
      assert s == init + [s[|s| - 1]];
      var sortedInit := Sorted(init);
      InsertSorted(s[|s| - 1], sortedInit);
      Insert(s[|s| - 1], sortedInit)
  }

  lemma {:induction false} LexLeReflexive(a: string)
    ensures LexLe(a, a)
  {
    if a != [] {
      LexLeReflexive(a[1..]);
    }
  }

  /** The first entry of a sorted list comes before every entry. */
  lemma HeadFirst(r: seq<string>, x: string)
    requires SortedLex(r) && x in r
    ensures LexLe(r[0], x)
  {
    var i :| 0 <= i < |r| && r[i] == x;
    if i == 0 {
      LexLeReflexive(x);
    }
  }

  lemma SortedTail(r: seq<string>)
    requires SortedLex(r) && r != []
    ensures SortedLex(r[1..])
  {
    forall i, j | 0 <= i < j < |r| - 1
      ensures LexLe(r[1..][i], r[1..][j])
    {
      assert r[1..][i] == r[i + 1] && r[1..][j] == r[j + 1];
    }
  }

  lemma TailsAgree(r1: seq<string>, r2: seq<string>)
    requires r1 != [] && r2 != [] && r1[0] == r2[0]
    requires multiset(r1) == multiset(r2)
    ensures multiset(r1[1..]) == multiset(r2[1..])
  {
    var h := r1[0];
    assert r1 == [h] + r1[1..];
    assert r2 == [h] + r2[1..];
    assert multiset(r1) == multiset{h} + multiset(r1[1..]);
    assert multiset(r2) == multiset{h} + multiset(r2[1..]);
    assert multiset(r1[1..]) == multiset(r1) - multiset{h};
    assert multiset(r2[1..]) == multiset(r2) - multiset{h};
  }

  /** A sorted list is determined by its multiset of entries: any sorted
      rearrangement of s is `Sorted(s)`. */
  lemma {:induction false} SortedUnique(r1: seq<string>, r2: seq<string>)
    requires SortedLex(r1) && SortedLex(r2)
    requires multiset(r1) == multiset(r2)
    ensures r1 == r2
  {
    if r1 != [] {
      assert r1[0] in multiset(r2);
      assert r2 != [] && r2[0] in multiset(r1);
      HeadFirst(r1, r2[0]);
      HeadFirst(r2, r1[0]);
      LexLeAntisymmetric(r1[0], r2[0]);
      TailsAgree(r1, r2);
      SortedTail(r1);
      SortedTail(r2);
      SortedUnique(r1[1..], r2[1..]);
      assert r1 == [r1[0]] + r1[1..] && r2 == [r2[0]] + r2[1..];
    }
  }
}
