/**
 * Python's `sorted(xs, key=..., reverse=...)` and SQL `ORDER BY`, modelled as a
 * stable insertion sort under a total preorder `leq` ("may come before").
 */
module Sorting {

  ghost predicate IsTotalPreorder<T(!new)>(leq: (T, T) -> bool) {
    && (forall a, b :: leq(a, b) || leq(b, a))
    && (forall a, b, c :: leq(a, b) && leq(b, c) ==> leq(a, c))
  }

  ghost predicate SortedBy<T>(s: seq<T>, leq: (T, T) -> bool) {
    forall i, j :: 0 <= i < j < |s| ==> leq(s[i], s[j])
  }

  /** Ascending by an integer key: `sorted(xs, key=key)`. */
  function Ascending<T>(key: T -> int): (T, T) -> bool {
    (a, b) => key(a) <= key(b)
  }

  /** Descending by an integer key: `sorted(xs, key=key, reverse=True)`. */
  function Descending<T>(key: T -> int): (T, T) -> bool {
    (a, b) => key(a) >= key(b)
  }

  lemma AscendingIsTotalPreorder<T(!new)>(key: T -> int)
    ensures IsTotalPreorder(Ascending(key))
  {
  }

  lemma DescendingIsTotalPreorder<T(!new)>(key: T -> int)
    ensures IsTotalPreorder(Descending(key))
  {
  }

  /** Inserts x after every element that may come before it (keeps equal elements in arrival order). */
  function InsertBy<T>(x: T, s: seq<T>, leq: (T, T) -> bool): (r: seq<T>)
    ensures multiset(r) == multiset(s) + multiset{x}
    ensures |r| == |s| + 1
  {
    if s == [] then [x]
    else if !leq(s[0], x) then [x] + s
    else
      assert s == [s[0]] + s[1..];
      [s[0]] + InsertBy(x, s[1..], leq)
  }

  /** Insertion into a sorted list keeps it sorted. */
  lemma {:induction false} InsertBySorted<T(!new)>(x: T, s: seq<T>, leq: (T, T) -> bool)
    requires IsTotalPreorder(leq) && SortedBy(s, leq)
    ensures SortedBy(InsertBy(x, s, leq), leq)
  {
    if s != [] && leq(s[0], x) {
      var rest := InsertBy(x, s[1..], leq);
      InsertBySorted(x, s[1..], leq);
      assert s == [s[0]] + s[1..];
      assert forall k :: 0 <= k < |rest| ==> leq(s[0], rest[k]) by {
        forall k | 0 <= k < |rest| ensures leq(s[0], rest[k]) {
          assert rest[k] in multiset(s[1..]) + multiset{x};
          if rest[k] != x {
            var j :| 0 <= j < |s[1..]| && s[1..][j] == rest[k];
            assert s[j + 1] == rest[k];
          }
        }
      }
    }
  }

  /** A stable sort of s under leq. */
  function SortBy<T>(s: seq<T>, leq: (T, T) -> bool): (r: seq<T>)
    ensures |r| == |s| && multiset(r) == multiset(s)
  {
    if s == [] then []
    else
      assert s == s[..|s| - 1] + [s[|s| - 1]];
      InsertBy(s[|s| - 1], SortBy(s[..|s| - 1], leq), leq)
  }

  /** Under a total preorder the result of SortBy is sorted. */
  lemma {:induction false} SortBySorted<T(!new)>(s: seq<T>, leq: (T, T) -> bool)
    requires IsTotalPreorder(leq)
    ensures SortedBy(SortBy(s, leq), leq)
  {
    if s != [] {
      SortBySorted(s[..|s| - 1], leq);
      InsertBySorted(s[|s| - 1], SortBy(s[..|s| - 1], leq), leq);
    }
  }

  /** Sorting by an ascending integer key orders the keys. */
  lemma SortAscending<T(!new)>(s: seq<T>, key: T -> int)
    ensures forall i, j :: 0 <= i < j < |SortBy(s, Ascending(key))| ==>
              key(SortBy(s, Ascending(key))[i]) <= key(SortBy(s, Ascending(key))[j])
  {
    AscendingIsTotalPreorder(key);
    SortBySorted(s, Ascending(key));
  }

  /** Sorting by a descending integer key orders the keys from highest to lowest. */
  lemma SortDescending<T(!new)>(s: seq<T>, key: T -> int)
    ensures forall i, j :: 0 <= i < j < |SortBy(s, Descending(key))| ==>
              key(SortBy(s, Descending(key))[i]) >= key(SortBy(s, Descending(key))[j])
  {
    DescendingIsTotalPreorder(key);
    SortBySorted(s, Descending(key));
  }

  /** Members of a sequence are members of any permutation of it. */
  lemma PermutationMembers<T>(r: seq<T>, s: seq<T>)
    requires multiset(r) == multiset(s)
    ensures forall x :: x in r <==> x in s
  {
    forall x ensures x in r <==> x in s {
      assert x in r <==> x in multiset(r);
      assert x in s <==> x in multiset(s);
    }
  }

  /** A prefix holds some of the elements of the sequence, each no more often than it. */
  lemma PrefixSubMultiset<T>(r: seq<T>, s: seq<T>)
    requires r <= s
    ensures multiset(r) <= multiset(s)
    ensures forall x :: x in r ==> x in s
  {
    assert s == r + s[|r|..];
    assert multiset(s) == multiset(r) + multiset(s[|r|..]);
  }

  /** A prefix of a list sorted by `leq` comes first: whatever is left out follows the last one kept. */
  lemma PrefixTopBy<T>(s: seq<T>, r: seq<T>, leq: (T, T) -> bool)
    requires r <= s
    requires SortedBy(s, leq)
    ensures forall x :: x in s && x !in r && r != [] ==> leq(r[|r| - 1], x)
  {
    assert forall i :: 0 <= i < |r| ==> s[i] == r[i] && s[i] in r;
    forall x | x in s && x !in r && r != [] ensures leq(r[|r| - 1], x) {
      var j :| 0 <= j < |s| && s[j] == x;
      assert j >= |r|;
      assert leq(s[|r| - 1], s[j]);
    }
  }

  /**
   * A prefix of a list sorted by `key` from highest keeps the top: no element
   * of the list left out of the prefix has a higher key than the last one kept.
   */
  lemma PrefixTop<T>(s: seq<T>, r: seq<T>, key: T -> int)
    requires r <= s
    requires forall i, j :: 0 <= i < j < |s| ==> key(s[i]) >= key(s[j])
    ensures forall i, j :: 0 <= i < j < |r| ==> key(r[i]) >= key(r[j])
    ensures forall x :: x in s && x !in r && r != [] ==> key(x) <= key(r[|r| - 1])
  {
    assert forall i :: 0 <= i < |r| ==> s[i] == r[i] && s[i] in r;
    forall x | x in s && x !in r && r != [] ensures key(x) <= key(r[|r| - 1]) {
      var j :| 0 <= j < |s| && s[j] == x;
      assert j >= |r|;
    }
  }

  /** Drops repeats from an ascending list, keeping one copy of each value. */
  function DedupSorted(s: seq<int>): (r: seq<int>)
    requires forall i, j :: 0 <= i < j < |s| ==> s[i] <= s[j]
    ensures forall x :: x in r <==> x in s
    ensures forall i, j :: 0 <= i < j < |r| ==> r[i] < r[j]
    ensures |r| <= |s|
  {
    if |s| <= 1 then s
    else
      var rest := DedupSorted(s[1..]);
      if s[0] == s[1] then rest
      else
        assert forall k :: 0 <= k < |rest| ==> s[0] < rest[k] by {
          forall k | 0 <= k < |rest| ensures s[0] < rest[k] {
            assert rest[k] in s[1..];
          }
        }
        [s[0]] + rest
  }

  /** `sorted(set(s))`: the distinct values of s in strictly ascending order. */
  function SortedDistinct(s: seq<int>): (r: seq<int>)
    ensures forall x :: x in r <==> x in s
    ensures forall i, j :: 0 <= i < j < |r| ==> r[i] < r[j]
    ensures |r| <= |s|
  {
    var sorted := SortBy(s, Ascending((x: int) => x));
    SortAscending(s, (x: int) => x);
    PermutationMembers(sorted, s);
    DedupSorted(sorted)
  }

  /** `len(set(s))`: `sorted(set(s))` holds each distinct value once. */
  lemma SortedDistinctSize(s: seq<int>)
    ensures |SortedDistinct(s)| == |set x | x in s|
  {
    var r := SortedDistinct(s);
    assert (set x | x in r) == (set x | x in s);
    IncreasingSize(r);
  }

  lemma {:induction false} IncreasingSize(r: seq<int>)
    requires forall i, j :: 0 <= i < j < |r| ==> r[i] < r[j]
    ensures |set x | x in r| == |r|
  {
    if r != [] {
      var init := r[..|r| - 1];
      IncreasingSize(init);
      assert (set x | x in r) == (set x | x in init) + {r[|r| - 1]};
      assert r[|r| - 1] !in (set x | x in init);
    }
  }
}
