/**
 * Python's `collections.Counter` over string keys, kept as an ordered dict so
 * that `most_common` can break ties by first insertion as CPython does.
 */
module Counters {
  import opened Records
  import opened Sorting
  import opened PySeq

  type Counter = Ordered<nat>

  /** `counter[t]`: the count under key t, 0 when t is absent. */
  function CountOf(d: Counter, t: string): (c: nat)
    ensures t !in Keys(d) ==> c == 0
  {
    if d == [] then 0 else if d[0].0 == t then d[0].1 else CountOf(d[1..], t)
  }

  /** `sum(counter.values())` */
  function Total(d: Counter): nat {
    if d == [] then 0 else d[0].1 + Total(d[1..])
  }

  /** `counter[t] += c`: bumps an existing key in place or appends a new one. */
  function AddCount(d: Counter, t: string, c: nat): (r: Counter)
    ensures |r| == if t in Keys(d) then |d| else |d| + 1
  {
    if d == [] then [(t, c)]
    else if d[0].0 == t then [(t, d[0].1 + c)] + d[1..]
    else
      assert Keys(d) == {d[0].0} + Keys(d[1..]) by { KeysCons(d); }
      [d[0]] + AddCount(d[1..], t, c)
  }

  lemma KeysCons<V>(d: Ordered<V>)
    requires d != []
    ensures Keys(d) == {d[0].0} + Keys(d[1..])
  {
    forall u | u in Keys(d) ensures u in {d[0].0} + Keys(d[1..]) {
      var i :| 0 <= i < |d| && d[i].0 == u;
      if i > 0 {
        assert d[1..][i - 1] == d[i];
      }
    }
    forall u | u in Keys(d[1..]) ensures u in Keys(d) {
      var i :| 0 <= i < |d[1..]| && d[1..][i].0 == u;
      assert d[i + 1] == d[1..][i];
    }
  }

  lemma DistinctKeysCons<V>(d: Ordered<V>)
    requires d != []
    ensures DistinctKeys(d) <==> DistinctKeys(d[1..]) && d[0].0 !in Keys(d[1..])
  {
    if DistinctKeys(d) {
      forall u | u in Keys(d[1..]) ensures u != d[0].0 {
        var i :| 0 <= i < |d[1..]| && d[1..][i].0 == u;
        assert d[i + 1] == d[1..][i];
      }
    }
    if DistinctKeys(d[1..]) && d[0].0 !in Keys(d[1..]) {
      forall i, j | 0 <= i < j < |d| ensures d[i].0 != d[j].0 {
        assert d[j] == d[1..][j - 1];
        if i > 0 {
          assert d[i] == d[1..][i - 1];
        }
      }
    }
  }

  /** In a dict with distinct keys the lookup finds the value stored under the key. */
  lemma {:induction false} CountOfAt(d: Counter, i: int)
    requires DistinctKeys(d) && 0 <= i < |d|
    ensures CountOf(d, d[i].0) == d[i].1
  {
    if i > 0 {
      DistinctKeysCons(d);
      assert d[1..][i - 1] == d[i];
      assert d[i].0 in Keys(d[1..]);
      CountOfAt(d[1..], i - 1);
    }
  }

  lemma {:induction false} AddCountKeys(d: Counter, t: string, c: nat)
    ensures Keys(AddCount(d, t, c)) == Keys(d) + {t}
  {
    var r := AddCount(d, t, c);
    if d == [] {
      assert r[0].0 == t;
    } else {
      KeysCons(d);
      KeysCons(r);
      if d[0].0 != t {
        AddCountKeys(d[1..], t, c);
        assert r[1..] == AddCount(d[1..], t, c);
      } else {
        assert r[1..] == d[1..];
      }
    }
  }

  lemma {:induction false} AddCountDistinct(d: Counter, t: string, c: nat)
    requires DistinctKeys(d)
    ensures DistinctKeys(AddCount(d, t, c))
  {
    var r := AddCount(d, t, c);
    if d != [] {
      DistinctKeysCons(d);
      DistinctKeysCons(r);
      if d[0].0 != t {
        AddCountDistinct(d[1..], t, c);
        AddCountKeys(d[1..], t, c);
        assert r[1..] == AddCount(d[1..], t, c);
      } else {
        assert r[1..] == d[1..];
      }
    }
  }

  lemma {:induction false} AddCountCounts(d: Counter, t: string, c: nat, u: string)
    ensures CountOf(AddCount(d, t, c), u) == CountOf(d, u) + (if u == t then c else 0)
  {
    if d != [] && d[0].0 != t {
      AddCountCounts(d[1..], t, c, u);
    }
  }

  lemma {:induction false} AddCountTotal(d: Counter, t: string, c: nat)
    ensures Total(AddCount(d, t, c)) == Total(d) + c
  {
    if d != [] && d[0].0 != t {
      AddCountTotal(d[1..], t, c);
    }
  }

  /** Adding c under t adds c to t's count and to the total, leaves other counts, and keeps keys distinct. */
  lemma AddCountSpec(d: Counter, t: string, c: nat)
    ensures Keys(AddCount(d, t, c)) == Keys(d) + {t}
    ensures DistinctKeys(d) ==> DistinctKeys(AddCount(d, t, c))
    ensures forall u :: CountOf(AddCount(d, t, c), u) == CountOf(d, u) + (if u == t then c else 0)
    ensures Total(AddCount(d, t, c)) == Total(d) + c
  {
    AddCountKeys(d, t, c);
    if DistinctKeys(d) {
      AddCountDistinct(d, t, c);
    }
    forall u ensures CountOf(AddCount(d, t, c), u) == CountOf(d, u) + (if u == t then c else 0) {
      AddCountCounts(d, t, c, u);
    }
    AddCountTotal(d, t, c);
  }

  /** A counter with distinct keys has one item per key. */
  lemma {:induction false} DistinctKeysSize<V>(d: Ordered<V>)
    requires DistinctKeys(d)
    ensures |Keys(d)| == |d|
  {
    if d != [] {
      DistinctKeysCons(d);
      KeysCons(d);
      DistinctKeysSize(d[1..]);
    }
  }

  /** `Counter(tags)`: one key per distinct tag, in order of first appearance. */
  function Tally(tags: seq<string>): Counter {
    if tags == [] then [] else AddCount(Tally(tags[..|tags| - 1]), tags[|tags| - 1], 1)
  }

  /** Counting tags: each tag's count is its number of occurrences, and the keys are exactly the tags seen. */
  lemma TallySpec(tags: seq<string>)
    ensures DistinctKeys(Tally(tags))
    ensures forall u :: CountOf(Tally(tags), u) == multiset(tags)[u]
    ensures forall u :: u in Keys(Tally(tags)) <==> u in tags
    ensures Total(Tally(tags)) == |tags|
    ensures |Tally(tags)| == |Keys(Tally(tags))|
  {
    TallyCounts(tags);
    TallyKeys(tags);
    DistinctKeysSize(Tally(tags));
  }

  lemma {:induction false} TallyCounts(tags: seq<string>)
    ensures DistinctKeys(Tally(tags))
    ensures forall u :: CountOf(Tally(tags), u) == multiset(tags)[u]
    ensures Total(Tally(tags)) == |tags|
  {
    if tags != [] {
      var init := tags[..|tags| - 1];
      var x := tags[|tags| - 1];
      TallyCounts(init);
      AddCountSpec(Tally(init), x, 1);
      assert tags == init + [x];
      assert multiset(tags) == multiset(init) + multiset{x};
    }
  }

  lemma {:induction false} TallyKeys(tags: seq<string>)
    ensures forall u :: u in Keys(Tally(tags)) <==> u in tags
  {
    if tags != [] {
      var init := tags[..|tags| - 1];
      var x := tags[|tags| - 1];
      TallyKeys(init);
      AddCountSpec(Tally(init), x, 1);
      assert tags == init + [x];
    }
  }

  /** Adds every (key, count) item of d to acc, in d's order. */
  function Merge(acc: Counter, d: Counter): Counter
    decreases |d|
  {
    if d == [] then acc else Merge(AddCount(acc, d[0].0, d[0].1), d[1..])
  }

  lemma {:induction false} MergeSpec(acc: Counter, d: Counter)
    ensures Keys(Merge(acc, d)) == Keys(acc) + Keys(d)
    ensures DistinctKeys(acc) ==> DistinctKeys(Merge(acc, d))
    ensures DistinctKeys(d) ==> forall u :: CountOf(Merge(acc, d), u) == CountOf(acc, u) + CountOf(d, u)
    ensures Total(Merge(acc, d)) == Total(acc) + Total(d)
    decreases |d|
  {
    if d != [] {
      AddCountSpec(acc, d[0].0, d[0].1);
      MergeSpec(AddCount(acc, d[0].0, d[0].1), d[1..]);
      KeysCons(d);
      DistinctKeysCons(d);
    }
  }

  /** The counts of several counters pooled into one, members in order. */
  function Pool(cs: seq<Counter>): Counter {
    if cs == [] then [] else Merge(Pool(cs[..|cs| - 1]), cs[|cs| - 1])
  }

  /** The sum over the counters of the count under u. */
  function CountAcross(cs: seq<Counter>, u: string): nat {
    if cs == [] then 0 else CountAcross(cs[..|cs| - 1], u) + CountOf(cs[|cs| - 1], u)
  }

  /** The sum of the counters' totals. */
  function TotalAcross(cs: seq<Counter>): nat {
    if cs == [] then 0 else TotalAcross(cs[..|cs| - 1]) + Total(cs[|cs| - 1])
  }

  /**
   * Pooling: the pooled count of a tag is the sum of its counts, the pooled
   * total is the sum of the totals, and a tag is pooled iff some counter has it.
   */
  lemma {:induction false} PoolSpec(cs: seq<Counter>)
    ensures DistinctKeys(Pool(cs))
    ensures forall u :: u in Keys(Pool(cs)) <==> exists i :: 0 <= i < |cs| && u in Keys(cs[i])
    ensures (forall i :: 0 <= i < |cs| ==> DistinctKeys(cs[i])) ==>
              forall u :: CountOf(Pool(cs), u) == CountAcross(cs, u)
    ensures Total(Pool(cs)) == TotalAcross(cs)
  {
    if cs != [] {
      var init := cs[..|cs| - 1];
      PoolSpec(init);
      MergeSpec(Pool(init), cs[|cs| - 1]);
      forall u ensures u in Keys(Pool(cs)) <==> exists i :: 0 <= i < |cs| && u in Keys(cs[i]) {
        if u in Keys(Pool(init)) {
          var i :| 0 <= i < |init| && u in Keys(init[i]);
          assert cs[i] == init[i];
        }
        if exists i :: 0 <= i < |cs| && u in Keys(cs[i]) {
          var i :| 0 <= i < |cs| && u in Keys(cs[i]);
          if i < |init| {
            assert init[i] == cs[i];
          }
        }
      }
      if forall i :: 0 <= i < |cs| ==> DistinctKeys(cs[i]) {
        assert forall i :: 0 <= i < |init| ==> init[i] == cs[i];
      }
    }
  }

  function CountField(x: (string, nat)): int {
    x.1
  }

  /**
   * `counter.most_common(k)`: the k items with the highest counts, ties in
   * insertion order (`heapq.nlargest`, which is `sorted(..., reverse=True)[:k]`
   * and returns nothing for k <= 0).
   */
  function MostCommon(d: Counter, k: int): Counter {
    if k <= 0 then [] else Take(SortBy(d, Descending(CountField)), k)
  }

  /**
   * `most_common(k)` holds min(k, |d|) items of `d`, a prefix of the items
   * sorted by count from highest, so no item left out has a higher count than
   * the last one kept.
   */
  lemma MostCommonSpec(d: Counter, k: int)
    ensures |MostCommon(d, k)| == if k <= 0 then 0 else if k < |d| then k else |d|
    ensures MostCommon(d, k) <= SortBy(d, Descending(CountField))
    ensures multiset(MostCommon(d, k)) <= multiset(d)
    ensures forall x :: x in MostCommon(d, k) ==> x in d
    ensures k >= |d| ==> multiset(MostCommon(d, k)) == multiset(d)
    ensures forall i, j :: 0 <= i < j < |MostCommon(d, k)| ==> MostCommon(d, k)[i].1 >= MostCommon(d, k)[j].1
    ensures forall x :: x in d && x !in MostCommon(d, k) && MostCommon(d, k) != [] ==>
              x.1 <= MostCommon(d, k)[|MostCommon(d, k)| - 1].1
    ensures DistinctKeys(d) ==> DistinctKeys(MostCommon(d, k))
  {
    MostCommonPrefix(d, k);
    MostCommonItems(d, k);
    if DistinctKeys(d) {
      MostCommonDistinct(d, k);
    }
    MostCommonTop(d, k);
  }

  /** The kept items are items of `d`, each at most as often as in `d`. */
  lemma MostCommonItems(d: Counter, k: int)
    ensures multiset(MostCommon(d, k)) <= multiset(d)
    ensures forall x :: x in MostCommon(d, k) ==> x in d
  {
    var sorted := SortBy(d, Descending(CountField));
    MostCommonPrefix(d, k);
    PrefixSubMultiset(MostCommon(d, k), sorted);
    assert multiset(sorted) == multiset(d);
    forall x | x in MostCommon(d, k) ensures x in d {
      assert x in multiset(d);
    }
  }

  /** Kept items come from `d`, so distinct keys stay distinct. */
  lemma MostCommonDistinct(d: Counter, k: int)
    requires DistinctKeys(d)
    ensures DistinctKeys(MostCommon(d, k))
  {
    var sorted := SortBy(d, Descending(CountField));
    MostCommonPrefix(d, k);
    PermutationKeepsDistinctKeys(sorted, d);
    assert DistinctKeys(sorted);
  }

  /** The kept items are in count order, and none left out has a higher count than the last kept. */
  lemma MostCommonTop(d: Counter, k: int)
    ensures forall i, j :: 0 <= i < j < |MostCommon(d, k)| ==> MostCommon(d, k)[i].1 >= MostCommon(d, k)[j].1
    ensures forall x :: x in d && x !in MostCommon(d, k) && MostCommon(d, k) != [] ==>
              x.1 <= MostCommon(d, k)[|MostCommon(d, k)| - 1].1
  {
    var sorted := SortBy(d, Descending(CountField));
    var r := MostCommon(d, k);
    MostCommonPrefix(d, k);
    SortDescending(d, CountField);
    PermutationMembers(sorted, d);
    PrefixTop(sorted, r, CountField);
    forall i, j | 0 <= i < j < |r| ensures r[i].1 >= r[j].1 {
      assert CountField(r[i]) >= CountField(r[j]);
    }
  }

  /** `most_common(k)` is the first min(k, |d|) items of the sorted list, all of it when k reaches |d|. */
  lemma MostCommonPrefix(d: Counter, k: int)
    ensures MostCommon(d, k) <= SortBy(d, Descending(CountField))
    ensures |MostCommon(d, k)| == if k <= 0 then 0 else if k < |d| then k else |d|
    ensures k >= |d| ==> MostCommon(d, k) == SortBy(d, Descending(CountField))
  {
  }
}
