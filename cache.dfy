/**
 * The in-process TTL cache that wraps the API's async fetchers: a dict from
 * call key to (timestamp, value) in insertion order, read, expired, filled
 * and trimmed on each call. Calls are serialised by a lock, so the model is
 * sequential; the clock and the wrapped function are parameters.
 */
module TtlCache {
  import opened Wrappers
  import opened PySeq

  /** `(args, frozenset(kwargs.items()))` */
  datatype Key<A(==)> = Key(args: seq<A>, kwargs: set<(string, A)>)

  function KeyOf<A(==)>(args: seq<A>, kwargs: seq<(string, A)>): Key<A> {
    Key(args, set i | 0 <= i < |kwargs| :: kwargs[i])
  }

  /** The keyword arguments' order does not matter: the same items give the same key. */
  lemma KeyIgnoresKeywordOrder<A>(args: seq<A>, kwargs: seq<(string, A)>, reordered: seq<(string, A)>)
    requires forall item :: item in kwargs <==> item in reordered
    ensures KeyOf(args, kwargs) == KeyOf(args, reordered)
  {
    var a := KeyOf(args, kwargs).kwargs;
    var b := KeyOf(args, reordered).kwargs;
    forall item | item in a ensures item in b {
      var i :| 0 <= i < |kwargs| && kwargs[i] == item;
      assert item in reordered;
      var j :| 0 <= j < |reordered| && reordered[j] == item;
    }
    forall item | item in b ensures item in a {
      var j :| 0 <= j < |reordered| && reordered[j] == item;
      assert item in kwargs;
      var i :| 0 <= i < |kwargs| && kwargs[i] == item;
    }
  }

  datatype Entry<V> = Entry(ts: real, value: V)

  /** The cache's items in insertion order. */
  type Items<A(==), V> = seq<(Key<A>, Entry<V>)>

  function HasKeyOf<A(==,!new), V(!new)>(key: Key<A>): ((Key<A>, Entry<V>)) -> bool {
    (item: (Key<A>, Entry<V>)) => item.0 == key
  }

  ghost predicate DistinctKeys<A(!new), V(!new)>(items: Items<A, V>) {
    forall i, j :: 0 <= i < j < |items| ==> items[i].0 != items[j].0
  }

  /** `del cache[key]`: the items without the key's, in order. */
  function Remove<A(==,!new), V(!new)>(items: Items<A, V>, key: Key<A>): (r: Items<A, V>)
    ensures forall item :: item in r <==> item in items && item.0 != key
  {
    Filter(items, (item: (Key<A>, Entry<V>)) => item.0 != key)
  }

  /** The key `min(cache.items(), key=timestamp)` picks: the first item with the smallest timestamp. */
  function OldestIndex<A(==,!new), V(!new)>(items: Items<A, V>): (i: nat)
    requires items != []
    ensures i < |items|
    ensures forall j :: 0 <= j < |items| ==> items[i].1.ts <= items[j].1.ts
    ensures forall j :: 0 <= j < i ==> items[j].1.ts > items[i].1.ts
  {
    if |items| == 1 then 0
    else
      var k := OldestIndex(items[..|items| - 1]);
      assert forall j :: 0 <= j < |items| - 1 ==> items[..|items| - 1][j] == items[j];
      if items[|items| - 1].1.ts < items[k].1.ts then |items| - 1 else k
  }

  /** `if len(cache) > maxsize: del cache[oldest]` */
  function Trim<A(==,!new), V(!new)>(items: Items<A, V>, maxsize: int): (r: Items<A, V>)
    ensures |items| <= maxsize ==> r == items
    ensures |items| > maxsize && items != [] ==>
      var i := OldestIndex(items); r == items[..i] + items[i + 1..]
  {
    if |items| > maxsize && items != [] then
      var i := OldestIndex(items);
      items[..i] + items[i + 1..]
    else items
  }

  /** The size bound the cache keeps: `maxsize`, or 0 for a negative `maxsize`. */
  function Capacity(maxsize: int): nat {
    if maxsize < 0 then 0 else maxsize
  }

  /** A recomputed value: the key's old item removed, the new one appended, then the oldest dropped when over size. */
  function Refill<A(==,!new), V(!new)>(items: Items<A, V>, key: Key<A>, now: real, value: V, maxsize: int): Items<A, V> {
    Trim(Remove(items, key) + [(key, Entry(now, value))], maxsize)
  }

  /** Trimming drops at most the one oldest item, keeps the keys distinct and keeps every other item. */
  lemma TrimSpec<A(!new), V(!new)>(items: Items<A, V>, maxsize: int)
    requires DistinctKeys(items)
    ensures var r := Trim(items, maxsize);
      DistinctKeys(r) && (forall item :: item in r ==> item in items)
      && |r| == (if |items| > maxsize && items != [] then |items| - 1 else |items|)
    ensures items != [] && (|items| > maxsize ==> OldestIndex(items) < |items| - 1) ==>
      items[|items| - 1] in Trim(items, maxsize)
  {
    var r := Trim(items, maxsize);
    if |items| > maxsize && items != [] {
      var i := OldestIndex(items);
      assert forall k :: 0 <= k < |r| ==> r[k] == items[if k < i then k else k + 1];
      assert DistinctKeys(r) by {
        forall a, b | 0 <= a < b < |r| ensures r[a].0 != r[b].0 {
          assert r[a] == items[if a < i then a else a + 1];
          assert r[b] == items[if b < i then b else b + 1];
        }
      }
      if i < |items| - 1 {
        assert r[|r| - 1] == items[|items| - 1];
      }
    }
  }

  /**
   * A refill keeps the keys distinct and the size within capacity, and when
   * the clock has not gone backwards and `maxsize` is at least 1 the new
   * value is kept; every other surviving item is an old one, unchanged.
   */
  lemma RefillSpec<A(!new), V(!new)>(items: Items<A, V>, key: Key<A>, now: real, value: V, maxsize: int)
    requires DistinctKeys(items) && |items| <= Capacity(maxsize)
    ensures var r := Refill(items, key, now, value, maxsize);
      DistinctKeys(r) && |r| <= Capacity(maxsize)
      && (forall item :: item in r && item.0 != key ==> item in items)
    ensures (forall j :: 0 <= j < |items| ==> items[j].1.ts <= now) && maxsize >= 1 ==>
      (key, Entry(now, value)) in Refill(items, key, now, value, maxsize)
  {
    var removed := Remove(items, key);
    var newest := (key, Entry(now, value));
    var appended := removed + [newest];
    RemoveShrinks(items, key);
    FilterSubsequence(items, (item: (Key<A>, Entry<V>)) => item.0 != key);
    SubsequenceDistinct(removed, items);
    assert DistinctKeys(appended);
    TrimSpec(appended, maxsize);
    if (forall j :: 0 <= j < |items| ==> items[j].1.ts <= now) && maxsize >= 1 && |appended| > maxsize {
      FreshSurvives(items, removed, newest, now);
    }
  }

  /** An older or equally old item comes before the new one, so the new one is not the first oldest. */
  lemma FreshSurvives<A(!new), V(!new)>(items: Items<A, V>, removed: Items<A, V>, newest: (Key<A>, Entry<V>), now: real)
    requires forall item :: item in removed ==> item in items
    requires forall j :: 0 <= j < |items| ==> items[j].1.ts <= now
    requires newest.1.ts == now && removed != []
    ensures OldestIndex(removed + [newest]) < |removed|
  {
    var appended := removed + [newest];
    var i := OldestIndex(appended);
    assert removed[0] in items;
    var k :| 0 <= k < |items| && items[k] == removed[0];
    assert appended[0] == removed[0];
    assert appended[i].1.ts <= appended[0].1.ts <= now;
  }

  lemma RemoveShrinks<A(!new), V(!new)>(items: Items<A, V>, key: Key<A>)
    requires DistinctKeys(items)
    ensures |Remove(items, key)| <= |items|
    ensures (exists j :: 0 <= j < |items| && items[j].0 == key) ==> |Remove(items, key)| < |items|
  {
    var p := (item: (Key<A>, Entry<V>)) => item.0 != key;
    if j :| 0 <= j < |items| && items[j].0 == key {
      assert items == items[..j] + [items[j]] + items[j + 1..];
      FilterConcat(items[..j] + [items[j]], items[j + 1..], p);
      FilterConcat(items[..j], [items[j]], p);
      assert Filter([items[j]], p) == [];
      assert |Filter(items[..j], p)| <= j;
      assert |Filter(items[j + 1..], p)| <= |items| - j - 1;
    }
  }

  /** Removing items keeps the keys distinct. */
  lemma {:induction false} SubsequenceDistinct<A(!new), V(!new)>(r: Items<A, V>, s: Items<A, V>)
    requires Subsequence(r, s) && DistinctKeys(s)
    ensures DistinctKeys(r)
    decreases |s|
  {
    if r != [] {
      var t := s[1..];
      assert DistinctKeys(t) by {
        forall a, b | 0 <= a < b < |t| ensures t[a].0 != t[b].0 {
          assert t[a] == s[a + 1] && t[b] == s[b + 1];
        }
      }
      if r[0] == s[0] {
        SubsequenceDistinct(r[1..], t);
        SubsequenceMembers(r[1..], t);
        forall a, b | 0 <= a < b < |r| ensures r[a].0 != r[b].0 {
          assert r[b] == r[1..][b - 1] && r[b] in t;
          var k :| 0 <= k < |t| && t[k] == r[b];
          assert s[k + 1] == t[k];
          if a > 0 {
            assert r[a] == r[1..][a - 1];
          }
        }
      } else {
        SubsequenceDistinct(r, t);
      }
    }
  }

  /** One decorated function's cache. */
  class Cache<A(==,!new), V(!new)> {
    const maxsize: int
    const ttl: int
    var items: Items<A, V>

    ghost predicate Valid()
      reads this
    {
      DistinctKeys(items) && |items| <= Capacity(maxsize)
    }

    constructor (maxsize: int, ttl: int)
      ensures this.maxsize == maxsize && this.ttl == ttl && items == []
      ensures Valid()
    {
      this.maxsize := maxsize;
      this.ttl := ttl;
      items := [];
    }

    /**
     * One call of the wrapper at time `now`: a key cached less than `ttl` ago
     * answers from the cache, unchanged (a hit does not refresh the entry);
     * otherwise the stale item is dropped, `fn` is called, and the newest
     * value is stored and returned, the oldest item going when over size.
     */
    method Call(args: seq<A>, kwargs: seq<(string, A)>, now: real, fn: Key<A> -> V) returns (result: V)
      requires Valid()
      modifies this
      ensures Valid()
      ensures var key := KeyOf(args, kwargs);
        var found := FirstIndex(old(items), HasKeyOf(key));
        if found.Some? && now - old(items)[found.value].1.ts < ttl as real then
          result == old(items)[found.value].1.value && items == old(items)
        else
          result == fn(key) && items == Refill(old(items), key, now, result, maxsize)
    {
      var key := KeyOf(args, kwargs);
      var found := FirstIndex(items, HasKeyOf(key));
      if found.Some? {
        var entry := items[found.value].1;
        if now - entry.ts < ttl as real {
          return entry.value;
        }
      }
      result := fn(key);
      RefillSpec(items, key, now, result, maxsize);
      items := Refill(items, key, now, result, maxsize);
    }
  }
}
