/**
 * The stored records shared by the dashboard's components: weekly snapshots,
 * roster entries, and the profile a live fetch returns.
 */
module Records {
  import opened Wrappers
  import opened Dates
  import opened Sorting

  /** One weekly record of a member's solved counts (`history[owner][member]` entries). */
  datatype Snapshot = Snapshot(week: Day, member: string, totalSolved: int, easy: int, medium: int, hard: int)

  /** One entry of a profile's accepted-count list: `{"difficulty": ..., "count": ...}`. */
  datatype DifficultyCount = DifficultyCount(difficulty: string, count: int)

  /** What a live profile fetch returns for a member. */
  datatype Profile = Profile(
    totalSolved: int, easy: int, medium: int, hard: int,
    submissions: seq<DifficultyCount>, realName: Option<string>)

  /** The live profile fetch as an oracle: a username absent from the map is a failed fetch. */
  type Fetch = map<string, Profile>

  /** A roster entry of members.json; `name` and `status` may be absent. */
  datatype Member = Member(username: string, name: Option<string>, status: Option<string>)

  /** `m.get("name", m["username"])` */
  function DisplayName(m: Member): string {
    m.name.GetOr(m.username)
  }

  /** A team's history: member username to that member's snapshots in stored order. */
  type MemberHistory = map<string, seq<Snapshot>>

  /** The whole history document: owner to team history. */
  type History = map<string, MemberHistory>

  /** `d.get(k, [])` */
  function SnapshotsOf(mh: MemberHistory, u: string): seq<Snapshot> {
    if u in mh then mh[u] else []
  }

  /** `any(s.get("week_start") == week for s in snaps)` */
  predicate HasWeek(snaps: seq<Snapshot>, week: Day) {
    exists i :: 0 <= i < |snaps| && snaps[i].week == week
  }

  /** The ledger invariant: at most one snapshot per week in a member's list. */
  ghost predicate UniqueWeeks(snaps: seq<Snapshot>) {
    forall i, j :: 0 <= i < j < |snaps| ==> snaps[i].week != snaps[j].week
  }

  /** `next((s["count"] for s in subs if s["difficulty"] == d), 0)`: the first matching count. */
  function FirstCount(subs: seq<DifficultyCount>, d: string): (c: int)
    ensures (forall i :: 0 <= i < |subs| ==> subs[i].difficulty != d) ==> c == 0
    ensures forall i ::
              0 <= i < |subs| && subs[i].difficulty == d && (forall j :: 0 <= j < i ==> subs[j].difficulty != d)
              ==> c == subs[i].count
  {
    if subs == [] then 0
    else if subs[0].difficulty == d then subs[0].count
    else FirstCount(subs[1..], d)
  }

  /** A loop that overwrites its variable on every match: the last matching count. */
  function LastCount(subs: seq<DifficultyCount>, d: string): (c: int)
    ensures (forall i :: 0 <= i < |subs| ==> subs[i].difficulty != d) ==> c == 0
    ensures forall i ::
              0 <= i < |subs| && subs[i].difficulty == d && (forall j :: i < j < |subs| ==> subs[j].difficulty != d)
              ==> c == subs[i].count
  {
    if subs == [] then 0
    else if subs[|subs| - 1].difficulty == d then subs[|subs| - 1].count
    else
      var init := subs[..|subs| - 1];
      assert forall i :: 0 <= i < |init| ==> init[i] == subs[i];
      LastCount(init, d)
  }

  /** When a difficulty appears at most once, the first and the last match agree. */
  lemma FirstAndLastCountAgree(subs: seq<DifficultyCount>, d: string)
    requires forall i, j :: 0 <= i < j < |subs| && subs[i].difficulty == d ==> subs[j].difficulty != d
    ensures FirstCount(subs, d) == LastCount(subs, d)
  {
    if i :| 0 <= i < |subs| && subs[i].difficulty == d {
      assert forall j :: 0 <= j < i ==> subs[j].difficulty != d;
      assert forall j :: i < j < |subs| ==> subs[j].difficulty != d;
    }
  }

  /** A dict in insertion order: the keys of `d.items()` with their values. */
  type Ordered<V> = seq<(string, V)>

  /** The keys of an ordered dict are pairwise distinct. */
  ghost predicate DistinctKeys<V>(d: Ordered<V>) {
    forall i, j :: 0 <= i < j < |d| ==> d[i].0 != d[j].0
  }

  /** The keys of an ordered dict. */
  function Keys<V>(d: Ordered<V>): (ks: set<string>)
    ensures forall u :: u in ks <==> exists i :: 0 <= i < |d| && d[i].0 == u
  {
    set i | 0 <= i < |d| :: d[i].0
  }

  lemma KeysAppend<V>(d: Ordered<V>, x: (string, V))
    ensures Keys(d + [x]) == Keys(d) + {x.0}
  {
    assert forall i :: 0 <= i < |d| ==> (d + [x])[i] == d[i];
    assert (d + [x])[|d|] == x;
  }

  lemma DistinctKeysAppend<V>(d: Ordered<V>, x: (string, V))
    requires DistinctKeys(d) && x.0 !in Keys(d)
    ensures DistinctKeys(d + [x])
  {
    forall i, j | 0 <= i < j < |d + [x]| ensures (d + [x])[i].0 != (d + [x])[j].0 {
      assert (d + [x])[i] == d[i];
      if j < |d| {
        assert (d + [x])[j] == d[j];
      }
    }
  }

  /** `d[u]` for an ordered dict: the value of the last item with key u (the only one when keys are distinct). */
  function LastValue<V>(d: Ordered<V>, u: string): (v: V)
    requires u in Keys(d)
    ensures exists i :: 0 <= i < |d| && d[i].0 == u && v == d[i].1
    ensures DistinctKeys(d) ==> forall i :: 0 <= i < |d| && d[i].0 == u ==> v == d[i].1
  {
    if d[|d| - 1].0 == u then d[|d| - 1].1
    else
      KeysAppend(d[..|d| - 1], d[|d| - 1]);
      assert d == d[..|d| - 1] + [d[|d| - 1]];
      LastValue(d[..|d| - 1], u)
  }

  lemma LastValueInit<V>(d: Ordered<V>, u: string)
    requires d != [] && d[|d| - 1].0 != u && u in Keys(d)
    ensures u in Keys(d[..|d| - 1]) && LastValue(d, u) == LastValue(d[..|d| - 1], u)
  {
    KeysAppend(d[..|d| - 1], d[|d| - 1]);
    assert d == d[..|d| - 1] + [d[|d| - 1]];
  }

  /** `d.get(u)` on a dict built from the items: the last item with key u. */
  function Lookup<V>(d: Ordered<V>, u: string): (v: Option<V>)
    ensures v.None? <==> u !in Keys(d)
    ensures v.Some? ==> v.value == LastValue(d, u)
  {
    if d == [] then None
    else if d[|d| - 1].0 == u then Some(d[|d| - 1].1)
    else
      KeysAppend(d[..|d| - 1], d[|d| - 1]);
      assert d == d[..|d| - 1] + [d[|d| - 1]];
      Lookup(d[..|d| - 1], u)
  }

  /** The ordered dict as a map. */
  function AsMap<V>(d: Ordered<V>): (m: map<string, V>)
    ensures forall i :: 0 <= i < |d| ==> d[i].0 in m
    ensures forall u :: u in m ==> exists i :: 0 <= i < |d| && d[i].0 == u && m[u] == d[i].1
  {
    if d == [] then map[] else AsMap(d[..|d| - 1])[d[|d| - 1].0 := d[|d| - 1].1]
  }

  /** `{u: f(u, v) for u, v in d.items()}`: each item's value transformed, later items overriding earlier ones. */
  function MapValues<V, W>(d: Ordered<V>, f: (string, V) -> W): map<string, W> {
    if d == [] then map[] else MapValues(d[..|d| - 1], f)[d[|d| - 1].0 := f(d[|d| - 1].0, d[|d| - 1].1)]
  }

  /** The transformed dict has exactly the keys of the items. */
  lemma {:induction false} MapValuesKeys<V, W>(d: Ordered<V>, f: (string, V) -> W)
    ensures MapValues(d, f).Keys == Keys(d)
  {
    if d != [] {
      var init := d[..|d| - 1];
      MapValuesKeys(init, f);
      assert d == init + [d[|d| - 1]];
      KeysAppend(init, d[|d| - 1]);
    }
  }

  /** With distinct keys every item's key maps to its own transformed value. */
  lemma {:induction false} MapValuesLookup<V, W>(d: Ordered<V>, f: (string, V) -> W)
    requires DistinctKeys(d)
    ensures forall i :: 0 <= i < |d| ==> d[i].0 in MapValues(d, f) && MapValues(d, f)[d[i].0] == f(d[i].0, d[i].1)
  {
    if d != [] {
      var init := d[..|d| - 1];
      assert DistinctKeys(init);
      MapValuesLookup(init, f);
      forall i | 0 <= i < |init| ensures d[i] == init[i] && d[i].0 != d[|d| - 1].0 {
      }
    }
  }

  /** In a dict's items each (key, value) pair occurs at most once. */
  lemma {:induction false} DistinctKeysOccurOnce<V>(d: Ordered<V>, x: (string, V))
    requires DistinctKeys(d)
    ensures multiset(d)[x] <= 1
  {
    if d != [] {
      var init := d[..|d| - 1];
      assert d == init + [d[|d| - 1]];
      DistinctKeysOccurOnce(init, x);
    }
  }

  /** Reordering a dict's items keeps its keys distinct. */
  lemma PermutationKeepsDistinctKeys<V>(r: Ordered<V>, d: Ordered<V>)
    requires multiset(r) == multiset(d) && DistinctKeys(d)
    ensures DistinctKeys(r)
  {
    forall i, j | 0 <= i < j < |r| ensures r[i].0 != r[j].0 {
      if r[i] == r[j] {
        assert r == r[..j] + r[j..];
        assert r[i] in r[..j] && r[j] in r[j..];
        assert multiset(r)[r[i]] == multiset(r[..j])[r[i]] + multiset(r[j..])[r[i]];
        DistinctKeysOccurOnce(d, r[i]);
      } else {
        assert r[i] in multiset(d) && r[j] in multiset(d);
        var a :| 0 <= a < |d| && d[a] == r[i];
        var b :| 0 <= b < |d| && d[b] == r[j];
      }
    }
  }

  /** `sorted(snaps, key=lambda x: x["week_start"])`: a stable sort by week. */
  function SortByWeek(snaps: seq<Snapshot>): (r: seq<Snapshot>)
    ensures |r| == |snaps| && multiset(r) == multiset(snaps)
    ensures forall i, j :: 0 <= i < j < |r| ==> r[i].week <= r[j].week
  {
    SortAscending(snaps, (s: Snapshot) => s.week);
    SortBy(snaps, Ascending((s: Snapshot) => s.week))
  }
}
