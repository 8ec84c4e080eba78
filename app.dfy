/**
 * The Streamlit dashboard's own derivations: the stable colour given to each
 * member in the charts, and the restore of a team's roster and history from
 * uploaded backups, in merge or in replace mode.
 */
module Dashboard {
  import opened Wrappers
  import opened Records
  import opened Sorting
  import opened Text
  import PySeq
  import HistoryDocs

  // ---------------------------------------------------------------------
  // Colours per member
  // ---------------------------------------------------------------------

  /** `sorted(names)`: Python's string order. */
  function ByName(): (string, string) -> bool {
    (a: string, b: string) => StrLeq(a, b)
  }

  lemma ByNameIsTotalPreorder()
    ensures IsTotalPreorder(ByName())
  {
    forall a, b ensures ByName()(a, b) || ByName()(b, a) {
      StrLeqTotal(a, b);
    }
    forall a, b, c | ByName()(a, b) && ByName()(b, c) ensures ByName()(a, c) {
      StrLeqTransitive(a, b, c);
    }
  }

  /** The mapping the assignment loop builds: the i-th name gets `palette[i % len(palette)]`. */
  function Assign(sorted: seq<string>, palette: seq<string>): map<string, string>
    requires palette != []
  {
    if sorted == [] then map[]
    else Assign(sorted[..|sorted| - 1], palette)[sorted[|sorted| - 1] := palette[(|sorted| - 1) % |palette|]]
  }

  /** `build_member_color_map(names)` over the stitched palettes, deduplicated. */
  function ColorMap(names: seq<string>, palettes: seq<string>): map<string, string>
    requires palettes != []
  {
    PySeq.DedupSpec(palettes);
    assert palettes[0] in palettes;
    Assign(SortBy(names, ByName()), PySeq.Dedup(palettes))
  }

  /** `ALL_MEMBER_NAMES`: every roster entry's display name. */
  function MemberNames(members: seq<Member>): seq<string> {
    seq(|members|, i requires 0 <= i < |members| => DisplayName(members[i]))
  }

  /** Every name is mapped, nothing else is, and every colour comes from the palette. */
  lemma {:induction false} AssignSpec(sorted: seq<string>, palette: seq<string>)
    requires palette != []
    ensures forall x :: x in Assign(sorted, palette) <==> x in sorted
    ensures forall x :: x in Assign(sorted, palette) ==> Assign(sorted, palette)[x] in palette
  {
    if sorted != [] {
      AssignSpec(sorted[..|sorted| - 1], palette);
      assert sorted == sorted[..|sorted| - 1] + [sorted[|sorted| - 1]];
    }
  }

  /** In a list without repeats the i-th name gets the i-th colour, cyclically. */
  lemma {:induction false} AssignAt(sorted: seq<string>, palette: seq<string>, i: nat)
    requires palette != [] && i < |sorted|
    requires forall a, b :: 0 <= a < b < |sorted| ==> sorted[a] != sorted[b]
    ensures sorted[i] in Assign(sorted, palette) && Assign(sorted, palette)[sorted[i]] == palette[i % |palette|]
    ensures i < |palette| ==> Assign(sorted, palette)[sorted[i]] == palette[i]
  {
    var init := sorted[..|sorted| - 1];
    var last := sorted[|sorted| - 1];
    assert Assign(sorted, palette) == Assign(init, palette)[last := palette[(|sorted| - 1) % |palette|]];
    if i < |sorted| - 1 {
      assert init[i] == sorted[i] && sorted[i] != last;
      assert forall a, b :: 0 <= a < b < |init| ==> init[a] != init[b] by {
        forall a, b | 0 <= a < b < |init| ensures init[a] != init[b] {
          assert init[a] == sorted[a] && init[b] == sorted[b];
        }
      }
      AssignAt(init, palette, i);
    }
    SmallModulo(i, |palette|);
  }

  lemma SmallModulo(i: nat, n: nat)
    requires 0 < n
    ensures i < n ==> i % n == i
  {
  }

  /** The map's keys are exactly the names and its colours come from the palettes. */
  lemma ColorMapSpec(names: seq<string>, palettes: seq<string>)
    requires palettes != []
    ensures forall x :: x in ColorMap(names, palettes) <==> x in names
    ensures forall x :: x in ColorMap(names, palettes) ==> ColorMap(names, palettes)[x] in palettes
  {
    var sorted := SortBy(names, ByName());
    PermutationMembers(sorted, names);
    PySeq.DedupSpec(palettes);
    AssignSpec(sorted, PySeq.Dedup(palettes));
  }

  /**
   * Distinct names get distinct colours while there are no more names than
   * distinct colours in the palettes.
   */
  lemma ColorMapDistinct(names: seq<string>, palettes: seq<string>)
    requires palettes != []
    requires forall a, b :: 0 <= a < b < |names| ==> names[a] != names[b]
    requires |names| <= |PySeq.Dedup(palettes)|
    ensures forall x, y :: x in ColorMap(names, palettes) && y in ColorMap(names, palettes) && x != y ==>
      ColorMap(names, palettes)[x] != ColorMap(names, palettes)[y]
  {
    var sorted := SortBy(names, ByName());
    PySeq.PermutationDistinct(sorted, names);
    PySeq.DedupSpec(palettes);
    AssignDistinct(sorted, PySeq.Dedup(palettes));
  }

  /** Names without repeats, no more of them than colours without repeats: no colour is given twice. */
  lemma AssignDistinct(sorted: seq<string>, palette: seq<string>)
    requires palette != [] && |sorted| <= |palette|
    requires forall a, b :: 0 <= a < b < |sorted| ==> sorted[a] != sorted[b]
    requires forall a, b :: 0 <= a < b < |palette| ==> palette[a] != palette[b]
    ensures forall x, y :: x in Assign(sorted, palette) && y in Assign(sorted, palette) && x != y ==>
      Assign(sorted, palette)[x] != Assign(sorted, palette)[y]
  {
    var m := Assign(sorted, palette);
    AssignSpec(sorted, palette);
    forall x, y | x in m && y in m && x != y ensures m[x] != m[y] {
      var i :| 0 <= i < |sorted| && sorted[i] == x;
      var j :| 0 <= j < |sorted| && sorted[j] == y;
      AssignAt(sorted, palette, i);
      AssignAt(sorted, palette, j);
    }
  }

  /** Two sorted lists with the same elements are the same list. */
  lemma {:induction false} SortedUnique(a: seq<string>, b: seq<string>)
    requires SortedBy(a, ByName()) && SortedBy(b, ByName())
    requires multiset(a) == multiset(b)
    ensures a == b
  {
    if a == [] {
      assert |b| == |multiset(b)| == 0;
    } else {
      SortedHeads(a, b);
      TailMultiset(a);
      TailMultiset(b);
      SortedUnique(a[1..], b[1..]);
      assert a == [a[0]] + a[1..] && b == [b[0]] + b[1..];
    }
  }

  /** Sorted lists with the same elements start with the same element. */
  lemma SortedHeads(a: seq<string>, b: seq<string>)
    requires SortedBy(a, ByName()) && SortedBy(b, ByName())
    requires multiset(a) == multiset(b) && a != []
    ensures b != [] && a[0] == b[0]
  {
    assert a[0] in multiset(b);
    var k :| 0 <= k < |b| && b[k] == a[0];
    assert b[0] in multiset(a);
    var l :| 0 <= l < |a| && a[l] == b[0];
    assert StrLeq(b[0], b[k]) && StrLeq(a[0], a[l]) by {
      if k > 0 {
        assert ByName()(b[0], b[k]);
      } else {
        StrLeqTotal(b[0], b[0]);
      }
      if l > 0 {
        assert ByName()(a[0], a[l]);
      } else {
        StrLeqTotal(a[0], a[0]);
      }
    }
    StrLeqAntisymmetric(a[0], b[0]);
  }

  lemma TailMultiset(a: seq<string>)
    requires a != []
    ensures multiset(a[1..]) == multiset(a) - multiset{a[0]}
  {
    assert a == [a[0]] + a[1..];
  }

  /** The colours do not depend on the order the names come in. */
  lemma ColorMapOrderIndependent(names: seq<string>, others: seq<string>, palettes: seq<string>)
    requires palettes != [] && multiset(names) == multiset(others)
    ensures ColorMap(names, palettes) == ColorMap(others, palettes)
  {
    ByNameIsTotalPreorder();
    SortBySorted(names, ByName());
    SortBySorted(others, ByName());
    SortedUnique(SortBy(names, ByName()), SortBy(others, ByName()));
  }

  /**
   * `build_member_color_map`: the palettes deduplicated keeping first
   * occurrences, then each name in sorted order given the next colour, cycling.
   */
  method BuildMemberColorMap(names: seq<string>, palettes: seq<string>) returns (mapping: map<string, string>)
    requires palettes != []
    ensures mapping == ColorMap(names, palettes)
  {
    var seen: set<string> := {};
    var palette: seq<string> := [];
    var i := 0;
    while i < |palettes|
      invariant 0 <= i <= |palettes|
      invariant palette == PySeq.Dedup(palettes[..i])
      invariant forall c :: c in seen <==> c in palette
    {
      assert palettes[..i + 1][..i] == palettes[..i];
      var c := palettes[i];
      if c !in seen {
        palette := palette + [c];
        seen := seen + {c};
      }
      i := i + 1;
    }
    assert palettes[..i] == palettes;
    PySeq.DedupSpec(palettes);
    assert palettes[0] in palette;
    var sorted := SortBy(names, ByName());
    mapping := map[];
    var k := 0;
    while k < |sorted|
      invariant 0 <= k <= |sorted|
      invariant mapping == Assign(sorted[..k], palette)
    {
      assert sorted[..k + 1][..k] == sorted[..k];
      mapping := mapping[sorted[k] := palette[k % |palette|]];
      k := k + 1;
    }
    assert sorted[..k] == sorted;
  }

  // ---------------------------------------------------------------------
  // Dict assignment on an ordered dict
  // ---------------------------------------------------------------------

  /** `d[k] = v`: the item replaced where the key is, or appended at the end. */
  function Put<V>(d: Ordered<V>, k: string, v: V): Ordered<V> {
    if k in Keys(d) then seq(|d|, i requires 0 <= i < |d| => if d[i].0 == k then (k, v) else d[i])
    else d + [(k, v)]
  }

  /**
   * Assignment keeps the keys distinct, adds k to them, makes k map to v and
   * leaves every other key's value alone; an existing key keeps its place.
   */
  lemma PutSpec<V>(d: Ordered<V>, k: string, v: V)
    requires DistinctKeys(d)
    ensures DistinctKeys(Put(d, k, v))
    ensures Keys(Put(d, k, v)) == Keys(d) + {k}
    ensures Lookup(Put(d, k, v), k) == Some(v)
    ensures forall u :: u != k ==> Lookup(Put(d, k, v), u) == Lookup(d, u)
    ensures forall x :: x in Put(d, k, v) ==> x in d || x == (k, v)
    ensures k in Keys(d) ==> |Put(d, k, v)| == |d|
    ensures k !in Keys(d) ==> Put(d, k, v) == d + [(k, v)]
  {
    PutKeys(d, k, v);
    forall u ensures Lookup(Put(d, k, v), u) == if u == k then Some(v) else Lookup(d, u) {
      PutLookup(d, k, v, u);
    }
  }

  lemma PutKeys<V>(d: Ordered<V>, k: string, v: V)
    requires DistinctKeys(d)
    ensures DistinctKeys(Put(d, k, v))
    ensures Keys(Put(d, k, v)) == Keys(d) + {k}
  {
    var r := Put(d, k, v);
    if k !in Keys(d) {
      KeysAppend(d, (k, v));
      DistinctKeysAppend(d, (k, v));
    } else {
      assert forall i :: 0 <= i < |r| ==> r[i].0 == d[i].0;
    }
  }

  lemma PutLookup<V>(d: Ordered<V>, k: string, v: V, u: string)
    requires DistinctKeys(d)
    ensures Lookup(Put(d, k, v), u) == if u == k then Some(v) else Lookup(d, u)
  {
    var r := Put(d, k, v);
    PutKeys(d, k, v);
    if u in Keys(r) {
      var i :| 0 <= i < |r| && r[i].0 == u;
      if k !in Keys(d) && i == |d| {
        assert LastValue(r, u) == v;
      } else {
        assert r[i].0 == d[i].0;
        assert LastValue(r, u) == r[i].1;
        if u != k {
          assert LastValue(d, u) == d[i].1;
        }
      }
    }
  }

  // ---------------------------------------------------------------------
  // Members restore
  // ---------------------------------------------------------------------

  /** What the upload holds under the chosen key: a list of entries, or something else. */
  datatype MembersValue = MembersList(items: seq<Member>) | NotAList

  /** `uploaded.get(user, uploaded.get("members", uploaded.get("data", [])))` */
  function UploadedList(upload: map<string, MembersValue>, user: string): MembersValue {
    if user in upload then upload[user]
    else if "members" in upload then upload["members"]
    else if "data" in upload then upload["data"]
    else MembersList([])
  }

  /** `{"username": m["username"], "name": m.get("name", m["username"])}` */
  function Restored(m: Member): Member {
    Member(m.username, Some(DisplayName(m)), None)
  }

  /** `{m["username"]: m for m in members}` */
  function ByUsername(ms: seq<Member>): Ordered<Member> {
    if ms == [] then []
    else Put(ByUsername(ms[..|ms| - 1]), ms[|ms| - 1].username, ms[|ms| - 1])
  }

  /** The loop over the uploaded list: each entry, restored, overrides its username. */
  function PutAll(d: Ordered<Member>, ups: seq<Member>): Ordered<Member> {
    if ups == [] then d
    else Put(PutAll(d, ups[..|ups| - 1]), ups[|ups| - 1].username, Restored(ups[|ups| - 1]))
  }

  /** `list(d.values())` */
  function Values<V>(d: Ordered<V>): seq<V> {
    seq(|d|, i requires 0 <= i < |d| => d[i].1)
  }

  /** Merge mode: the current roster keyed by username, then overridden by the upload. */
  function MergeMembers(current: seq<Member>, ups: seq<Member>): seq<Member> {
    Values(PutAll(ByUsername(current), ups))
  }

  /** Replace mode: the uploaded entries, restored, in upload order. */
  function ReplaceMembers(ups: seq<Member>): seq<Member> {
    seq(|ups|, i requires 0 <= i < |ups| => Restored(ups[i]))
  }

  /** The members half of the restore: the team's new roster, or the error it raises. */
  function RestoreMembers(current: seq<Member>, upload: map<string, MembersValue>, user: string, merge: bool): Result<seq<Member>> {
    match UploadedList(upload, user)
    case NotAList => Failure("Members JSON must contain a list under your username.")
    case MembersList(ups) => Success(if merge then MergeMembers(current, ups) else ReplaceMembers(ups))
  }

  /** The last entry of a list with the given username. */
  function LastWith(ms: seq<Member>, u: string): (r: Option<Member>)
    ensures r.Some? ==> r.value in ms && r.value.username == u
    ensures r.None? <==> forall i :: 0 <= i < |ms| ==> ms[i].username != u
  {
    if ms == [] then None
    else if ms[|ms| - 1].username == u then Some(ms[|ms| - 1])
    else
      assert forall i :: 0 <= i < |ms| - 1 ==> ms[..|ms| - 1][i] == ms[i];
      LastWith(ms[..|ms| - 1], u)
  }

  /** Each item of a roster dict is keyed by its entry's username. */
  ghost predicate Keyed(d: Ordered<Member>) {
    forall x :: x in d ==> x.1.username == x.0
  }

  /** Keying a list by username: distinct keys, each holding the last entry with that username. */
  lemma {:induction false} ByUsernameSpec(ms: seq<Member>)
    ensures DistinctKeys(ByUsername(ms)) && Keyed(ByUsername(ms))
    ensures forall u :: Lookup(ByUsername(ms), u) == LastWith(ms, u)
  {
    if ms != [] {
      var init := ms[..|ms| - 1];
      var last := ms[|ms| - 1];
      ByUsernameSpec(init);
      PutSpec(ByUsername(init), last.username, last);
    }
  }

  /** The entry a merge keeps for a username: the last uploaded one, restored, else the last current one. */
  function MergedEntry(current: seq<Member>, ups: seq<Member>, u: string): Option<Member> {
    if LastWith(ups, u).Some? then Some(Restored(LastWith(ups, u).value)) else LastWith(current, u)
  }

  /** The uploaded entry for u, restored, if there is one; else what d holds for u. */
  function MergedLookup(d: Ordered<Member>, ups: seq<Member>, u: string): Option<Member> {
    if LastWith(ups, u).Some? then Some(Restored(LastWith(ups, u).value)) else Lookup(d, u)
  }

  lemma {:induction false} PutAllSpec(d: Ordered<Member>, ups: seq<Member>)
    requires DistinctKeys(d) && Keyed(d)
    ensures DistinctKeys(PutAll(d, ups)) && Keyed(PutAll(d, ups))
    ensures forall u :: Lookup(PutAll(d, ups), u) == MergedLookup(d, ups, u)
  {
    if ups != [] {
      var init := ups[..|ups| - 1];
      var last := ups[|ups| - 1];
      PutAllSpec(d, init);
      PutSpec(PutAll(d, init), last.username, Restored(last));
    }
  }

  /**
   * Merge mode keys the roster by username: no username appears twice, every
   * entry is the last uploaded one for its username (restored) or, failing
   * that, the last current one, and every username of either list is there.
   */
  lemma MergeMembersSpec(current: seq<Member>, ups: seq<Member>)
    ensures var r := MergeMembers(current, ups);
      forall i, j :: 0 <= i < j < |r| ==> r[i].username != r[j].username
    ensures var r := MergeMembers(current, ups);
      forall i :: 0 <= i < |r| ==> MergedEntry(current, ups, r[i].username) == Some(r[i])
    ensures var r := MergeMembers(current, ups);
      forall u :: MergedEntry(current, ups, u).Some? ==> exists i :: 0 <= i < |r| && r[i].username == u
  {
    var d := PutAll(ByUsername(current), ups);
    ByUsernameSpec(current);
    PutAllSpec(ByUsername(current), ups);
    MergedUsernames(d);
    MergedEntries(current, ups, d);
    MergedComplete(current, ups, d);
  }

  /** The values of a keyed dict with distinct keys have distinct usernames. */
  lemma MergedUsernames(d: Ordered<Member>)
    requires DistinctKeys(d) && Keyed(d)
    ensures forall i, j :: 0 <= i < j < |Values(d)| ==> Values(d)[i].username != Values(d)[j].username
  {
    forall i, j | 0 <= i < j < |Values(d)| ensures Values(d)[i].username != Values(d)[j].username {
      assert d[i] in d && d[j] in d;
    }
  }

  lemma MergedEntries(current: seq<Member>, ups: seq<Member>, d: Ordered<Member>)
    requires DistinctKeys(d) && Keyed(d)
    requires forall u :: Lookup(d, u) == MergedLookup(ByUsername(current), ups, u)
    requires forall u :: Lookup(ByUsername(current), u) == LastWith(current, u)
    ensures forall i :: 0 <= i < |Values(d)| ==> MergedEntry(current, ups, Values(d)[i].username) == Some(Values(d)[i])
  {
    forall i | 0 <= i < |Values(d)| ensures MergedEntry(current, ups, Values(d)[i].username) == Some(Values(d)[i]) {
      var u := d[i].0;
      assert d[i] in d;
      assert LastValue(d, u) == d[i].1;
      assert Lookup(d, u) == Some(d[i].1);
      assert MergedLookup(ByUsername(current), ups, u) == MergedEntry(current, ups, u);
    }
  }

  lemma MergedComplete(current: seq<Member>, ups: seq<Member>, d: Ordered<Member>)
    requires Keyed(d)
    requires forall u :: Lookup(d, u) == MergedLookup(ByUsername(current), ups, u)
    requires forall u :: Lookup(ByUsername(current), u) == LastWith(current, u)
    ensures forall u :: MergedEntry(current, ups, u).Some? ==> exists i :: 0 <= i < |Values(d)| && Values(d)[i].username == u
  {
    forall u | MergedEntry(current, ups, u).Some? ensures exists i :: 0 <= i < |Values(d)| && Values(d)[i].username == u {
      assert Lookup(ByUsername(current), u) == LastWith(current, u);
      assert MergedLookup(ByUsername(current), ups, u) == MergedEntry(current, ups, u);
      assert Lookup(d, u).Some?;
      var i :| 0 <= i < |d| && d[i].0 == u;
      assert d[i] in d;
      assert Values(d)[i].username == u;
    }
  }

  /**
   * The members restore fails iff the upload has no list under the chosen
   * key; replace mode gives each uploaded entry, in order, with its display
   * name and nothing else; merge mode gives the keyed merge.
   */
  lemma RestoreMembersSpec(current: seq<Member>, upload: map<string, MembersValue>, user: string, merge: bool)
    ensures RestoreMembers(current, upload, user, merge).Failure? <==> UploadedList(upload, user).NotAList?
    ensures var r := RestoreMembers(current, upload, user, merge);
      r.Success? && !merge ==>
        |r.value| == |UploadedList(upload, user).items| &&
        forall i :: 0 <= i < |r.value| ==>
          var m := UploadedList(upload, user).items[i];
          r.value[i].username == m.username && r.value[i].name == Some(m.name.GetOr(m.username)) && r.value[i].status.None?
    ensures var r := RestoreMembers(current, upload, user, merge);
      r.Success? && merge ==>
        forall i :: 0 <= i < |r.value| ==> MergedEntry(current, UploadedList(upload, user).items, r.value[i].username) == Some(r.value[i])
  {
    if UploadedList(upload, user).MembersList? {
      MergeMembersSpec(current, UploadedList(upload, user).items);
    }
  }

  /** The merge loop: the current roster keyed by username, then each uploaded entry stored in turn. */
  method MergeMembersLoop(current: seq<Member>, ups: seq<Member>) returns (r: seq<Member>)
    ensures r == MergeMembers(current, ups)
  {
    var d: Ordered<Member> := [];
    var i := 0;
    while i < |current|
      invariant 0 <= i <= |current|
      invariant d == ByUsername(current[..i])
    {
      assert current[..i + 1][..i] == current[..i];
      d := Put(d, current[i].username, current[i]);
      i := i + 1;
    }
    assert current[..i] == current;
    var j := 0;
    while j < |ups|
      invariant 0 <= j <= |ups|
      invariant d == PutAll(ByUsername(current), ups[..j])
    {
      assert ups[..j + 1][..j] == ups[..j];
      d := Put(d, ups[j].username, Restored(ups[j]));
      j := j + 1;
    }
    assert ups[..j] == ups;
    r := Values(d);
  }

  // ---------------------------------------------------------------------
  // History restore
  // ---------------------------------------------------------------------

  /** What the upload holds under the chosen key: an object username -> snapshots, or something else. */
  datatype HistoryValue = Object(members: Ordered<seq<HistoryDocs.Doc>>) | NotAnObject

  /** `uploaded.get(user, uploaded.get("history", {}))` */
  function Incoming(upload: map<string, HistoryValue>, user: string): HistoryValue {
    if user in upload then upload[user]
    else if "history" in upload then upload["history"]
    else Object([])
  }

  /** `s.get("week_start")` */
  function WeekValue(s: HistoryDocs.Doc): HistoryDocs.Value {
    if "week_start" in s then s["week_start"] else HistoryDocs.Null
  }

  /** `{s["week_start"] for s in snaps if "week_start" in s}` */
  function ExistingWeeks(snaps: seq<HistoryDocs.Doc>): set<HistoryDocs.Value> {
    set i | 0 <= i < |snaps| && "week_start" in snaps[i] :: snaps[i]["week_start"]
  }

  /** An uploaded snapshot is appended when its week is not among the existing ones. */
  function IsNew(weeks: set<HistoryDocs.Value>): HistoryDocs.Doc -> bool {
    (s: HistoryDocs.Doc) => WeekValue(s) !in weeks
  }

  /** One member's merge: the stored list, then the uploaded snapshots of weeks it lacked. */
  function MergeMember(cur: seq<HistoryDocs.Doc>, snaps: seq<HistoryDocs.Doc>): seq<HistoryDocs.Doc> {
    cur + PySeq.Filter(snaps, IsNew(ExistingWeeks(cur)))
  }

  /** The merge loop over the uploaded object, `setdefault` and append. */
  function MergeTeam(cur: Ordered<seq<HistoryDocs.Doc>>, incoming: Ordered<seq<HistoryDocs.Doc>>): Ordered<seq<HistoryDocs.Doc>> {
    if incoming == [] then cur
    else
      var d := MergeTeam(cur, incoming[..|incoming| - 1]);
      var last := incoming[|incoming| - 1];
      Put(d, last.0, MergeMember(Lookup(d, last.0).GetOr([]), last.1))
  }

  /** The history half of the restore: the new history document, or the error it raises. */
  function RestoreHistory(current: HistoryDocs.History, upload: map<string, HistoryValue>, user: string, merge: bool): Result<HistoryDocs.History> {
    match Incoming(upload, user)
    case NotAnObject => Failure("History JSON must contain an object under your username.")
    case Object(incoming) =>
      Success(Put(current, user, if merge then MergeTeam(Lookup(current, user).GetOr([]), incoming) else incoming))
  }

  /** No two snapshots of a list that carry a week carry the same one. */
  ghost predicate UniqueDocWeeks(snaps: seq<HistoryDocs.Doc>) {
    forall i, j :: 0 <= i < j < |snaps| && "week_start" in snaps[i] && "week_start" in snaps[j] ==>
      snaps[i]["week_start"] != snaps[j]["week_start"]
  }

  lemma {:induction false} FilterUniqueWeeks(snaps: seq<HistoryDocs.Doc>, p: HistoryDocs.Doc -> bool)
    requires UniqueDocWeeks(snaps)
    ensures UniqueDocWeeks(PySeq.Filter(snaps, p))
  {
    if snaps != [] {
      var init := snaps[..|snaps| - 1];
      var last := snaps[|snaps| - 1];
      assert UniqueDocWeeks(init) by {
        assert forall i :: 0 <= i < |init| ==> init[i] == snaps[i];
      }
      FilterUniqueWeeks(init, p);
      var f := PySeq.Filter(init, p);
      if p(last) {
        forall i, j | 0 <= i < j < |f + [last]| && "week_start" in (f + [last])[i] && "week_start" in (f + [last])[j]
          ensures (f + [last])[i]["week_start"] != (f + [last])[j]["week_start"]
        {
          if j == |f| {
            assert f[i] in init;
            var k :| 0 <= k < |init| && init[k] == f[i];
            assert snaps[k] == f[i];
          } else {
            assert (f + [last])[i] == f[i] && (f + [last])[j] == f[j];
          }
        }
      }
    }
  }

  /**
   * One member's merge keeps the stored list as its prefix, appends exactly
   * the uploaded snapshots whose week the stored list lacked, in upload
   * order, and keeps weeks unique when the upload's weeks are unique.
   */
  lemma MergeMemberSpec(cur: seq<HistoryDocs.Doc>, snaps: seq<HistoryDocs.Doc>)
    ensures var r := MergeMember(cur, snaps);
      |cur| <= |r| <= |cur| + |snaps| && r[..|cur|] == cur
    ensures var r := MergeMember(cur, snaps);
      forall s :: s in r[|cur|..] <==> s in snaps && WeekValue(s) !in ExistingWeeks(cur)
    ensures PySeq.Subsequence(MergeMember(cur, snaps)[|cur|..], snaps)
    ensures UniqueDocWeeks(cur) && UniqueDocWeeks(snaps) ==> UniqueDocWeeks(MergeMember(cur, snaps))
  {
    var f := PySeq.Filter(snaps, IsNew(ExistingWeeks(cur)));
    var r := MergeMember(cur, snaps);
    assert r[..|cur|] == cur && r[|cur|..] == f;
    PySeq.FilterSubsequence(snaps, IsNew(ExistingWeeks(cur)));
    if UniqueDocWeeks(cur) && UniqueDocWeeks(snaps) {
      FilterUniqueWeeks(snaps, IsNew(ExistingWeeks(cur)));
      forall i, j | 0 <= i < j < |r| && "week_start" in r[i] && "week_start" in r[j]
        ensures r[i]["week_start"] != r[j]["week_start"]
      {
        if j < |cur| {
          assert r[i] == cur[i] && r[j] == cur[j];
        } else if i < |cur| {
          assert r[i] == cur[i] && r[j] == f[j - |cur|];
          assert f[j - |cur|] in f;
          assert cur[i]["week_start"] in ExistingWeeks(cur);
        } else {
          assert r[i] == f[i - |cur|] && r[j] == f[j - |cur|];
        }
      }
    }
  }

  /**
   * The existing weeks are read once per member, before appending: two
   * uploaded snapshots of the same new week are both appended.
   */
  lemma MergeMemberKeepsRepeatedUploadWeeks()
    ensures var s: HistoryDocs.Doc := map["week_start" := HistoryDocs.Str("2025-01-06")];
      MergeMember([], [s, s]) == [s, s] && !UniqueDocWeeks(MergeMember([], [s, s]))
  {
    var s: HistoryDocs.Doc := map["week_start" := HistoryDocs.Str("2025-01-06")];
    assert ExistingWeeks([]) == {};
    assert [s, s][..1] == [s];
    assert [s][..0] == [];
    assert MergeMember([], [s, s]) == [s, s];
    assert (MergeMember([], [s, s]))[0]["week_start"] == (MergeMember([], [s, s]))[1]["week_start"];
  }

  /**
   * Merging an uploaded team: the usernames become those stored plus those
   * uploaded; an uploaded username's list is its stored list (or none)
   * merged with its uploaded snapshots; every other stored list is untouched.
   */
  lemma MergeTeamSpec(cur: Ordered<seq<HistoryDocs.Doc>>, incoming: Ordered<seq<HistoryDocs.Doc>>)
    requires DistinctKeys(cur) && DistinctKeys(incoming)
    ensures DistinctKeys(MergeTeam(cur, incoming))
    ensures Keys(MergeTeam(cur, incoming)) == Keys(cur) + Keys(incoming)
    ensures forall u :: u in Keys(incoming) ==>
      Lookup(MergeTeam(cur, incoming), u) == Some(MergeMember(Lookup(cur, u).GetOr([]), LastValue(incoming, u)))
    ensures forall u :: u !in Keys(incoming) ==> Lookup(MergeTeam(cur, incoming), u) == Lookup(cur, u)
  {
    MergeTeamKeys(cur, incoming);
    forall u ensures Lookup(MergeTeam(cur, incoming), u) == MergedTeamEntry(cur, incoming, u) {
      MergeTeamLookup(cur, incoming, u);
    }
  }

  /** What the merged team holds for u: the merged list when u was uploaded, else the stored one. */
  function MergedTeamEntry(cur: Ordered<seq<HistoryDocs.Doc>>, incoming: Ordered<seq<HistoryDocs.Doc>>, u: string): Option<seq<HistoryDocs.Doc>> {
    if u in Keys(incoming) then Some(MergeMember(Lookup(cur, u).GetOr([]), LastValue(incoming, u))) else Lookup(cur, u)
  }

  lemma {:induction false} MergeTeamKeys(cur: Ordered<seq<HistoryDocs.Doc>>, incoming: Ordered<seq<HistoryDocs.Doc>>)
    requires DistinctKeys(cur)
    ensures DistinctKeys(MergeTeam(cur, incoming))
    ensures Keys(MergeTeam(cur, incoming)) == Keys(cur) + Keys(incoming)
  {
    if incoming != [] {
      var init := incoming[..|incoming| - 1];
      var last := incoming[|incoming| - 1];
      MergeTeamKeys(cur, init);
      var d := MergeTeam(cur, init);
      PutKeys(d, last.0, MergeMember(Lookup(d, last.0).GetOr([]), last.1));
      KeysAppend(init, last);
      assert incoming == init + [last];
    }
  }

  lemma {:induction false} MergeTeamLookup(cur: Ordered<seq<HistoryDocs.Doc>>, incoming: Ordered<seq<HistoryDocs.Doc>>, w: string)
    requires DistinctKeys(cur) && DistinctKeys(incoming)
    ensures Lookup(MergeTeam(cur, incoming), w) == MergedTeamEntry(cur, incoming, w)
  {
    if incoming != [] {
      var init := incoming[..|incoming| - 1];
      var last := incoming[|incoming| - 1];
      assert incoming == init + [last];
      KeysAppend(init, last);
      assert DistinctKeys(init) by {
        assert forall i :: 0 <= i < |init| ==> init[i] == incoming[i];
      }
      assert last.0 !in Keys(init);
      MergeTeamKeys(cur, init);
      var d := MergeTeam(cur, init);
      PutSpec(d, last.0, MergeMember(Lookup(d, last.0).GetOr([]), last.1));
      if w == last.0 {
        MergeTeamLookup(cur, init, w);
        assert LastValue(incoming, w) == last.1;
      } else {
        MergeTeamLookup(cur, init, w);
        if w in Keys(init) {
          LastValueInit(incoming, w);
        }
      }
    }
  }

  /** Merge mode never removes or alters a stored snapshot: each stored list is a prefix of its merged list. */
  lemma MergeNeverLosesSnapshots(cur: Ordered<seq<HistoryDocs.Doc>>, incoming: Ordered<seq<HistoryDocs.Doc>>)
    requires DistinctKeys(cur) && DistinctKeys(incoming)
    ensures forall u :: u in Keys(cur) ==>
      u in Keys(MergeTeam(cur, incoming)) && LastValue(cur, u) <= LastValue(MergeTeam(cur, incoming), u)
  {
    MergeTeamSpec(cur, incoming);
    forall u | u in Keys(cur)
      ensures u in Keys(MergeTeam(cur, incoming)) && LastValue(cur, u) <= LastValue(MergeTeam(cur, incoming), u)
    {
      if u in Keys(incoming) {
        MergeMemberSpec(LastValue(cur, u), LastValue(incoming, u));
      }
    }
  }

  /**
   * The history restore fails iff the upload has no object under the chosen
   * key; otherwise only the user's entry changes (added if missing): replace
   * mode puts the uploaded object there, merge mode the merged team.
   */
  lemma RestoreHistorySpec(current: HistoryDocs.History, upload: map<string, HistoryValue>, user: string, merge: bool)
    requires DistinctKeys(current)
    ensures RestoreHistory(current, upload, user, merge).Failure? <==> Incoming(upload, user).NotAnObject?
    ensures var r := RestoreHistory(current, upload, user, merge);
      r.Success? ==> DistinctKeys(r.value) && Keys(r.value) == Keys(current) + {user}
    ensures var r := RestoreHistory(current, upload, user, merge);
      r.Success? ==> forall o :: o != user ==> Lookup(r.value, o) == Lookup(current, o)
    ensures var r := RestoreHistory(current, upload, user, merge);
      r.Success? && !merge ==> Lookup(r.value, user) == Some(Incoming(upload, user).members)
    ensures var r := RestoreHistory(current, upload, user, merge);
      r.Success? && merge ==>
        Lookup(r.value, user) == Some(MergeTeam(Lookup(current, user).GetOr([]), Incoming(upload, user).members))
  {
    match Incoming(upload, user)
    case NotAnObject =>
    case Object(incoming) =>
      var team := if merge then MergeTeam(Lookup(current, user).GetOr([]), incoming) else incoming;
      PutSpec(current, user, team);
  }

  /** The inner loop for one username: the stored weeks read once, then each snapshot of a new week appended. */
  method AppendNewWeeks(stored: seq<HistoryDocs.Doc>, snaps: seq<HistoryDocs.Doc>) returns (list: seq<HistoryDocs.Doc>)
    ensures list == MergeMember(stored, snaps)
  {
    list := stored;
    var existing := ExistingWeeks(stored);
    var j := 0;
    while j < |snaps|
      invariant 0 <= j <= |snaps|
      invariant list == stored + PySeq.Filter(snaps[..j], IsNew(existing))
    {
      assert snaps[..j + 1][..j] == snaps[..j];
      if WeekValue(snaps[j]) !in existing {
        list := list + [snaps[j]];
      }
      j := j + 1;
    }
    assert snaps[..j] == snaps;
  }

  /** The merge loop over the uploaded usernames, each merged into its stored list in turn. */
  method MergeTeamLoop(cur: Ordered<seq<HistoryDocs.Doc>>, incoming: Ordered<seq<HistoryDocs.Doc>>)
    returns (r: Ordered<seq<HistoryDocs.Doc>>)
    ensures r == MergeTeam(cur, incoming)
  {
    r := cur;
    var k := 0;
    while k < |incoming|
      invariant 0 <= k <= |incoming|
      invariant r == MergeTeam(cur, incoming[..k])
    {
      assert incoming[..k + 1][..k] == incoming[..k];
      var uname, snaps := incoming[k].0, incoming[k].1;
      var list := AppendNewWeeks(Lookup(r, uname).GetOr([]), snaps);
      r := Put(r, uname, list);
      k := k + 1;
    }
    assert incoming[..k] == incoming;
  }

  // ---------------------------------------------------------------------
  // The restore button
  // ---------------------------------------------------------------------

  /** The members store after the members half: the user's roster replaced, or the error. */
  function MembersStep(members: Ordered<seq<Member>>, user: string, upload: Option<map<string, MembersValue>>, merge: bool): Result<Ordered<seq<Member>>> {
    if upload.None? then Success(members)
    else
      match RestoreMembers(Lookup(members, user).GetOr([]), upload.value, user, merge)
      case Failure(e) => Failure(e)
      case Success(roster) => Success(Put(members, user, roster))
  }

  /** The history after the history half, or the error. */
  function HistoryStep(history: HistoryDocs.History, user: string, upload: Option<map<string, HistoryValue>>, merge: bool): Result<HistoryDocs.History> {
    if upload.None? then Success(history) else RestoreHistory(history, upload.value, user, merge)
  }

  /** The stored roster (owner -> members) and history (owner -> username -> snapshots). */
  class Store {
    var members: Ordered<seq<Member>>
    var history: HistoryDocs.History

    constructor (members: Ordered<seq<Member>>, history: HistoryDocs.History)
      ensures this.members == members && this.history == history
    {
      this.members := members;
      this.history := history;
    }

    /**
     * The restore button: the members upload first, saved at once, then the
     * history upload. The first error stops the restore and is reported; a
     * failing history upload leaves the restored roster saved.
     */
    method Restore(user: string, membersUpload: Option<map<string, MembersValue>>,
                   historyUpload: Option<map<string, HistoryValue>>, merge: bool)
      returns (error: Option<string>)
      modifies this
      ensures var m := MembersStep(old(members), user, membersUpload, merge);
        m.Failure? ==> error == Some(m.error) && members == old(members) && history == old(history)
      ensures var m := MembersStep(old(members), user, membersUpload, merge);
        var h := HistoryStep(old(history), user, historyUpload, merge);
        m.Success? ==> (members == m.value &&
          (h.Failure? ==> error == Some(h.error) && history == old(history)) &&
          (h.Success? ==> error == None && history == h.value))
    {
      if membersUpload.Some? {
        var current := Lookup(members, user).GetOr([]);
        var uploaded := UploadedList(membersUpload.value, user);
        if uploaded.NotAList? {
          return Some("Members JSON must contain a list under your username.");
        }
        var roster;
        if merge {
          roster := MergeMembersLoop(current, uploaded.items);
        } else {
          roster := ReplaceMembers(uploaded.items);
        }
        members := Put(members, user, roster);
      }
      if historyUpload.Some? {
        var incoming := Incoming(historyUpload.value, user);
        if incoming.NotAnObject? {
          return Some("History JSON must contain an object under your username.");
        }
        var team;
        if merge {
          team := MergeTeamLoop(Lookup(history, user).GetOr([]), incoming.members);
        } else {
          team := incoming.members;
        }
        history := Put(history, user, team);
      }
      error := None;
    }
  }
}
