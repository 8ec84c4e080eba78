/**
 * The analytics endpoints of the API server: recording this week's snapshots,
 * last-N-week trends, week-over-week deltas with ranks, the forward-filled
 * weekly series, and the snapshot-gain fallback of the accepted trend.
 */
module Analytics {
  import opened Wrappers
  import opened Dates
  import opened Records
  import opened Sorting
  import opened PySeq
  import opened HistoryLedger

  // ---------------------------------------------------------------------
  // record_snapshot
  // ---------------------------------------------------------------------

  /** The record `record_snapshot` writes: per-difficulty counts are the first matching entries. */
  function FetchedSnapshot(u: string, p: Profile, week: Day): (s: Snapshot)
    ensures s.member == u && s.week == week && s.totalSolved == p.totalSolved
    ensures s.easy == FirstCount(p.submissions, "Easy")
    ensures s.medium == FirstCount(p.submissions, "Medium")
    ensures s.hard == FirstCount(p.submissions, "Hard")
  {
    Snapshot(week, u, p.totalSolved,
             FirstCount(p.submissions, "Easy"), FirstCount(p.submissions, "Medium"), FirstCount(p.submissions, "Hard"))
  }

  /** The snapshots for the roster members whose fetch succeeds, in roster order. */
  function FetchedSnapshots(roster: seq<Member>, fetch: Fetch, week: Day): (snaps: seq<Snapshot>)
    ensures |snaps| <= |roster|
    ensures forall k :: 0 <= k < |snaps| ==> snaps[k].member in fetch && snaps[k].week == week
    ensures forall k :: 0 <= k < |snaps| ==> snaps[k] == FetchedSnapshot(snaps[k].member, fetch[snaps[k].member], week)
  {
    if roster == [] then []
    else
      var init := FetchedSnapshots(roster[..|roster| - 1], fetch, week);
      var u := roster[|roster| - 1].username;
      if u in fetch then init + [FetchedSnapshot(u, fetch[u], week)] else init
  }

  /** The snapshot of each of `ms`, all of whose fetches succeeded. */
  function RosterSnapshots(ms: seq<Member>, fetch: Fetch, week: Day): (snaps: seq<Snapshot>)
    requires forall k :: 0 <= k < |ms| ==> ms[k].username in fetch
    ensures |snaps| == |ms|
    ensures forall k :: 0 <= k < |ms| ==> snaps[k] == FetchedSnapshot(ms[k].username, fetch[ms[k].username], week)
  {
    seq(|ms|, k requires 0 <= k < |ms| => FetchedSnapshot(ms[k].username, fetch[ms[k].username], week))
  }

  /**
   * The `for member in members` loop keeps exactly the members whose fetch
   * succeeded, in roster order: the snapshots are those of the roster
   * filtered by `fetched`, and that filtered roster is a subsequence of it.
   */
  lemma {:induction false} FetchedSnapshotsInOrder(roster: seq<Member>, fetch: Fetch, week: Day, fetched: Member -> bool)
    requires forall m :: fetched(m) == (m.username in fetch)
    ensures forall k :: 0 <= k < |Filter(roster, fetched)| ==> Filter(roster, fetched)[k].username in fetch
    ensures FetchedSnapshots(roster, fetch, week) == RosterSnapshots(Filter(roster, fetched), fetch, week)
    ensures Subsequence(Filter(roster, fetched), roster)
  {
    FilterSubsequence(roster, fetched);
    var f := Filter(roster, fetched);
    assert forall k :: 0 <= k < |f| ==> f[k] in f;
    if roster != [] {
      var init := roster[..|roster| - 1];
      var x := roster[|roster| - 1];
      FetchedSnapshotsInOrder(init, fetch, week, fetched);
      var fi := Filter(init, fetched);
      assert forall k :: 0 <= k < |fi| ==> fi[k] in fi;
      if fetched(x) {
        assert f == fi + [x];
        RosterSnapshotsAppend(fi, x, fetch, week);
      } else {
        assert f == fi;
      }
    }
  }

  lemma RosterSnapshotsAppend(ms: seq<Member>, x: Member, fetch: Fetch, week: Day)
    requires forall k :: 0 <= k < |ms| ==> ms[k].username in fetch
    requires x.username in fetch
    ensures RosterSnapshots(ms + [x], fetch, week) ==
              RosterSnapshots(ms, fetch, week) + [FetchedSnapshot(x.username, fetch[x.username], week)]
  {
  }

  /** Every roster member whose fetch succeeded has its snapshot among them. */
  lemma {:induction false} FetchedSnapshotsCover(roster: seq<Member>, fetch: Fetch, week: Day)
    ensures forall k :: 0 <= k < |roster| && roster[k].username in fetch ==>
              FetchedSnapshot(roster[k].username, fetch[roster[k].username], week) in FetchedSnapshots(roster, fetch, week)
  {
    if roster != [] {
      var init := roster[..|roster| - 1];
      FetchedSnapshotsCover(init, fetch, week);
      assert forall k :: 0 <= k < |init| ==> roster[k] == init[k];
    }
  }

  /** The two JSON documents the API server reads and writes. */
  class AnalyticsStore {
    var members: map<string, seq<Member>>
    var history: History

    constructor(members0: map<string, seq<Member>>, history0: History)
      ensures members == members0 && history == history0
    {
      members := members0;
      history := history0;
    }

    /** `all_members.get(owner, [])` */
    function RosterOf(owner: string): seq<Member>
      reads this
    {
      if owner in members then members[owner] else []
    }

    /**
     * Records this week's snapshot for every roster member whose profile
     * fetch succeeds and whose week is not yet recorded. With an empty
     * roster nothing is written and the count is 0; otherwise the document
     * is written and the count is the number of snapshots appended.
     */
    method RecordSnapshot(owner: string, fetch: Fetch, today: Day) returns (count: nat, week: Option<Day>)
      modifies this
      ensures members == old(members)
      ensures old(RosterOf(owner)) == [] ==> count == 0 && week == None && history == old(history)
      ensures old(RosterOf(owner)) != [] ==>
                var snaps := FetchedSnapshots(old(RosterOf(owner)), fetch, WeekStart(today));
                && week == Some(WeekStart(today))
                && history == old(history)[owner := AppendAll(TeamOf(old(history), owner), snaps)]
                && count == Added(TeamOf(old(history), owner), snaps)
    {
      var roster := RosterOf(owner);
      if roster == [] {
        return 0, None;
      }
      var ws := today - Weekday(today);
      week := Some(ws);
      var mh;
      mh, count := AppendFetched(TeamOf(history, owner), roster, fetch, ws);
      history := history[owner := mh];
    }
  }

  /** The loop over the roster: each fetched member's snapshot appended unless its week is there. */
  method AppendFetched(start: MemberHistory, roster: seq<Member>, fetch: Fetch, ws: Day) returns (mh: MemberHistory, count: nat)
    ensures mh == AppendAll(start, FetchedSnapshots(roster, fetch, ws))
    ensures count == Added(start, FetchedSnapshots(roster, fetch, ws))
  {
    mh := start;
    count := 0;
    ghost var snaps: seq<Snapshot> := [];
    var i := 0;
    while i < |roster|
      invariant 0 <= i <= |roster|
      invariant snaps == FetchedSnapshots(roster[..i], fetch, ws)
      invariant mh == AppendAll(start, snaps) && count == Added(start, snaps)
    {
      var u := roster[i].username;
      FetchedStep(roster, fetch, ws, i);
      if u in fetch {
        var l := SnapshotsOf(mh, u);
        var s := FetchedSnapshot(u, fetch[u], ws);
        AppendStep(start, snaps, s);
        if !HasWeek(l, ws) {
          mh := mh[u := l + [s]];
          count := count + 1;
        }
        snaps := snaps + [s];
      }
      i := i + 1;
    }
    assert roster[..|roster|] == roster;
  }

  lemma FetchedStep(roster: seq<Member>, fetch: Fetch, ws: Day, i: int)
    requires 0 <= i < |roster|
    ensures var u := roster[i].username;
      u in fetch ==>
        FetchedSnapshots(roster[..i + 1], fetch, ws) == FetchedSnapshots(roster[..i], fetch, ws) + [FetchedSnapshot(u, fetch[u], ws)]
    ensures roster[i].username !in fetch ==> FetchedSnapshots(roster[..i + 1], fetch, ws) == FetchedSnapshots(roster[..i], fetch, ws)
  {
    assert roster[..i + 1][..i] == roster[..i];
  }

  lemma AppendStep(start: MemberHistory, snaps: seq<Snapshot>, s: Snapshot)
    ensures AppendAll(start, snaps + [s]) == AppendIfAbsent(AppendAll(start, snaps), s)
    ensures Added(start, snaps + [s])
      == Added(start, snaps) + (if HasWeek(SnapshotsOf(AppendAll(start, snaps), s.member), s.week) then 0 else 1)
  {
    assert (snaps + [s])[..|snaps|] == snaps;
  }

  /**
   * A repeated `record_snapshot` in the same week appends nothing, and the
   * per-(member, week) uniqueness of the ledger is kept.
   */
  lemma RecordSnapshotTwice(h: History, owner: string, roster: seq<Member>, fetch: Fetch, today: Day)
    requires LedgerValid(TeamOf(h, owner))
    ensures var snaps := FetchedSnapshots(roster, fetch, WeekStart(today));
            var once := AppendAll(TeamOf(h, owner), snaps);
            && LedgerValid(once)
            && Added(once, snaps) == 0
            && AppendAll(once, snaps) == once
  {
    var snaps := FetchedSnapshots(roster, fetch, WeekStart(today));
    AppendAllKeepsLedgerValid(TeamOf(h, owner), snaps);
    AppendAllIdempotent(TeamOf(h, owner), snaps);
  }

  // ---------------------------------------------------------------------
  // get_trends
  // ---------------------------------------------------------------------

  /**
   * `sorted(snaps, key=week)[-weeks:]`: for weeks >= 1 the `weeks` most recent
   * snapshots in ascending week order; for weeks == 0 all of them. Every
   * snapshot left out is no later than every snapshot kept.
   */
  function RecentSnapshots(snaps: seq<Snapshot>, weeks: int): (r: seq<Snapshot>)
    ensures forall i, j :: 0 <= i < j < |r| ==> r[i].week <= r[j].week
    ensures multiset(r) <= multiset(snaps)
    ensures weeks >= 1 ==> |r| == (if weeks < |snaps| then weeks else |snaps|)
    ensures weeks == 0 ==> multiset(r) == multiset(snaps)
    ensures forall x, j :: x in multiset(snaps) - multiset(r) && 0 <= j < |r| ==> x.week <= r[j].week
  {
    var sorted := SortByWeek(snaps);
    var r := Last(sorted, weeks);
    DroppedNoLater(sorted, r);
    r
  }

  /** Cutting a suffix off a week-sorted list leaves behind only snapshots no later than those kept. */
  lemma DroppedNoLater(sorted: seq<Snapshot>, r: seq<Snapshot>)
    requires forall i, j :: 0 <= i < j < |sorted| ==> sorted[i].week <= sorted[j].week
    requires |r| <= |sorted| && r == sorted[|sorted| - |r|..]
    ensures multiset(r) <= multiset(sorted)
    ensures forall x, j :: x in multiset(sorted) - multiset(r) && 0 <= j < |r| ==> x.week <= r[j].week
  {
    var k := |sorted| - |r|;
    assert sorted == sorted[..k] + r;
    assert multiset(sorted) == multiset(sorted[..k]) + multiset(r);
    forall x, j | x in multiset(sorted) - multiset(r) && 0 <= j < |r| ensures x.week <= r[j].week {
      assert x in sorted[..k];
      var i :| 0 <= i < k && sorted[i] == x;
      assert r[j] == sorted[k + j];
    }
  }

  /** One point of a member's trend line. */
  datatype TrendPoint = TrendPoint(week: Day, total: int, easy: int, medium: int, hard: int)

  function Point(s: Snapshot): (p: TrendPoint)
    ensures p.week == s.week && p.total == s.totalSolved
  {
    TrendPoint(s.week, s.totalSolved, s.easy, s.medium, s.hard)
  }

  function Points(snaps: seq<Snapshot>): (ps: seq<TrendPoint>)
    ensures |ps| == |snaps| && forall k :: 0 <= k < |snaps| ==> ps[k] == Point(snaps[k])
  {
    seq(|snaps|, k requires 0 <= k < |snaps| => Point(snaps[k]))
  }

  /** The weeks of a list of snapshots, in order. */
  function WeeksOf(snaps: seq<Snapshot>): (ws: seq<Day>)
    ensures |ws| == |snaps| && forall k :: 0 <= k < |snaps| ==> ws[k] == snaps[k].week
  {
    seq(|snaps|, k requires 0 <= k < |snaps| => snaps[k].week)
  }

  /** Each member's kept snapshots, member by member. */
  function KeptLists(h: Ordered<seq<Snapshot>>, weeks: int): (kept: seq<seq<Snapshot>>)
    ensures |kept| == |h| && forall i :: 0 <= i < |h| ==> kept[i] == RecentSnapshots(h[i].1, weeks)
  {
    seq(|h|, i requires 0 <= i < |h| => RecentSnapshots(h[i].1, weeks))
  }

  /** The weeks of all the lists, list by list (`all_weeks` before deduplication). */
  function AllWeeks(lists: seq<seq<Snapshot>>): (ws: seq<Day>)
    ensures forall w :: w in ws <==> exists i :: 0 <= i < |lists| && w in WeeksOf(lists[i])
  {
    if lists == [] then []
    else
      var init := lists[..|lists| - 1];
      assert forall i :: 0 <= i < |init| ==> init[i] == lists[i];
      AllWeeks(init) + WeeksOf(lists[|lists| - 1])
  }

  /** The trends response: the week axis and each member's recent points. */
  datatype Trends = Trends(weeks: seq<Day>, members: map<string, seq<TrendPoint>>)

  /** `sorted(set(ws))[-weeks:]`: the most recent distinct weeks, ascending. */
  function RecentWeeks(ws: seq<Day>, weeks: int): (r: seq<Day>)
    ensures forall i, j :: 0 <= i < j < |r| ==> r[i] < r[j]
    ensures weeks >= 1 ==> |r| == if weeks < |set w | w in ws| then weeks else |set w | w in ws|
    ensures weeks == 0 ==> forall w :: w in ws ==> w in r
    ensures forall w :: w in r ==> w in ws
    ensures forall w, j :: w in ws && w !in r && 0 <= j < |r| ==> w < r[j]
  {
    var all := SortedDistinct(ws);
    var r := Last(all, weeks);
    SortedDistinctSize(ws);
    SuffixAbove(all, r);
    r
  }

  /** In an ascending list, a suffix holds values above everything cut off before it. */
  lemma SuffixAbove(all: seq<Day>, r: seq<Day>)
    requires forall i, j :: 0 <= i < j < |all| ==> all[i] < all[j]
    requires |r| <= |all| && r == all[|all| - |r|..]
    ensures forall w, j :: w in all && w !in r && 0 <= j < |r| ==> w < r[j]
  {
    var k := |all| - |r|;
    forall w, j | w in all && w !in r && 0 <= j < |r| ensures w < r[j] {
      var i :| 0 <= i < |all| && all[i] == w;
      assert all[k + j] == r[j];
    }
  }

  /** `get_trends(weeks)` over one owner's history (an ordered dict member -> snapshots). */
  function GetTrends(h: Ordered<seq<Snapshot>>, weeks: int): (t: Trends)
    ensures h == [] ==> t.weeks == [] && t.members == map[]
    ensures t.members.Keys == Keys(h)
    ensures forall i, j :: 0 <= i < j < |t.weeks| ==> t.weeks[i] < t.weeks[j]
    ensures weeks >= 1 ==>
      |t.weeks| == (if weeks < |set w | w in AllWeeks(KeptLists(h, weeks))| then weeks else |set w | w in AllWeeks(KeptLists(h, weeks))|)
    ensures weeks == 0 ==> forall w :: w in AllWeeks(KeptLists(h, weeks)) ==> w in t.weeks
    ensures forall w :: w in t.weeks ==> w in AllWeeks(KeptLists(h, weeks))
    ensures forall w, j :: w in AllWeeks(KeptLists(h, weeks)) && w !in t.weeks && 0 <= j < |t.weeks| ==> w < t.weeks[j]
  {
    Trends(RecentWeeks(AllWeeks(KeptLists(h, weeks)), weeks), TrendLines(h, weeks))
  }

  /** The `members` part of the trends response: each member's recent points. */
  function TrendLines(h: Ordered<seq<Snapshot>>, weeks: int): (m: map<string, seq<TrendPoint>>)
    ensures m.Keys == Keys(h)
    ensures DistinctKeys(h) ==> forall i :: 0 <= i < |h| ==> m[h[i].0] == Points(RecentSnapshots(h[i].1, weeks))
  {
    map u | u in Keys(h) :: Points(RecentSnapshots(LastValue(h, u), weeks))
  }

  // ---------------------------------------------------------------------
  // get_week_over_week
  // ---------------------------------------------------------------------

  /** The total of the last snapshot of `snaps` in `week`, or None when the week is absent. */
  function TotalInWeek(snaps: seq<Snapshot>, week: Day): (t: Option<int>)
    ensures t.None? <==> !HasWeek(snaps, week)
    ensures t.Some? ==> exists i :: 0 <= i < |snaps| && snaps[i].week == week && t.value == snaps[i].totalSolved
                                    && forall j :: i < j < |snaps| ==> snaps[j].week != week
  {
    if snaps == [] then None
    else if snaps[|snaps| - 1].week == week then Some(snaps[|snaps| - 1].totalSolved)
    else
      var init := snaps[..|snaps| - 1];
      assert forall i :: 0 <= i < |init| ==> init[i] == snaps[i];
      TotalInWeek(init, week)
  }

  /** `this_week_data` / `last_week_data`: the members with a snapshot in `week`, in history order, with its total. */
  function WeekData(h: Ordered<seq<Snapshot>>, week: Day): (d: Ordered<int>)
    ensures |d| <= |h|
  {
    if h == [] then []
    else
      var d0 := WeekData(h[..|h| - 1], week);
      var t := TotalInWeek(h[|h| - 1].1, week);
      if t.Some? then d0 + [(h[|h| - 1].0, t.value)] else d0
  }

  /** A week's data only lists members of the history. */
  lemma {:induction false} WeekDataKeysWithin(h: Ordered<seq<Snapshot>>, week: Day)
    ensures Keys(WeekData(h, week)) <= Keys(h)
  {
    if h != [] {
      var init := h[..|h| - 1];
      var x := h[|h| - 1];
      assert h == init + [x];
      WeekDataKeysWithin(init, week);
      KeysAppend(init, x);
      var t := TotalInWeek(x.1, week);
      if t.Some? {
        KeysAppend(WeekData(init, week), (x.0, t.value));
      }
    }
  }

  /** Each member appears at most once in a week's data. */
  lemma {:induction false} WeekDataDistinct(h: Ordered<seq<Snapshot>>, week: Day)
    requires DistinctKeys(h)
    ensures DistinctKeys(WeekData(h, week))
  {
    if h != [] {
      var init := h[..|h| - 1];
      var x := h[|h| - 1];
      assert DistinctKeys(init);
      WeekDataDistinct(init, week);
      WeekDataKeysWithin(init, week);
      var t := TotalInWeek(x.1, week);
      if t.Some? {
        DistinctKeysAppend(WeekData(init, week), (x.0, t.value));
      }
    }
  }

  /** Every member with a snapshot in the week is in that week's data. */
  lemma {:induction false} WeekDataCovers(h: Ordered<seq<Snapshot>>, week: Day)
    ensures forall i :: 0 <= i < |h| && HasWeek(h[i].1, week) ==> h[i].0 in Keys(WeekData(h, week))
  {
    if h != [] {
      var init := h[..|h| - 1];
      var x := h[|h| - 1];
      WeekDataCovers(init, week);
      var d0 := WeekData(init, week);
      var t := TotalInWeek(x.1, week);
      if t.Some? {
        KeysAppend(d0, (x.0, t.value));
      }
      forall i | 0 <= i < |h| && HasWeek(h[i].1, week) ensures h[i].0 in Keys(WeekData(h, week)) {
        if i < |init| {
          assert h[i] == init[i];
        }
      }
    }
  }

  /** Each entry of a week's data carries the total of its member's last snapshot in that week. */
  lemma {:induction false} WeekDataValues(h: Ordered<seq<Snapshot>>, week: Day)
    ensures forall k :: 0 <= k < |WeekData(h, week)| ==>
              exists i :: 0 <= i < |h| && h[i].0 == WeekData(h, week)[k].0 && TotalInWeek(h[i].1, week) == Some(WeekData(h, week)[k].1)
  {
    if h != [] {
      var init := h[..|h| - 1];
      var x := h[|h| - 1];
      WeekDataValues(init, week);
      var d0 := WeekData(init, week);
      var d := WeekData(h, week);
      var t := TotalInWeek(x.1, week);
      forall k | 0 <= k < |d| ensures exists i :: 0 <= i < |h| && h[i].0 == d[k].0 && TotalInWeek(h[i].1, week) == Some(d[k].1) {
        if k < |d0| {
          assert d[k] == d0[k];
          var i :| 0 <= i < |init| && init[i].0 == d0[k].0 && TotalInWeek(init[i].1, week) == Some(d0[k].1);
          assert h[i] == init[i];
        } else {
          assert t.Some? && d[k] == (x.0, t.value);
          assert h[|h| - 1] == x;
        }
      }
    } else {
      assert WeekData(h, week) == [];
    }
  }

  /** The items of a week's data sorted by total, highest first (stable, like `reverse=True`). */
  function RankOrder(d: Ordered<int>): (s: Ordered<int>)
    ensures multiset(s) == multiset(d) && |s| == |d|
    ensures forall i, j :: 0 <= i < j < |s| ==> s[i].1 >= s[j].1
  {
    SortDescending(d, (p: (string, int)) => p.1);
    SortBy(d, Descending((p: (string, int)) => p.1))
  }

  /** `{m: i + 1 for i, (m, _) in enumerate(s)}` */
  function RankMap(s: Ordered<int>): (m: map<string, nat>)
    ensures m.Keys == Keys(s)
    ensures forall u :: u in m ==> 1 <= m[u] <= |s|
  {
    if s == [] then map[]
    else
      KeysAppend(s[..|s| - 1], s[|s| - 1]);
      assert s == s[..|s| - 1] + [s[|s| - 1]];
      RankMap(s[..|s| - 1])[s[|s| - 1].0 := |s|]
  }

  /** Over distinct keys, the i-th key's rank is i + 1. */
  lemma {:induction false} RankMapPositions(s: Ordered<int>)
    requires DistinctKeys(s)
    ensures forall i :: 0 <= i < |s| ==> s[i].0 in RankMap(s) && RankMap(s)[s[i].0] == i + 1
  {
    if s != [] {
      var init := s[..|s| - 1];
      assert forall i :: 0 <= i < |init| ==> init[i] == s[i];
      RankMapPositions(init);
      forall i | 0 <= i < |s| ensures s[i].0 in RankMap(s) && RankMap(s)[s[i].0] == i + 1 {
        if i < |s| - 1 {
          assert s[i].0 != s[|s| - 1].0 && init[i] == s[i];
        }
      }
    }
  }

  /** A map giving the i-th of distinct keys the value i + 1 takes every value 1..n, each once. */
  lemma PositionsCover(s: Ordered<int>, m: map<string, nat>)
    requires m.Keys == Keys(s)
    requires forall i :: 0 <= i < |s| ==> s[i].0 in m && m[s[i].0] == i + 1
    ensures forall r :: 1 <= r <= |s| ==> r in m.Values
    ensures forall u, v :: u in m && v in m && u != v ==> m[u] != m[v]
  {
    forall r | 1 <= r <= |s| ensures r in m.Values {
      assert m[s[r - 1].0] == r;
    }
    forall u, v | u in m && v in m && u != v ensures m[u] != m[v] {
      var a :| 0 <= a < |s| && s[a].0 == u;
      var b :| 0 <= b < |s| && s[b].0 == v;
    }
  }

  /** The rank of each member with data in a week. */
  function Ranks(d: Ordered<int>): map<string, nat> {
    RankMap(RankOrder(d))
  }

  /** The ranked order lists the same members as the week's data. */
  lemma RankOrderKeys(d: Ordered<int>)
    requires DistinctKeys(d)
    ensures DistinctKeys(RankOrder(d)) && Keys(RankOrder(d)) == Keys(d)
  {
    var s := RankOrder(d);
    PermutationKeepsDistinctKeys(s, d);
    PermutationMembers(s, d);
    forall u | u in Keys(s) ensures u in Keys(d) {
      var i :| 0 <= i < |s| && s[i].0 == u;
      assert s[i] in d;
    }
    forall u | u in Keys(d) ensures u in Keys(s) {
      var i :| 0 <= i < |d| && d[i].0 == u;
      assert d[i] in s;
    }
  }

  /**
   * Ranks are the positions 1..n of the members with data that week, each
   * member with its own rank.
   */
  lemma RanksArePositions(d: Ordered<int>)
    requires DistinctKeys(d)
    ensures Ranks(d).Keys == Keys(d)
    ensures forall u :: u in Ranks(d) ==> 1 <= Ranks(d)[u] <= |d|
    ensures forall r :: 1 <= r <= |d| ==> r in Ranks(d).Values
    ensures forall u, v :: u in Ranks(d) && v in Ranks(d) && u != v ==> Ranks(d)[u] != Ranks(d)[v]
  {
    var s := RankOrder(d);
    RankOrderKeys(d);
    RankMapPositions(s);
    PositionsCover(s, RankMap(s));
  }

  /** A strictly higher total in the week gets a strictly better (smaller) rank. */
  lemma RanksFollowTotals(d: Ordered<int>, i: int, j: int)
    requires DistinctKeys(d) && 0 <= i < |d| && 0 <= j < |d| && d[i].1 > d[j].1
    ensures d[i].0 in Ranks(d) && d[j].0 in Ranks(d)
    ensures Ranks(d)[d[i].0] < Ranks(d)[d[j].0]
  {
    var s := RankOrder(d);
    RankOrderKeys(d);
    PermutationMembers(s, d);
    assert d[i] in s && d[j] in s;
    var a :| 0 <= a < |s| && s[a] == d[i];
    var b :| 0 <= b < |s| && s[b] == d[j];
    RankedBefore(s, a, b);
  }

  lemma RankedBefore(s: Ordered<int>, a: int, b: int)
    requires DistinctKeys(s) && 0 <= a < |s| && 0 <= b < |s| && s[a].1 > s[b].1
    requires forall i, j :: 0 <= i < j < |s| ==> s[i].1 >= s[j].1
    ensures s[a].0 in RankMap(s) && s[b].0 in RankMap(s)
    ensures RankMap(s)[s[a].0] < RankMap(s)[s[b].0]
  {
    RankMapPositions(s);
    HigherRankedFirst(s, RankMap(s), a, b);
  }

  lemma HigherRankedFirst(s: Ordered<int>, m: map<string, nat>, a: int, b: int)
    requires 0 <= a < |s| && 0 <= b < |s| && s[a].1 > s[b].1
    requires forall i, j :: 0 <= i < j < |s| ==> s[i].1 >= s[j].1
    requires forall i :: 0 <= i < |s| ==> s[i].0 in m && m[s[i].0] == i + 1
    ensures s[a].0 in m && s[b].0 in m && m[s[a].0] < m[s[b].0]
  {
  }

  /** `pct_change`: safe against a zero previous total. */
  function PctChange(previous: int, current: int): real {
    if previous > 0 then (current - previous) as real / previous as real * 100.0
    else if current > 0 then 100.0
    else 0.0
  }

  /**
   * For non-negative totals the percentage is the exact relative change when
   * there was a previous total, it is positive exactly when the total grew,
   * zero exactly when it stayed, and never below -100.
   */
  lemma PctChangeMeaning(previous: int, current: int)
    requires previous >= 0 && current >= 0
    ensures previous > 0 ==> PctChange(previous, current) * previous as real == (current - previous) as real * 100.0
    ensures PctChange(previous, current) > 0.0 <==> current > previous
    ensures PctChange(previous, current) == 0.0 <==> current == previous
    ensures PctChange(previous, current) >= -100.0
  {
    if previous > 0 {
      var p := previous as real;
      var c := current as real;
      assert PctChange(previous, current) == (c - p) / p * 100.0;
      assert (c - p) / p * 100.0 * p == (c - p) * 100.0;
      assert (c - p) / p >= -1.0;
    }
  }

  /** One row of the week-over-week table. */
  datatype WowRow = WowRow(week: Day, member: string, previous: int, current: int, change: int,
                           pct: real, rank: Option<nat>, rankDelta: int)

  /** `d.get(u)` for a plain dict. */
  function Get<V>(m: map<string, V>, u: string): (v: Option<V>)
    ensures v.Some? <==> u in m
    ensures u in m ==> v == Some(m[u])
  {
    if u in m then Some(m[u]) else None
  }

  /** The row for member u; rank_delta is last rank minus this rank when both exist, 0 otherwise. */
  function WowRowFor(week: Day, u: string, thisData: map<string, int>, lastData: map<string, int>,
                     thisRanks: map<string, nat>, lastRanks: map<string, nat>): (r: WowRow)
    ensures r.member == u && r.week == week && r.rank == Get(thisRanks, u)
    ensures r.current == Get(thisData, u).GetOr(0) && r.previous == Get(lastData, u).GetOr(0)
    ensures r.change == r.current - r.previous
    ensures r.pct == PctChange(r.previous, r.current)
    ensures u in thisRanks && u in lastRanks ==> r.rankDelta == lastRanks[u] as int - thisRanks[u] as int
    ensures u !in thisRanks || u !in lastRanks ==> r.rankDelta == 0
  {
    var current := Get(thisData, u).GetOr(0);
    var previous := Get(lastData, u).GetOr(0);
    var thisRank := Get(thisRanks, u);
    var lastRank := Get(lastRanks, u);
    var delta := if thisRank.Some? && lastRank.Some? then lastRank.value as int - thisRank.value as int else 0;
    WowRow(week, u, previous, current, current - previous, PctChange(previous, current), thisRank, delta)
  }

  /**
   * `get_week_over_week`. `members` is the iteration order of `all_members`,
   * the set of members with data in either week (Python's set order is not
   * specified, so it is a parameter holding each of them once). Each row is
   * the row of its member built from this week's and last week's data and
   * ranks; rows are sorted by current total, highest first.
   */
  function WeekOverWeek(h: Ordered<seq<Snapshot>>, today: Day, members: seq<string>): (rows: seq<WowRow>)
    requires forall i, j :: 0 <= i < j < |members| ==> members[i] != members[j]
    requires forall m :: m in members <==> m in Keys(WeekData(h, WeekStart(today))) + Keys(WeekData(h, MondayWeeksAgo(today, 1)))
    ensures h == [] ==> rows == []
    ensures |rows| == |members|
    ensures forall i, j :: 0 <= i < j < |rows| ==> rows[i].current >= rows[j].current
    ensures forall k :: 0 <= k < |rows| ==> rows[k].member in members && rows[k].week == WeekStart(today)
    ensures forall k :: 0 <= k < |members| ==> exists i :: 0 <= i < |rows| && rows[i].member == members[k]
    ensures forall k :: 0 <= k < |rows| ==>
      rows[k] == WowRowFor(WeekStart(today), rows[k].member,
                           AsMap(WeekData(h, WeekStart(today))), AsMap(WeekData(h, MondayWeeksAgo(today, 1))),
                           Ranks(WeekData(h, WeekStart(today))), Ranks(WeekData(h, MondayWeeksAgo(today, 1))))
  {
    if h == [] then
      assert WeekData(h, WeekStart(today)) == [] && WeekData(h, MondayWeeksAgo(today, 1)) == [];
      assert Keys(WeekData(h, WeekStart(today))) + Keys(WeekData(h, MondayWeeksAgo(today, 1))) == {};
      NoElements(members);
      []
    else
      var thisWeek := WeekStart(today);
      var lastWeek := MondayWeeksAgo(today, 1);
      var thisData := WeekData(h, thisWeek);
      var lastData := WeekData(h, lastWeek);
      var unsorted := UnsortedRows(thisWeek, members, AsMap(thisData), AsMap(lastData), Ranks(thisData), Ranks(lastData));
      var rows := SortByCurrent(unsorted);
      ReorderedRows(unsorted, rows, members, thisWeek, AsMap(thisData), AsMap(lastData), Ranks(thisData), Ranks(lastData));
      rows
  }

  /** Reordering one row per member keeps one row per member, each still the row built for its member. */
  lemma ReorderedRows(unsorted: seq<WowRow>, rows: seq<WowRow>, members: seq<string>, week: Day,
                      thisData: map<string, int>, lastData: map<string, int>,
                      thisRanks: map<string, nat>, lastRanks: map<string, nat>)
    requires |unsorted| == |members| && multiset(rows) == multiset(unsorted)
    requires forall k :: 0 <= k < |unsorted| ==> unsorted[k] == WowRowFor(week, members[k], thisData, lastData, thisRanks, lastRanks)
    ensures forall k :: 0 <= k < |rows| ==> rows[k].member in members
    ensures forall k :: 0 <= k < |rows| ==> rows[k] == WowRowFor(week, rows[k].member, thisData, lastData, thisRanks, lastRanks)
    ensures forall k :: 0 <= k < |members| ==> exists i :: 0 <= i < |rows| && rows[i].member == members[k]
  {
    forall k | 0 <= k < |members| ensures exists i :: 0 <= i < |rows| && rows[i].member == members[k] {
      assert unsorted[k] in multiset(rows);
    }
    forall i | 0 <= i < |rows|
      ensures rows[i].member in members
      ensures rows[i] == WowRowFor(week, rows[i].member, thisData, lastData, thisRanks, lastRanks)
    {
      assert rows[i] in multiset(unsorted);
    }
  }

  /**
   * The totals in a member's week-over-week row (the row WeekOverWeek holds
   * for that member) are those of the member's last snapshot in this week
   * and in last week, 0 where there is none.
   */
  lemma WeekOverWeekTotals(h: Ordered<seq<Snapshot>>, today: Day, i: int)
    requires DistinctKeys(h) && 0 <= i < |h|
    ensures var row := WowRowFor(WeekStart(today), h[i].0,
                                 AsMap(WeekData(h, WeekStart(today))), AsMap(WeekData(h, MondayWeeksAgo(today, 1))),
                                 Ranks(WeekData(h, WeekStart(today))), Ranks(WeekData(h, MondayWeeksAgo(today, 1))));
      row.current == TotalInWeek(h[i].1, WeekStart(today)).GetOr(0)
      && row.previous == TotalInWeek(h[i].1, MondayWeeksAgo(today, 1)).GetOr(0)
  {
    WeekTotalOf(h, WeekStart(today), i);
    WeekTotalOf(h, MondayWeeksAgo(today, 1), i);
  }

  /** Looking a member up in a week's data gives the total of its last snapshot in that week. */
  lemma WeekTotalOf(h: Ordered<seq<Snapshot>>, week: Day, i: int)
    requires DistinctKeys(h) && 0 <= i < |h|
    ensures Get(AsMap(WeekData(h, week)), h[i].0).GetOr(0) == TotalInWeek(h[i].1, week).GetOr(0)
  {
    var d := WeekData(h, week);
    var m := AsMap(d);
    var u := h[i].0;
    if u in m {
      var j :| 0 <= j < |d| && d[j].0 == u && m[u] == d[j].1;
      WeekDataValues(h, week);
      var i' :| 0 <= i' < |h| && h[i'].0 == d[j].0 && TotalInWeek(h[i'].1, week) == Some(d[j].1);
      assert i' == i;
    } else {
      WeekDataCovers(h, week);
      if HasWeek(h[i].1, week) {
        assert false;
      }
    }
  }

  /** One row per member, in the given order. */
  function UnsortedRows(week: Day, members: seq<string>, thisData: map<string, int>, lastData: map<string, int>,
                        thisRanks: map<string, nat>, lastRanks: map<string, nat>): (rows: seq<WowRow>)
    ensures |rows| == |members|
    ensures forall k :: 0 <= k < |rows| ==> rows[k] == WowRowFor(week, members[k], thisData, lastData, thisRanks, lastRanks)
  {
    seq(|members|, k requires 0 <= k < |members| => WowRowFor(week, members[k], thisData, lastData, thisRanks, lastRanks))
  }

  /** `changes.sort(key=lambda x: x["current"], reverse=True)` */
  function SortByCurrent(rows: seq<WowRow>): (r: seq<WowRow>)
    ensures |r| == |rows| && multiset(r) == multiset(rows)
    ensures forall i, j :: 0 <= i < j < |r| ==> r[i].current >= r[j].current
  {
    SortDescending(rows, (w: WowRow) => w.current);
    SortBy(rows, Descending((w: WowRow) => w.current))
  }

  // ---------------------------------------------------------------------
  // get_weekly_progress
  // ---------------------------------------------------------------------

  /** The Mondays from `weeks - 1` weeks before `endWeek` up to `endWeek`, one week apart. */
  function WeekRange(endWeek: Day, weeks: int): (ws: seq<Day>)
    ensures |ws| == (if weeks > 0 then weeks else 0)
  {
    var n := if weeks > 0 then weeks else 0;
    seq(n, k requires 0 <= k < n => endWeek - 7 * (weeks - 1) + 7 * k)
  }

  /**
   * For weeks >= 1 the axis has exactly `weeks` Mondays, ascending one week
   * apart and ending at this week's Monday.
   */
  lemma WeekRangeShape(today: Day, weeks: int)
    requires weeks >= 1
    ensures var ws := WeekRange(WeekStart(today), weeks);
            && |ws| == weeks
            && ws[weeks - 1] == WeekStart(today)
            && (forall k :: 0 <= k < |ws| ==> IsMonday(ws[k]))
            && (forall k :: 0 < k < |ws| ==> ws[k] == ws[k - 1] + 7)
  {
    var ws := WeekRange(WeekStart(today), weeks);
    forall k | 0 <= k < |ws| ensures IsMonday(ws[k]) {
      assert ws[k] == WeekStart(today) - 7 * (weeks - 1 - k);
      assert ws[k] % 7 == 0;
    }
  }

  /** The `while current <= end_week` loop that builds the week axis. */
  method WeekAxis(endWeek: Day, weeks: int) returns (ws: seq<Day>)
    ensures ws == WeekRange(endWeek, weeks)
  {
    var start := endWeek - 7 * (weeks - 1);
    var current := start;
    ws := [];
    while current <= endWeek
      invariant current == start + 7 * |ws|
      invariant |ws| <= (if weeks > 0 then weeks else 0)
      invariant forall k :: 0 <= k < |ws| ==> ws[k] == start + 7 * k
      decreases endWeek - current + 7
    {
      ws := ws + [current];
      current := current + 7;
    }
  }

  /** `{s["week_start"]: s["totalSolved"] for s in snaps}`: a later snapshot of a week overrides an earlier one. */
  function WeekTotals(snaps: seq<Snapshot>): (m: map<Day, int>)
    ensures forall w :: w in m <==> HasWeek(snaps, w)
    ensures forall w :: w in m ==> TotalInWeek(snaps, w) == Some(m[w])
  {
    if snaps == [] then map[]
    else
      var init := snaps[..|snaps| - 1];
      var s := snaps[|snaps| - 1];
      assert forall i :: 0 <= i < |init| ==> init[i] == snaps[i];
      assert forall w :: HasWeek(snaps, w) <==> HasWeek(init, w) || w == s.week;
      WeekTotals(init)[s.week := s.totalSolved]
  }

  /** The forward-filled series: a week's total if recorded, else the previous value, starting at 0. */
  function Filled(ws: seq<Day>, totals: map<Day, int>): (r: seq<int>)
    ensures |r| == |ws|
  {
    if ws == [] then []
    else
      var p := Filled(ws[..|ws| - 1], totals);
      var w := ws[|ws| - 1];
      p + [if w in totals then totals[w] else if p == [] then 0 else p[|p| - 1]]
  }

  /**
   * The filled value at position k is the total of the latest week at or
   * before k that has a snapshot, and 0 when no week of the window up to k
   * has one: snapshots before the window are never carried in.
   */
  lemma {:induction false} FilledIsLatest(ws: seq<Day>, totals: map<Day, int>, k: int, j: int)
    requires 0 <= k < |ws|
    ensures (forall i :: 0 <= i <= k ==> ws[i] !in totals) ==> Filled(ws, totals)[k] == 0
    ensures 0 <= j <= k && ws[j] in totals && (forall i :: j < i <= k ==> ws[i] !in totals)
            ==> Filled(ws, totals)[k] == totals[ws[j]]
  {
    var init := ws[..|ws| - 1];
    var p := Filled(init, totals);
    if k < |ws| - 1 {
      assert forall i :: 0 <= i <= k ==> ws[i] == init[i];
      FilledIsLatest(init, totals, k, j);
    } else if ws[k] !in totals && k > 0 {
      assert forall i :: 0 <= i <= k - 1 ==> ws[i] == init[i];
      FilledIsLatest(init, totals, k - 1, j);
    }
  }

  /** The forward-fill loop over the week axis, carrying `last_value`. */
  method FillForward(ws: seq<Day>, totals: map<Day, int>) returns (filled: seq<int>)
    ensures filled == Filled(ws, totals)
  {
    filled := [];
    var lastValue := 0;
    var i := 0;
    while i < |ws|
      invariant 0 <= i <= |ws|
      invariant filled == Filled(ws[..i], totals)
      invariant lastValue == if i == 0 then 0 else filled[i - 1]
    {
      assert ws[..i + 1][..i] == ws[..i];
      if ws[i] in totals {
        lastValue := totals[ws[i]];
      }
      filled := filled + [lastValue];
      i := i + 1;
    }
    assert ws[..|ws|] == ws;
  }

  /** `member_names.get(u, u)`: the display name of the last roster entry for u. */
  function NameOf(roster: seq<Member>, u: string): (name: string)
    ensures (forall k :: 0 <= k < |roster| ==> roster[k].username != u) ==> name == u
    ensures forall k :: 0 <= k < |roster| && roster[k].username == u && (forall j :: k < j < |roster| ==> roster[j].username != u)
              ==> name == DisplayName(roster[k])
  {
    if roster == [] then u
    else if roster[|roster| - 1].username == u then DisplayName(roster[|roster| - 1])
    else
      var init := roster[..|roster| - 1];
      assert forall k :: 0 <= k < |init| ==> init[k] == roster[k];
      NameOf(init, u)
  }

  /** One member's line in the weekly-progress response. */
  datatype Series = Series(name: string, data: seq<int>)

  /** The series of one member over the week axis. */
  function SeriesOf(roster: seq<Member>, u: string, snaps: seq<Snapshot>, ws: seq<Day>): Series {
    Series(NameOf(roster, u), Filled(ws, WeekTotals(SortByWeek(snaps))))
  }

  /**
   * `get_weekly_progress`: with no history, no weeks and no members;
   * otherwise the week axis ending at this week's Monday and, for every
   * member of the history, its forward-filled series over that axis.
   */
  method WeeklyProgress(h: Ordered<seq<Snapshot>>, roster: seq<Member>, weeks: int, today: Day)
    returns (ws: seq<Day>, series: map<string, Series>)
    requires DistinctKeys(h)
    ensures h == [] ==> ws == [] && series == map[]
    ensures h != [] ==> ws == WeekRange(WeekStart(today), weeks)
    ensures series.Keys == Keys(h)
    ensures forall i :: 0 <= i < |h| ==> series[h[i].0] == SeriesOf(roster, h[i].0, h[i].1, ws)
    ensures forall u :: u in series ==> |series[u].data| == |ws|
  {
    if h == [] {
      return [], map[];
    }
    var endWeek := today - Weekday(today);
    ws := WeekAxis(endWeek, weeks);
    series := BuildSeries(h, roster, ws);
    forall u | u in series ensures |series[u].data| == |ws| {
      var i :| 0 <= i < |h| && h[i].0 == u;
    }
  }

  /** The loop over the history's members, each given its filled series over `ws`. */
  method BuildSeries(h: Ordered<seq<Snapshot>>, roster: seq<Member>, ws: seq<Day>)
    returns (series: map<string, Series>)
    requires DistinctKeys(h)
    ensures series.Keys == Keys(h)
    ensures forall i :: 0 <= i < |h| ==> series[h[i].0] == SeriesOf(roster, h[i].0, h[i].1, ws)
  {
    ghost var f := (u: string, snaps: seq<Snapshot>) => SeriesOf(roster, u, snaps, ws);
    series := map[];
    var i := 0;
    while i < |h|
      invariant 0 <= i <= |h|
      invariant series == MapValues(h[..i], f)
    {
      var one := MemberSeries(roster, h[i].0, h[i].1, ws);
      assert h[..i + 1][..i] == h[..i];
      series := series[h[i].0 := one];
      i := i + 1;
    }
    assert h[..|h|] == h;
    MapValuesKeys(h, f);
    MapValuesLookup(h, f);
  }

  /** One member's snapshots sorted by week, totalled and filled forward over `ws`. */
  method MemberSeries(roster: seq<Member>, u: string, snaps: seq<Snapshot>, ws: seq<Day>) returns (one: Series)
    ensures one == SeriesOf(roster, u, snaps, ws)
  {
    var sorted := SortByWeek(snaps);
    var data := FillForward(ws, WeekTotals(sorted));
    one := Series(NameOf(roster, u), data);
  }


  // ---------------------------------------------------------------------
  // get_accepted_trend: the snapshot-gain fallback
  // ---------------------------------------------------------------------

  /** One point of the daily accepted trend. */
  datatype TrendRow = TrendRow(date: Day, member: string, username: string, accepted: int)

  /**
   * The gains between consecutive week-sorted snapshots, each placed on the
   * later snapshot's Monday, kept only when positive and inside [start, end].
   */
  function GainRows(s: seq<Snapshot>, name: string, u: string, start: Day, end: Day): seq<TrendRow> {
    if |s| < 2 then []
    else
      var prev := GainRows(s[..|s| - 1], name, u, start, end);
      var gain := s[|s| - 1].totalSolved - s[|s| - 2].totalSolved;
      if gain > 0 && start <= s[|s| - 1].week <= end then prev + [TrendRow(s[|s| - 1].week, name, u, gain)] else prev
  }

  /** A row the fallback may emit: a positive gain inside the window, on the week of a later snapshot. */
  ghost predicate IsGainRow(r: TrendRow, s: seq<Snapshot>, name: string, u: string, start: Day, end: Day) {
    && r.accepted > 0 && start <= r.date <= end && r.username == u && r.member == name
    && exists i :: 1 <= i < |s| && r.date == s[i].week && r.accepted == s[i].totalSolved - s[i - 1].totalSolved
  }

  /** Every fallback row is a positive gain inside the window, placed on the week of a later snapshot. */
  lemma {:induction false} GainRowsSound(s: seq<Snapshot>, name: string, u: string, start: Day, end: Day)
    ensures forall r :: r in GainRows(s, name, u, start, end) ==> IsGainRow(r, s, name, u, start, end)
  {
    if |s| >= 2 {
      var init := s[..|s| - 1];
      GainRowsSound(init, name, u, start, end);
      forall r | r in GainRows(s, name, u, start, end) ensures IsGainRow(r, s, name, u, start, end) {
        if r in GainRows(init, name, u, start, end) {
          assert IsGainRow(r, init, name, u, start, end);
          var i :| 1 <= i < |init| && r.date == init[i].week && r.accepted == init[i].totalSolved - init[i - 1].totalSolved;
          assert init[i] == s[i] && init[i - 1] == s[i - 1];
        } else {
          assert r.date == s[|s| - 1].week;
        }
      }
    }
  }

  /** Every positive gain whose week lies inside the window produces its row. */
  lemma {:induction false} GainRowsComplete(s: seq<Snapshot>, name: string, u: string, start: Day, end: Day, i: int)
    requires 1 <= i < |s| && s[i].totalSolved - s[i - 1].totalSolved > 0 && start <= s[i].week <= end
    ensures TrendRow(s[i].week, name, u, s[i].totalSolved - s[i - 1].totalSolved) in GainRows(s, name, u, start, end)
  {
    if i < |s| - 1 {
      var init := s[..|s| - 1];
      assert init[i] == s[i] && init[i - 1] == s[i - 1];
      GainRowsComplete(init, name, u, start, end, i);
    }
  }

  /** The fallback rows of one roster member: none when it has calendar data or no snapshots. */
  function MemberFallback(m: Member, withCalendar: set<string>, mh: MemberHistory, start: Day, end: Day): seq<TrendRow> {
    var snaps := SnapshotsOf(mh, m.username);
    if m.username in withCalendar || snaps == [] then []
    else GainRows(SortByWeek(snaps), DisplayName(m), m.username, start, end)
  }

  /** The fallback rows of a roster, member by member. */
  function FallbackRows(roster: seq<Member>, withCalendar: set<string>, mh: MemberHistory, start: Day, end: Day): seq<TrendRow> {
    if roster == [] then []
    else FallbackRows(roster[..|roster| - 1], withCalendar, mh, start, end) + MemberFallback(roster[|roster| - 1], withCalendar, mh, start, end)
  }

  /**
   * The fallback only speaks for roster members without calendar data, and
   * only with positive gains inside the window.
   */
  lemma {:induction false} FallbackRowsSound(roster: seq<Member>, withCalendar: set<string>, mh: MemberHistory, start: Day, end: Day)
    ensures forall r :: r in FallbackRows(roster, withCalendar, mh, start, end) ==>
              && r.username !in withCalendar && r.accepted > 0 && start <= r.date <= end
              && exists j :: 0 <= j < |roster| && roster[j].username == r.username
  {
    if roster != [] {
      var init := roster[..|roster| - 1];
      var m := roster[|roster| - 1];
      FallbackRowsSound(init, withCalendar, mh, start, end);
      var snaps := SnapshotsOf(mh, m.username);
      if !(m.username in withCalendar || snaps == []) {
        GainRowsSound(SortByWeek(snaps), DisplayName(m), m.username, start, end);
      }
      forall r | r in FallbackRows(roster, withCalendar, mh, start, end)
        ensures r.username !in withCalendar && r.accepted > 0 && start <= r.date <= end
        ensures exists j :: 0 <= j < |roster| && roster[j].username == r.username
      {
        if r in FallbackRows(init, withCalendar, mh, start, end) {
          var j :| 0 <= j < |init| && init[j].username == r.username;
          assert roster[j] == init[j];
        } else {
          assert r in MemberFallback(m, withCalendar, mh, start, end);
          assert roster[|roster| - 1].username == r.username;
        }
      }
    }
  }

  lemma FallbackStep(calendarRows: seq<TrendRow>, roster: seq<Member>, i: int, withCalendar: set<string>,
                     mh: MemberHistory, start: Day, end: Day)
    requires 0 <= i < |roster|
    ensures calendarRows + FallbackRows(roster[..i + 1], withCalendar, mh, start, end)
         == calendarRows + FallbackRows(roster[..i], withCalendar, mh, start, end) + MemberFallback(roster[i], withCalendar, mh, start, end)
  {
    assert roster[..i + 1][..i] == roster[..i];
  }

  /** `result.sort(key=lambda x: x["date"])` */
  method SortByDate(rows: seq<TrendRow>) returns (r: seq<TrendRow>)
    ensures multiset(r) == multiset(rows)
    ensures forall i, j :: 0 <= i < j < |r| ==> r[i].date <= r[j].date
  {
    SortAscending(rows, (t: TrendRow) => t.date);
    r := SortBy(rows, Ascending((t: TrendRow) => t.date));
  }

  /**
   * `get_accepted_trend` after the calendar phase: `calendarRows` are the rows
   * the calendar fetches produced and `withCalendar` the members they covered.
   * Members without calendar data contribute their snapshot gains; the result
   * is sorted by date.
   */
  method AcceptedTrend(roster: seq<Member>, calendarRows: seq<TrendRow>, withCalendar: set<string>,
                       mh: MemberHistory, today: Day, days: int) returns (result: seq<TrendRow>)
    ensures roster == [] ==> result == []
    ensures roster != [] ==>
              multiset(result) == multiset(calendarRows + FallbackRows(roster, withCalendar, mh, today - (days - 1), today))
    ensures forall i, j :: 0 <= i < j < |result| ==> result[i].date <= result[j].date
  {
    if roster == [] {
      return [];
    }
    var rows := AppendFallback(roster, calendarRows, withCalendar, mh, today - (days - 1), today);
    result := SortByDate(rows);
    SameRows(result, rows, calendarRows + FallbackRows(roster, withCalendar, mh, today - (days - 1), today));
  }

  lemma SameRows(a: seq<TrendRow>, b: seq<TrendRow>, c: seq<TrendRow>)
    requires multiset(a) == multiset(b) && b == c
    ensures multiset(a) == multiset(c)
  {
  }

  /** The fallback loop: appends each roster member's gain rows to the calendar rows. */
  method AppendFallback(roster: seq<Member>, calendarRows: seq<TrendRow>, withCalendar: set<string>,
                        mh: MemberHistory, start: Day, end: Day) returns (rows: seq<TrendRow>)
    ensures rows == calendarRows + FallbackRows(roster, withCalendar, mh, start, end)
  {
    rows := calendarRows;
    var i := 0;
    while i < |roster|
      invariant 0 <= i <= |roster|
      invariant rows == calendarRows + FallbackRows(roster[..i], withCalendar, mh, start, end)
    {
      FallbackStep(calendarRows, roster, i, withCalendar, mh, start, end);
      rows := rows + MemberFallback(roster[i], withCalendar, mh, start, end);
      i := i + 1;
    }
    assert roster[..|roster|] == roster;
  }
}
