/**
 * The live weekly progress endpoint: each member's live total against last
 * week's snapshot, the team's progress this week and the week before, and
 * the change between the two. The live fetch is an oracle map, the clock a
 * parameter, and the stored history the member-to-snapshots dict.
 */
module WeeklyProgress {
  import opened Wrappers
  import opened Dates
  import opened Records
  import opened Sorting
  import opened PySeq
  import Analytics

  function InWeek(week: Day): Snapshot -> bool {
    (s: Snapshot) => s.week == week
  }

  /** The total of the first snapshot of the week (the scan breaks at the first match), if any. */
  function FirstTotal(snaps: seq<Snapshot>, week: Day): (t: Option<int>)
    ensures t.None? <==> !HasWeek(snaps, week)
  {
    match FirstIndex(snaps, InWeek(week))
    case None => None
    case Some(i) => Some(snaps[i].totalSolved)
  }

  /** `last_week_data` / `two_weeks_ago_data`: the members with a snapshot in the week, in history order. */
  function WeekTotals(h: Ordered<seq<Snapshot>>, week: Day): (d: Ordered<int>)
    ensures |d| <= |h|
  {
    if h == [] then []
    else
      var t := FirstTotal(h[|h| - 1].1, week);
      WeekTotals(h[..|h| - 1], week) + (if t.Some? then [(h[|h| - 1].0, t.value)] else [])
  }

  /** A week's totals list exactly the members that have a snapshot in that week, each with its first total. */
  lemma {:induction false} WeekTotalsSpec(h: Ordered<seq<Snapshot>>, week: Day, u: string)
    requires DistinctKeys(h)
    ensures Lookup(WeekTotals(h, week), u)
         == if u in Keys(h) then FirstTotal(LastValue(h, u), week) else None
  {
    if h != [] {
      var init := h[..|h| - 1];
      var x := h[|h| - 1];
      assert h == init + [x];
      assert DistinctKeys(init);
      KeysAppend(init, x);
      WeekTotalsSpec(init, week, u);
      var t := FirstTotal(x.1, week);
      var d0 := WeekTotals(init, week);
      if x.0 == u {
        assert u !in Keys(init);
        if t.None? {
          WeekTotalsKeys(init, week);
        }
      } else {
        if u in Keys(h) {
          assert u in Keys(init);
          LastValueInit(h, u);
        }
        if t.Some? {
          assert (d0 + [(x.0, t.value)])[..|d0|] == d0;
        } else {
          assert d0 + [] == d0;
        }
      }
    }
  }

  /** A week's totals only list members of the history. */
  lemma {:induction false} WeekTotalsKeys(h: Ordered<seq<Snapshot>>, week: Day)
    ensures Keys(WeekTotals(h, week)) <= Keys(h)
  {
    if h != [] {
      var init := h[..|h| - 1];
      var x := h[|h| - 1];
      assert h == init + [x];
      WeekTotalsKeys(init, week);
      KeysAppend(init, x);
      var t := FirstTotal(x.1, week);
      if t.Some? {
        KeysAppend(WeekTotals(init, week), (x.0, t.value));
      } else {
        assert WeekTotals(h, week) == WeekTotals(init, week);
      }
    }
  }

  /** Without any snapshot in the week the week's totals are empty. */
  lemma {:induction false} WeekTotalsEmpty(h: Ordered<seq<Snapshot>>, week: Day)
    requires forall i :: 0 <= i < |h| ==> !HasWeek(h[i].1, week)
    ensures WeekTotals(h, week) == []
  {
    if h != [] {
      WeekTotalsEmpty(h[..|h| - 1], week);
    }
  }

  /** One entry of `members_progress`. */
  datatype Progress = Progress(username: string, name: string, currentTotal: int, lastWeekTotal: int, weekProgress: int)

  /** The entry of a member whose fetch succeeded; without a last-week total the live total is the baseline. */
  function ProgressOf(m: Member, p: Profile, lastWeek: Ordered<int>): (r: Progress)
    ensures r.username == m.username && r.currentTotal == p.totalSolved
    ensures r.weekProgress == r.currentTotal - r.lastWeekTotal
    ensures Lookup(lastWeek, m.username).None? ==> r.weekProgress == 0
    ensures Lookup(lastWeek, m.username).Some? ==> r.lastWeekTotal == Lookup(lastWeek, m.username).value
  {
    var last := Lookup(lastWeek, m.username).GetOr(p.totalSolved);
    Progress(m.username, DisplayName(m), p.totalSolved, last, p.totalSolved - last)
  }

  /** A member is listed when the username is not empty and the live fetch succeeds. */
  predicate Listed(m: Member, fetch: Fetch) {
    m.username != "" && m.username in fetch
  }

  /** `members_progress` before sorting: the listed members in roster order. */
  function ProgressRows(members: seq<Member>, fetch: Fetch, lastWeek: Ordered<int>): seq<Progress> {
    if members == [] then []
    else
      var m := members[|members| - 1];
      ProgressRows(members[..|members| - 1], fetch, lastWeek)
        + (if Listed(m, fetch) then [ProgressOf(m, fetch[m.username], lastWeek)] else [])
  }

  function WeekProgressOf(p: Progress): int {
    p.weekProgress
  }

  /** `sum(m["week_progress"] for m in members_progress)` */
  function TotalProgress(rows: seq<Progress>): int {
    if rows == [] then 0 else TotalProgress(rows[..|rows| - 1]) + rows[|rows| - 1].weekProgress
  }

  /** One member's contribution to last week's progress: a missing two-weeks-ago total contributes 0. */
  function PreviousOf(item: (string, int), twoWeeksAgo: Ordered<int>): int {
    item.1 - Lookup(twoWeeksAgo, item.0).GetOr(item.1)
  }

  function PreviousSum(lastWeek: Ordered<int>, twoWeeksAgo: Ordered<int>): int {
    if lastWeek == [] then 0
    else PreviousSum(lastWeek[..|lastWeek| - 1], twoWeeksAgo) + PreviousOf(lastWeek[|lastWeek| - 1], twoWeeksAgo)
  }

  /** `previous_week_total`: 0 without any two-weeks-ago data. */
  function PreviousWeekTotal(lastWeek: Ordered<int>, twoWeeksAgo: Ordered<int>): int {
    if twoWeeksAgo == [] then 0 else PreviousSum(lastWeek, twoWeeksAgo)
  }

  datatype WeekProgress = WeekProgress(
    currentWeekTotal: int, previousWeekTotal: int, weeklyChange: real, membersProgress: seq<Progress>)

  /** `get_current_week_progress` as a function of the roster, the history, the live fetch and today. */
  function CurrentWeekProgress(members: seq<Member>, h: Ordered<seq<Snapshot>>, fetch: Fetch, today: Day): WeekProgress {
    if members == [] then WeekProgress(0, 0, 0.0, [])
    else
      var lastWeek := WeekTotals(h, MondayWeeksAgo(today, 1));
      var twoWeeksAgo := WeekTotals(h, MondayWeeksAgo(today, 2));
      var rows := ProgressRows(members, fetch, lastWeek);
      var current := TotalProgress(rows);
      var previous := PreviousWeekTotal(lastWeek, twoWeeksAgo);
      WeekProgress(current, previous, Analytics.PctChange(previous, current), SortBy(rows, Descending(WeekProgressOf)))
  }

  /**
   * The listed members are exactly those with a username whose live fetch
   * succeeds, in roster order, each with its live total and its week's
   * progress against last week's total (0 without one).
   */
  lemma {:induction false} ProgressRowsSpec(members: seq<Member>, fetch: Fetch, lastWeek: Ordered<int>)
    ensures |ProgressRows(members, fetch, lastWeek)| <= |members|
    ensures forall r :: r in ProgressRows(members, fetch, lastWeek) ==>
      exists m :: m in members && Listed(m, fetch) && r == ProgressOf(m, fetch[m.username], lastWeek)
    ensures forall m :: m in members && Listed(m, fetch) ==> ProgressOf(m, fetch[m.username], lastWeek) in ProgressRows(members, fetch, lastWeek)
  {
    if members != [] {
      var init := members[..|members| - 1];
      var m := members[|members| - 1];
      ProgressRowsSpec(init, fetch, lastWeek);
      assert members == init + [m];
    }
  }

  /** With no roster the result is all zeros; otherwise the list is sorted by week's progress, highest first. */
  lemma CurrentWeekProgressSpec(members: seq<Member>, h: Ordered<seq<Snapshot>>, fetch: Fetch, today: Day)
    ensures members == [] ==> CurrentWeekProgress(members, h, fetch, today) == WeekProgress(0, 0, 0.0, [])
    ensures var r := CurrentWeekProgress(members, h, fetch, today);
      forall i, j :: 0 <= i < j < |r.membersProgress| ==> r.membersProgress[i].weekProgress >= r.membersProgress[j].weekProgress
    ensures members != [] ==>
      var r := CurrentWeekProgress(members, h, fetch, today);
      var rows := ProgressRows(members, fetch, WeekTotals(h, MondayWeeksAgo(today, 1)));
      multiset(r.membersProgress) == multiset(rows) && r.currentWeekTotal == TotalProgress(rows)
    ensures (forall i :: 0 <= i < |h| ==> !HasWeek(h[i].1, MondayWeeksAgo(today, 2))) ==>
      CurrentWeekProgress(members, h, fetch, today).previousWeekTotal == 0
  {
    if forall i :: 0 <= i < |h| ==> !HasWeek(h[i].1, MondayWeeksAgo(today, 2)) {
      WeekTotalsEmpty(h, MondayWeeksAgo(today, 2));
    }
    if members != [] {
      var rows := ProgressRows(members, fetch, WeekTotals(h, MondayWeeksAgo(today, 1)));
      SortDescending(rows, WeekProgressOf);
    }
  }

  lemma PreviousSumAppend(lastWeek: Ordered<int>, x: (string, int), twoWeeksAgo: Ordered<int>)
    ensures PreviousSum(lastWeek + [x], twoWeeksAgo) == PreviousSum(lastWeek, twoWeeksAgo) + PreviousOf(x, twoWeeksAgo)
  {
    assert (lastWeek + [x])[..|lastWeek|] == lastWeek;
  }

  /** A last-week member without a two-weeks-ago total adds nothing to last week's progress. */
  lemma {:induction false} PreviousSumSkipsMissing(lastWeek: Ordered<int>, twoWeeksAgo: Ordered<int>)
    ensures PreviousSum(lastWeek, twoWeeksAgo) == PreviousSum(Filter(lastWeek, HasKey(twoWeeksAgo)), twoWeeksAgo)
  {
    if lastWeek != [] {
      var init := lastWeek[..|lastWeek| - 1];
      var x := lastWeek[|lastWeek| - 1];
      PreviousSumSkipsMissing(init, twoWeeksAgo);
      var p := HasKey(twoWeeksAgo);
      var kept := Filter(init, p);
      assert Filter(lastWeek, p) == kept + (if p(x) then [x] else []);
      if p(x) {
        PreviousSumAppend(kept, x, twoWeeksAgo);
      } else {
        assert kept + [] == kept;
      }
    }
  }

  function HasKey(d: Ordered<int>): ((string, int)) -> bool {
    (item: (string, int)) => Lookup(d, item.0).Some?
  }

  // ------------------------------------------------------------- the loops

  /** The scan that fills `last_week_data` (or `two_weeks_ago_data`): first matching snapshot per member. */
  method CollectWeek(h: Ordered<seq<Snapshot>>, week: Day) returns (data: Ordered<int>)
    ensures data == WeekTotals(h, week)
  {
    data := [];
    var i := 0;
    while i < |h|
      invariant 0 <= i <= |h|
      invariant data == WeekTotals(h[..i], week)
    {
      var snaps := h[i].1;
      var j := 0;
      var found := false;
      while j < |snaps| && !found
        invariant 0 <= j <= |snaps|
        invariant !found ==> forall k :: 0 <= k < j ==> !InWeek(week)(snaps[k])
        invariant found ==> 0 < j && FirstIndex(snaps, InWeek(week)) == Some(j - 1)
        invariant !found ==> data == WeekTotals(h[..i], week)
        invariant found ==> data == WeekTotals(h[..i], week) + [(h[i].0, snaps[j - 1].totalSolved)]
      {
        if snaps[j].week == week {
          data := data + [(h[i].0, snaps[j].totalSolved)];
          found := true;
        }
        j := j + 1;
      }
      assert h[..i + 1][..i] == h[..i];
      i := i + 1;
    }
    assert h[..|h|] == h;
  }

  /** The loop that fills `members_progress` from the live fetch. */
  method CollectProgress(members: seq<Member>, fetch: Fetch, lastWeek: Ordered<int>) returns (rows: seq<Progress>)
    ensures rows == ProgressRows(members, fetch, lastWeek)
  {
    rows := [];
    var i := 0;
    while i < |members|
      invariant 0 <= i <= |members|
      invariant rows == ProgressRows(members[..i], fetch, lastWeek)
    {
      var m := members[i];
      assert members[..i + 1][..i] == members[..i];
      if m.username != "" && m.username in fetch {
        var current := fetch[m.username].totalSolved;
        var last := Lookup(lastWeek, m.username).GetOr(current);
        rows := rows + [Progress(m.username, DisplayName(m), current, last, current - last)];
      }
      i := i + 1;
    }
    assert members[..|members|] == members;
  }

  /** The loop that accumulates `previous_week_total`. */
  method AccumulatePrevious(lastWeek: Ordered<int>, twoWeeksAgo: Ordered<int>) returns (previous: int)
    ensures previous == PreviousWeekTotal(lastWeek, twoWeeksAgo)
  {
    previous := 0;
    if twoWeeksAgo == [] {
      return;
    }
    var i := 0;
    while i < |lastWeek|
      invariant 0 <= i <= |lastWeek|
      invariant previous == PreviousSum(lastWeek[..i], twoWeeksAgo)
    {
      var lastVal := lastWeek[i].1;
      var twoVal := Lookup(twoWeeksAgo, lastWeek[i].0).GetOr(lastVal);
      previous := previous + (lastVal - twoVal);
      assert lastWeek[..i + 1][..i] == lastWeek[..i];
      i := i + 1;
    }
    assert lastWeek[..|lastWeek|] == lastWeek;
  }

  /** `get_current_week_progress` */
  method GetCurrentWeekProgress(members: seq<Member>, h: Ordered<seq<Snapshot>>, fetch: Fetch, today: Day)
    returns (r: WeekProgress)
    ensures r == CurrentWeekProgress(members, h, fetch, today)
  {
    if members == [] {
      return WeekProgress(0, 0, 0.0, []);
    }
    var lastWeek := CollectWeek(h, MondayWeeksAgo(today, 1));
    var rows := CollectProgress(members, fetch, lastWeek);
    var current := TotalProgress(rows);
    var twoWeeksAgo := CollectWeek(h, MondayWeeksAgo(today, 2));
    var previous := AccumulatePrevious(lastWeek, twoWeeksAgo);
    r := WeekProgress(current, previous, Analytics.PctChange(previous, current), SortBy(rows, Descending(WeekProgressOf)));
  }
}
