/**
 * Weekly solving streaks (backend/utils/streak_tracker.py): which snapshot
 * weeks count as active, runs of active weeks exactly seven days apart, the
 * streak status, and the team-level leaderboard and at-risk filters.
 */
module Streaks {
  import opened Wrappers
  import opened Dates
  import opened Records
  import opened Sorting
  import opened PySeq

  datatype Status = Inactive | Active | AtRisk | Broken

  /** The dictionary `calculate_streaks` returns. */
  datatype StreakSummary = StreakSummary(
    current: int, longest: int, activeWeeks: seq<Day>,
    lastActive: Option<Day>, status: Status, totalActiveWeeks: int)

  /** Snapshot i shows progress: the first one solved anything, a later one raised the total. */
  predicate Progressed(s: seq<Snapshot>, i: int)
    requires 0 <= i < |s|
  {
    if i == 0 then s[0].totalSolved > 0 else s[i].totalSolved > s[i - 1].totalSolved
  }

  /** The weeks of the snapshots that show progress, in snapshot order. */
  function ActiveWeeks(s: seq<Snapshot>): (ws: seq<Day>)
    ensures |ws| <= |s|
  {
    if s == [] then []
    else ActiveWeeks(s[..|s| - 1]) + (if Progressed(s, |s| - 1) then [s[|s| - 1].week] else [])
  }

  /** A week is active exactly when some snapshot of that week shows progress. */
  lemma {:induction false} ActiveWeeksMembers(s: seq<Snapshot>)
    ensures forall w :: w in ActiveWeeks(s) <==>
              exists i :: 0 <= i < |s| && Progressed(s, i) && s[i].week == w
  {
    if s != [] {
      var init := s[..|s| - 1];
      ActiveWeeksMembers(init);
      forall i | 0 <= i < |init| ensures Progressed(init, i) == Progressed(s, i) && init[i] == s[i] {
      }
    }
  }

  /** Active weeks of chronologically sorted snapshots stay chronological. */
  lemma {:induction false} ActiveWeeksChronological(s: seq<Snapshot>)
    requires forall i, j :: 0 <= i < j < |s| ==> s[i].week <= s[j].week
    ensures forall i, j :: 0 <= i < j < |ActiveWeeks(s)| ==> ActiveWeeks(s)[i] <= ActiveWeeks(s)[j]
  {
    if s != [] {
      var init := s[..|s| - 1];
      var a := ActiveWeeks(init);
      ActiveWeeksChronological(init);
      ActiveWeeksMembers(init);
      forall k | 0 <= k < |a| ensures a[k] <= s[|s| - 1].week {
        assert a[k] in a;
        var i :| 0 <= i < |init| && Progressed(init, i) && init[i].week == a[k];
        assert s[i] == init[i];
      }
    }
  }

  /** The active weeks of `ws[i..]` that follow ws[i] exactly seven days apart, ws[i] included. */
  function RunFrom(ws: seq<Day>, i: int): (r: int)
    requires 0 <= i < |ws|
    ensures 1 <= r <= |ws| - i
    decreases |ws| - i
  {
    if i == |ws| - 1 then 1
    else if ws[i + 1] - ws[i] == 7 then RunFrom(ws, i + 1) + 1
    else 1
  }

  /** The longest run starting at or after index i. */
  function MaxRunFrom(ws: seq<Day>, i: int): int
    requires 0 <= i <= |ws|
    decreases |ws| - i
  {
    if i == |ws| then 0 else Max(RunFrom(ws, i), MaxRunFrom(ws, i + 1))
  }

  function LongestRun(ws: seq<Day>): int {
    MaxRunFrom(ws, 0)
  }

  /** ws[i..i+len] are `len` active weeks, each exactly seven days after the one before. */
  ghost predicate IsRun(ws: seq<Day>, i: int, len: int) {
    && 0 <= i && 1 <= len && i + len <= |ws|
    && forall k :: i <= k < i + len - 1 ==> ws[k + 1] - ws[k] == 7
  }

  lemma {:induction false} RunFromIsRun(ws: seq<Day>, i: int)
    requires 0 <= i < |ws|
    ensures IsRun(ws, i, RunFrom(ws, i))
    decreases |ws| - i
  {
    if i < |ws| - 1 && ws[i + 1] - ws[i] == 7 {
      RunFromIsRun(ws, i + 1);
    }
  }

  /** No run starting at i is longer than RunFrom(ws, i). */
  lemma {:induction false} RunFromIsMaximal(ws: seq<Day>, i: int, len: int)
    requires IsRun(ws, i, len)
    ensures len <= RunFrom(ws, i)
    decreases |ws| - i
  {
    if len > 1 {
      assert ws[i + 1] - ws[i] == 7;
      RunFromIsMaximal(ws, i + 1, len - 1);
    }
  }

  lemma {:induction false} MaxRunFromBounds(ws: seq<Day>, i: int, j: int)
    requires 0 <= i <= j < |ws|
    ensures RunFrom(ws, j) <= MaxRunFrom(ws, i)
    decreases j - i
  {
    if i < j {
      MaxRunFromBounds(ws, i + 1, j);
    }
  }

  lemma {:induction false} MaxRunFromAttained(ws: seq<Day>, i: int)
    requires 0 <= i < |ws|
    ensures exists j :: i <= j < |ws| && RunFrom(ws, j) == MaxRunFrom(ws, i)
    decreases |ws| - i
  {
    if i + 1 < |ws| && RunFrom(ws, i) < MaxRunFrom(ws, i + 1) {
      MaxRunFromAttained(ws, i + 1);
    } else {
      assert MaxRunFrom(ws, i + 1) <= RunFrom(ws, i);
      assert RunFrom(ws, i) == MaxRunFrom(ws, i);
    }
  }

  /**
   * `longest_streak` is the length of the longest run of active weeks exactly
   * seven days apart: every run is at most that long and one run is that long.
   */
  lemma LongestRunIsLongest(ws: seq<Day>)
    ensures ws == [] ==> LongestRun(ws) == 0
    ensures forall i, len :: IsRun(ws, i, len) ==> len <= LongestRun(ws)
    ensures ws != [] ==> IsRun(ws, 0, 1) && exists i :: IsRun(ws, i, LongestRun(ws))
  {
    forall i, len | IsRun(ws, i, len) ensures len <= LongestRun(ws) {
      RunFromIsMaximal(ws, i, len);
      MaxRunFromBounds(ws, 0, i);
    }
    if ws != [] {
      MaxRunFromAttained(ws, 0);
      var j :| 0 <= j < |ws| && RunFrom(ws, j) == MaxRunFrom(ws, 0);
      RunFromIsRun(ws, j);
    }
  }

  /** A streak never exceeds the number of active weeks: `longest_streak <= total_active_weeks`. */
  lemma LongestRunBounds(ws: seq<Day>)
    ensures ws != [] ==> 1 <= LongestRun(ws) <= |ws|
  {
    LongestRunIsLongest(ws);
    if ws != [] {
      var i :| IsRun(ws, i, LongestRun(ws));
    }
  }

  /**
   * `current_streak` as the backward walk leaves it once it has visited the
   * active weeks from index j on, given last week's Monday.
   */
  function CurrentAfter(ws: seq<Day>, j: int, lastWeekStart: Day): int
    requires 0 <= j <= |ws|
  {
    var n := |ws|;
    if j == n then 0
    else if j <= n - 2 && ws[n - 1] - ws[n - 2] == 7 then 2
    else if ws[n - 1] >= lastWeekStart then 1
    else 0
  }

  /** `current_streak` as the source computes it (see the findings in README.md). */
  function CurrentAsWritten(ws: seq<Day>, today: Day): int {
    CurrentAfter(ws, 0, MondayWeeksAgo(today, 1))
  }

  /** The value as written is at most 2 and at most the longest streak. */
  lemma CurrentAsWrittenBounds(ws: seq<Day>, today: Day)
    ensures 0 <= CurrentAsWritten(ws, today) <= 2
    ensures CurrentAsWritten(ws, today) <= LongestRun(ws)
    ensures CurrentAsWritten(ws, today) == 0 ==> ws == [] || ws[|ws| - 1] < MondayWeeksAgo(today, 1)
  {
    LongestRunIsLongest(ws);
    if |ws| >= 2 && ws[|ws| - 1] - ws[|ws| - 2] == 7 {
      assert IsRun(ws, |ws| - 2, 2);
    }
  }

  function StatusOf(ws: seq<Day>, current: int, today: Day): Status {
    if ws == [] then Inactive
    else if current > 0 then Active
    else if today - ws[|ws| - 1] <= 14 then AtRisk
    else Broken
  }

  /** What `calculate_streaks(history)` returns on day `today`. */
  function Summary(history: seq<Snapshot>, today: Day): StreakSummary {
    var ws := ActiveWeeks(SortByWeek(history));
    var current := CurrentAsWritten(ws, today);
    StreakSummary(current, LongestRun(ws), ws, if ws == [] then None else Some(ws[|ws| - 1]),
                  StatusOf(ws, current, today), |ws|)
  }

  /** The relations between the fields of a streak summary. */
  lemma SummaryFacts(history: seq<Snapshot>, today: Day)
    ensures history == [] ==> Summary(history, today) == StreakSummary(0, 0, [], None, Inactive, 0)
    ensures 0 <= Summary(history, today).current <= 2
    ensures Summary(history, today).current <= Summary(history, today).longest
    ensures Summary(history, today).longest <= Summary(history, today).totalActiveWeeks <= |history|
    ensures Summary(history, today).totalActiveWeeks == |Summary(history, today).activeWeeks|
    ensures forall i, j :: 0 <= i < j < |Summary(history, today).activeWeeks| ==>
              Summary(history, today).activeWeeks[i] <= Summary(history, today).activeWeeks[j]
    ensures Summary(history, today).status == Inactive <==> Summary(history, today).lastActive == None
    ensures Summary(history, today).status == Inactive <==> Summary(history, today).longest == 0
    ensures Summary(history, today).status == Active <==> Summary(history, today).current > 0
    ensures Summary(history, today).status == AtRisk ==>
              Summary(history, today).lastActive.Some? && today - Summary(history, today).lastActive.value <= 14
    ensures Summary(history, today).status == Broken ==>
              Summary(history, today).lastActive.Some? && today - Summary(history, today).lastActive.value > 14
  {
    var ws := ActiveWeeks(SortByWeek(history));
    CurrentAsWrittenBounds(ws, today);
    LongestRunIsLongest(ws);
    LongestRunBounds(ws);
    ActiveWeeksChronological(SortByWeek(history));
  }

  /** `calculate_streaks`: collects the active weeks, then walks them from the most recent back. */
  method CalculateStreaks(history: seq<Snapshot>, today: Day) returns (s: StreakSummary)
    ensures s == Summary(history, today)
  {
    if history == [] {
      return StreakSummary(0, 0, [], None, Inactive, 0);
    }
    var active := CollectActiveWeeks(SortByWeek(history));
    var n := |active|;
    var current, longest := ScanRuns(active, MondayWeeksAgo(today, 1));
    var status;
    if n == 0 {
      status := Inactive;
    } else if current > 0 {
      status := Active;
    } else if today - active[n - 1] <= 14 {
      status := AtRisk;
    } else {
      status := Broken;
    }
    s := StreakSummary(current, longest, active, if n == 0 then None else Some(active[n - 1]), status, n);
  }

  /** The first loop of `calculate_streaks`: the weeks whose total grew, oldest first. */
  method CollectActiveWeeks(sorted: seq<Snapshot>) returns (active: seq<Day>)
    ensures active == ActiveWeeks(sorted)
  {
    active := [];
    var i := 0;
    while i < |sorted|
      invariant 0 <= i <= |sorted|
      invariant active == ActiveWeeks(sorted[..i])
    {
      assert sorted[..i + 1][..i] == sorted[..i];
      if i == 0 {
        if sorted[i].totalSolved > 0 {
          active := active + [sorted[i].week];
        }
      } else if sorted[i].totalSolved > sorted[i - 1].totalSolved {
        active := active + [sorted[i].week];
      }
      i := i + 1;
    }
    assert sorted[..i] == sorted;
  }

  /** The second loop of `calculate_streaks`, newest week first: the current and the longest run. */
  method ScanRuns(active: seq<Day>, lastWeekStart: Day) returns (current: int, longest: int)
    ensures current == CurrentAfter(active, 0, lastWeekStart)
    ensures longest == LongestRun(active)
  {
    var n := |active|;
    var temp := 0;
    current, longest := 0, 0;
    var j := n;
    while j > 0
      invariant 0 <= j <= n
      invariant j == n ==> temp == 0 && longest == 0
      invariant j < n ==> temp == RunFrom(active, j) && Max(longest, temp) == MaxRunFrom(active, j)
      invariant current == CurrentAfter(active, j, lastWeekStart)
    {
      j := j - 1;
      if j == n - 1 {
        temp := 1;
        if active[j] >= lastWeekStart {
          current := 1;
        }
      } else if active[j + 1] - active[j] == 7 {
        temp := temp + 1;
        if j == n - 2 {
          current := temp;
        }
      } else {
        longest := Max(longest, temp);
        temp := 1;
      }
    }
    longest := Max(longest, temp);
  }

  /** The active weeks seven days apart that end at index k. */
  function RunEndingAt(ws: seq<Day>, k: int): int
    requires 0 <= k < |ws|
  {
    if k == 0 || ws[k] - ws[k - 1] != 7 then 1 else RunEndingAt(ws, k - 1) + 1
  }

  /**
   * The evidently intended current streak: the whole run ending at the most
   * recent active week, provided that week is this week or last week.
   */
  function CurrentStreak(ws: seq<Day>, today: Day): int {
    if ws != [] && ws[|ws| - 1] >= MondayWeeksAgo(today, 1) then RunEndingAt(ws, |ws| - 1) else 0
  }

  lemma {:induction false} RunEndingAtIsRun(ws: seq<Day>, k: int)
    requires 0 <= k < |ws|
    ensures IsRun(ws, k - RunEndingAt(ws, k) + 1, RunEndingAt(ws, k))
    ensures k - RunEndingAt(ws, k) + 1 == 0 || ws[k - RunEndingAt(ws, k) + 1] - ws[k - RunEndingAt(ws, k)] != 7
  {
    if k > 0 && ws[k] - ws[k - 1] == 7 {
      RunEndingAtIsRun(ws, k - 1);
    }
  }

  /**
   * The corrected current streak is zero exactly when the member has not been
   * active this week or last week, and otherwise it is the full run of
   * consecutive active weeks that ends with the latest one, so it never
   * exceeds the longest streak.
   */
  lemma CurrentStreakMeaning(ws: seq<Day>, today: Day)
    ensures CurrentStreak(ws, today) == 0 <==> ws == [] || ws[|ws| - 1] < MondayWeeksAgo(today, 1)
    ensures CurrentStreak(ws, today) > 0 ==>
              && IsRun(ws, |ws| - CurrentStreak(ws, today), CurrentStreak(ws, today))
              && (|ws| == CurrentStreak(ws, today) ||
                  ws[|ws| - CurrentStreak(ws, today)] - ws[|ws| - CurrentStreak(ws, today) - 1] != 7)
    ensures CurrentStreak(ws, today) <= LongestRun(ws)
  {
    LongestRunIsLongest(ws);
    if ws != [] {
      RunEndingAtIsRun(ws, |ws| - 1);
    }
  }

  /** A member whose last two active weeks lie long in the past is reported as on an active streak of 2. */
  lemma StaleStreakReportedActive()
    ensures CurrentAsWritten([0, 7], 700) == 2
    ensures StatusOf([0, 7], CurrentAsWritten([0, 7], 700), 700) == Active
    ensures CurrentStreak([0, 7], 700) == 0
  {
  }

  /** Three consecutive active weeks up to this week are reported as a current streak of 2. */
  lemma CurrentStreakCappedAtTwo()
    ensures CurrentAsWritten([686, 693, 700], 700) == 2
    ensures CurrentStreak([686, 693, 700], 700) == 3
  {
    assert RunEndingAt([686, 693, 700], 1) == 2;
  }

  /**
   * The summary with the evidently intended current streak: every field but
   * `current` and `status` is the one `calculate_streaks` reports.
   */
  function CorrectedSummary(history: seq<Snapshot>, today: Day): StreakSummary {
    var ws := ActiveWeeks(SortByWeek(history));
    var current := CurrentStreak(ws, today);
    Summary(history, today).(current := current, status := StatusOf(ws, current, today))
  }

  /**
   * With the corrected streak a member is reported active exactly when it was
   * active this week or last week, the streak is the whole run that ends with
   * its latest active week, and it still never exceeds the longest streak.
   */
  lemma CorrectedSummaryFacts(history: seq<Snapshot>, today: Day)
    ensures var s := CorrectedSummary(history, today);
      s.status == Active <==> s.lastActive.Some? && s.lastActive.value >= MondayWeeksAgo(today, 1)
    ensures var s := CorrectedSummary(history, today);
      s.current > 0 ==> IsRun(s.activeWeeks, |s.activeWeeks| - s.current, s.current)
    ensures CorrectedSummary(history, today).current <= CorrectedSummary(history, today).longest
    ensures CorrectedSummary(history, today).status == Active <==> CorrectedSummary(history, today).current > 0
  {
    var ws := ActiveWeeks(SortByWeek(history));
    var s := CorrectedSummary(history, today);
    assert s.activeWeeks == ws && s.lastActive == if ws == [] then None else Some(ws[|ws| - 1]);
    assert s.current == CurrentStreak(ws, today) && s.status == StatusOf(ws, s.current, today);
    CurrentStreakMeaning(ws, today);
    if ws != [] {
      RunEndingAtIsRun(ws, |ws| - 1);
    }
  }

  /** One entry of `get_team_streaks`: the member plus its streak summary. */
  datatype TeamStreak = TeamStreak(member: string, summary: StreakSummary)

  function CurrentOf(t: TeamStreak): int {
    t.summary.current
  }

  /** The unsorted team entries, one per member in history order. */
  function TeamEntries(h: Ordered<seq<Snapshot>>, today: Day): (r: seq<TeamStreak>)
    ensures |r| == |h|
  {
    seq(|h|, i requires 0 <= i < |h| => TeamStreak(h[i].0, Summary(h[i].1, today)))
  }

  /** `get_team_streaks`: one entry per member, sorted by current streak from highest to lowest. */
  method GetTeamStreaks(h: Ordered<seq<Snapshot>>, today: Day) returns (team: seq<TeamStreak>)
    ensures team == SortBy(TeamEntries(h, today), Descending(CurrentOf))
    ensures |team| == |h| && multiset(team) == multiset(TeamEntries(h, today))
    ensures forall i :: 0 <= i < |h| ==> TeamStreak(h[i].0, Summary(h[i].1, today)) in team
    ensures forall i, j :: 0 <= i < j < |team| ==> team[i].summary.current >= team[j].summary.current
  {
    var entries := CollectStreaks(h, today);
    team := SortBy(entries, Descending(CurrentOf));
    TeamStreaksOrder(h, today);
  }

  /** The loop of `get_team_streaks`: each member's summary, in history order. */
  method CollectStreaks(h: Ordered<seq<Snapshot>>, today: Day) returns (entries: seq<TeamStreak>)
    ensures entries == TeamEntries(h, today)
  {
    entries := [];
    var i := 0;
    while i < |h|
      invariant 0 <= i <= |h|
      invariant entries == TeamEntries(h[..i], today)
    {
      var s := CalculateStreaks(h[i].1, today);
      assert TeamEntries(h[..i + 1], today) == TeamEntries(h[..i], today) + [TeamStreak(h[i].0, s)];
      entries := entries + [TeamStreak(h[i].0, s)];
      i := i + 1;
    }
    assert h[..i] == h;
  }

  /** The sorted summaries: every member's there, highest current streak first. */
  lemma TeamStreaksOrder(h: Ordered<seq<Snapshot>>, today: Day)
    ensures var team := SortBy(TeamEntries(h, today), Descending(CurrentOf));
      forall i :: 0 <= i < |h| ==> TeamStreak(h[i].0, Summary(h[i].1, today)) in team
    ensures var team := SortBy(TeamEntries(h, today), Descending(CurrentOf));
      forall i, j :: 0 <= i < j < |team| ==> team[i].summary.current >= team[j].summary.current
  {
    var entries := TeamEntries(h, today);
    var team := SortBy(entries, Descending(CurrentOf));
    SortDescending(entries, CurrentOf);
    PermutationMembers(team, entries);
    assert forall i :: 0 <= i < |h| ==> entries[i] == TeamStreak(h[i].0, Summary(h[i].1, today));
  }

  /** Leaderboard order: by current streak, then by longest streak, both from highest to lowest. */
  function ByCurrentThenLongest(): (TeamStreak, TeamStreak) -> bool {
    (a: TeamStreak, b: TeamStreak) =>
      a.summary.current > b.summary.current ||
      (a.summary.current == b.summary.current && a.summary.longest >= b.summary.longest)
  }

  lemma ByCurrentThenLongestIsTotalPreorder()
    ensures IsTotalPreorder(ByCurrentThenLongest())
  {
  }

  function HasCurrentStreak(t: TeamStreak): bool {
    t.summary.current > 0
  }

  /** `get_streak_leaderboard(team_streaks, limit)` */
  function Leaderboard(team: seq<TeamStreak>, limit: int): seq<TeamStreak> {
    Take(SortBy(Filter(team, HasCurrentStreak), ByCurrentThenLongest()), limit)
  }

  /**
   * The leaderboard holds only members with a current streak, ordered by
   * (current, longest) from highest to lowest: the first `limit` of them
   * (Python's `[:limit]`), every such member when the limit allows, and no
   * member with a current streak left off ranks above the last one shown.
   */
  lemma LeaderboardMeaning(team: seq<TeamStreak>, limit: int)
    ensures |Leaderboard(team, limit)| <= |team|
    ensures limit >= 0 ==> |Leaderboard(team, limit)| <= limit
    ensures limit >= 0 ==> (|Leaderboard(team, limit)| ==
              if limit < |Filter(team, HasCurrentStreak)| then limit else |Filter(team, HasCurrentStreak)|)
    ensures limit < 0 ==> (|Leaderboard(team, limit)| ==
              if |Filter(team, HasCurrentStreak)| + limit < 0 then 0 else |Filter(team, HasCurrentStreak)| + limit)
    ensures forall t :: t in team && t.summary.current > 0 && t !in Leaderboard(team, limit) && Leaderboard(team, limit) != [] ==>
              var last := Leaderboard(team, limit)[|Leaderboard(team, limit)| - 1];
              last.summary.current > t.summary.current ||
              (last.summary.current == t.summary.current && last.summary.longest >= t.summary.longest)
    ensures forall t :: t in Leaderboard(team, limit) ==> t in team && t.summary.current > 0
    ensures limit >= |team| ==> forall t :: t in team && t.summary.current > 0 ==> t in Leaderboard(team, limit)
    ensures forall i, j :: 0 <= i < j < |Leaderboard(team, limit)| ==>
              var a, b := Leaderboard(team, limit)[i], Leaderboard(team, limit)[j];
              a.summary.current > b.summary.current ||
              (a.summary.current == b.summary.current && a.summary.longest >= b.summary.longest)
  {
    var active := Filter(team, HasCurrentStreak);
    var sorted := SortBy(active, ByCurrentThenLongest());
    ByCurrentThenLongestIsTotalPreorder();
    SortBySorted(active, ByCurrentThenLongest());
    PermutationMembers(sorted, active);
    var r := Leaderboard(team, limit);
    assert r == sorted[..|r|];
    forall t | t in r ensures t in sorted {
      var k :| 0 <= k < |r| && r[k] == t;
      assert sorted[k] == t;
    }
    if limit >= |team| {
      assert r == sorted;
    }
    LeaderboardTop(team, limit);
  }

  /** No member with a current streak left off the board ranks above the last one shown. */
  lemma LeaderboardTop(team: seq<TeamStreak>, limit: int)
    ensures forall t :: t in team && t.summary.current > 0 && t !in Leaderboard(team, limit) && Leaderboard(team, limit) != [] ==>
              ByCurrentThenLongest()(Leaderboard(team, limit)[|Leaderboard(team, limit)| - 1], t)
  {
    var active := Filter(team, HasCurrentStreak);
    var sorted := SortBy(active, ByCurrentThenLongest());
    ByCurrentThenLongestIsTotalPreorder();
    SortBySorted(active, ByCurrentThenLongest());
    PermutationMembers(sorted, active);
    PrefixTopBy(sorted, Leaderboard(team, limit), ByCurrentThenLongest());
  }

  /** `get_members_at_risk`: exactly the at-risk entries, in their given order. */
  function AtRiskMembers(team: seq<TeamStreak>): (r: seq<TeamStreak>)
    ensures |r| <= |team|
    ensures forall t :: t in r <==> t in team && t.summary.status == AtRisk
  {
    Filter(team, (t: TeamStreak) => t.summary.status == AtRisk)
  }
}
