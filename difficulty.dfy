/**
 * Difficulty progression (backend/utils/difficulty_analyzer.py): the weekly
 * Easy/Medium/Hard mix of a member's snapshots, the ordered classification of
 * the last four weeks, and the team-level trend and stuck lists.
 */
module Difficulty {
  import opened Wrappers
  import opened Dates
  import opened Records
  import opened Sorting

  /** One week's mix; the shares are exact percentages of `total`. */
  datatype TrendEntry = TrendEntry(
    week: Day, easy: int, medium: int, hard: int, total: int,
    easyPct: real, mediumPct: real, hardPct: real)

  datatype Progression =
    | NoData | InsufficientData | StuckOnEasy | MostlyEasy | StuckOnMedium
    | ProgressingToMedium | ProgressingToHard | Advanced | Balanced

  datatype Level = Easy | Medium

  /** `current_distribution`: the counts, and the shares when there is a trend entry. */
  datatype Distribution = Distribution(easy: int, medium: int, hard: int, shares: Option<(real, real, real)>)

  /** What `calculate_difficulty_trends` returns. */
  datatype DifficultyTrends = DifficultyTrends(
    trends: seq<TrendEntry>, current: Distribution, status: Progression,
    stuckOn: Option<Level>, recommendation: string)

  /** The trend entry of a snapshot whose counts add up to a positive total. */
  function EntryOf(s: Snapshot): (e: TrendEntry)
    requires s.easy + s.medium + s.hard > 0
    ensures e.total > 0 && e.total == e.easy + e.medium + e.hard
    ensures e.easyPct + e.mediumPct + e.hardPct == 100.0
  {
    var total := s.easy + s.medium + s.hard;
    SharesAddUp(s.easy as real, s.medium as real, s.hard as real, total as real);
    TrendEntry(s.week, s.easy, s.medium, s.hard, total,
               (s.easy as real) / (total as real) * 100.0,
               (s.medium as real) / (total as real) * 100.0,
               (s.hard as real) / (total as real) * 100.0)
  }

  /** The entries of the snapshots with a positive total, in order. */
  function TrendEntries(snaps: seq<Snapshot>): (r: seq<TrendEntry>)
    ensures |r| <= |snaps|
  {
    if snaps == [] then []
    else
      var s := snaps[|snaps| - 1];
      TrendEntries(snaps[..|snaps| - 1]) + (if s.easy + s.medium + s.hard > 0 then [EntryOf(s)] else [])
  }

  lemma SharesAddUp(a: real, b: real, c: real, t: real)
    requires t > 0.0 && t == a + b + c
    ensures a / t * 100.0 + b / t * 100.0 + c / t * 100.0 == 100.0
  {
    assert a / t + b / t + c / t == (a + b + c) / t;
  }

  /** Every trend entry is the entry of a snapshot with a positive total. */
  lemma {:induction false} TrendEntriesSound(snaps: seq<Snapshot>)
    ensures forall e :: e in TrendEntries(snaps) ==>
              exists s :: s in snaps && s.easy + s.medium + s.hard > 0 && e == EntryOf(s)
  {
    if snaps != [] {
      TrendEntriesSound(snaps[..|snaps| - 1]);
      assert snaps == snaps[..|snaps| - 1] + [snaps[|snaps| - 1]];
    }
  }

  /** Every snapshot with a positive total contributes its entry. */
  lemma {:induction false} TrendEntriesComplete(snaps: seq<Snapshot>)
    ensures forall s :: s in snaps && s.easy + s.medium + s.hard > 0 ==> EntryOf(s) in TrendEntries(snaps)
  {
    if snaps != [] {
      TrendEntriesComplete(snaps[..|snaps| - 1]);
      assert snaps == snaps[..|snaps| - 1] + [snaps[|snaps| - 1]];
    }
  }

  /** Trend entries keep the snapshots' week order. */
  lemma {:induction false} TrendEntriesOrdered(snaps: seq<Snapshot>)
    requires forall i, j :: 0 <= i < j < |snaps| ==> snaps[i].week <= snaps[j].week
    ensures forall i, j :: 0 <= i < j < |TrendEntries(snaps)| ==> TrendEntries(snaps)[i].week <= TrendEntries(snaps)[j].week
  {
    if snaps != [] {
      var init := snaps[..|snaps| - 1];
      var s := snaps[|snaps| - 1];
      TrendEntriesOrdered(init);
      TrendEntriesSound(init);
      var r := TrendEntries(init);
      forall k | 0 <= k < |r| ensures r[k].week <= s.week {
        assert r[k] in r;
        var x :| x in init && x.easy + x.medium + x.hard > 0 && r[k] == EntryOf(x);
        var a :| 0 <= a < |init| && init[a] == x;
        assert snaps[a] == x;
      }
    }
  }

  function Avg4(a: real, b: real, c: real, d: real): real {
    (a + b + c + d) / 4.0
  }

  function Avg2(a: real, b: real): real {
    (a + b) / 2.0
  }

  /** `_analyze_progression`: the first matching branch over the last four entries' averages. */
  function AnalyzeProgression(trends: seq<TrendEntry>): (Progression, Option<Level>, string) {
    if |trends| < 4 then (InsufficientData, None, "Keep solving to establish a pattern")
    else
      var n := |trends|;
      var w1, w2, w3, w4 := trends[n - 4], trends[n - 3], trends[n - 2], trends[n - 1];
      var avgEasy := Avg4(w1.easyPct, w2.easyPct, w3.easyPct, w4.easyPct);
      var avgMedium := Avg4(w1.mediumPct, w2.mediumPct, w3.mediumPct, w4.mediumPct);
      var avgHard := Avg4(w1.hardPct, w2.hardPct, w3.hardPct, w4.hardPct);
      var mediumFirst, mediumLast := Avg2(w1.mediumPct, w2.mediumPct), Avg2(w3.mediumPct, w4.mediumPct);
      var hardFirst, hardLast := Avg2(w1.hardPct, w2.hardPct), Avg2(w3.hardPct, w4.hardPct);
      Classify(avgEasy, avgMedium, avgHard, mediumFirst, mediumLast, hardFirst, hardLast)
  }

  /** The branches of `_analyze_progression`, first match wins. */
  function Classify(avgEasy: real, avgMedium: real, avgHard: real, mediumFirst: real, mediumLast: real,
                    hardFirst: real, hardLast: real): (Progression, Option<Level>, string)
  {
    if avgEasy > 80.0 then (StuckOnEasy, Some(Easy), "Try solving more Medium problems to progress")
    else if avgEasy > 60.0 && avgMedium < 30.0 then (MostlyEasy, Some(Easy), "Good foundation! Start mixing in Medium problems")
    else if avgMedium > 70.0 && avgHard < 10.0 then (StuckOnMedium, Some(Medium), "You're ready for Hard problems! Try 1-2 per week")
    else if mediumLast > mediumFirst + 10.0 then (ProgressingToMedium, None, "Great progress on Medium problems! Keep it up")
    else if hardLast > hardFirst + 5.0 then (ProgressingToHard, None, "Excellent! You're tackling Hard problems")
    else if avgHard > 20.0 then (Advanced, None, "Strong performance across all difficulties!")
    else (Balanced, None, "Good mix of difficulties. Keep challenging yourself!")
  }

  predicate IsStuckStatus(p: Progression) {
    p == StuckOnEasy || p == MostlyEasy || p == StuckOnMedium
  }

  /**
   * The stuck difficulty is set exactly for the three "stuck" statuses, easy
   * for the two easy ones; fewer than four entries are insufficient data.
   */
  lemma ProgressionSpec(trends: seq<TrendEntry>)
    ensures AnalyzeProgression(trends).1.Some? <==> IsStuckStatus(AnalyzeProgression(trends).0)
    ensures AnalyzeProgression(trends).1 == Some(Easy) <==>
              AnalyzeProgression(trends).0 == StuckOnEasy || AnalyzeProgression(trends).0 == MostlyEasy
    ensures |trends| < 4 <==> AnalyzeProgression(trends).0 == InsufficientData
    ensures AnalyzeProgression(trends).0 != NoData
  {
    if |trends| >= 4 {
      var n := |trends|;
      var w1, w2, w3, w4 := trends[n - 4], trends[n - 3], trends[n - 2], trends[n - 1];
      ClassifySpec(Avg4(w1.easyPct, w2.easyPct, w3.easyPct, w4.easyPct),
                   Avg4(w1.mediumPct, w2.mediumPct, w3.mediumPct, w4.mediumPct),
                   Avg4(w1.hardPct, w2.hardPct, w3.hardPct, w4.hardPct),
                   Avg2(w1.mediumPct, w2.mediumPct), Avg2(w3.mediumPct, w4.mediumPct),
                   Avg2(w1.hardPct, w2.hardPct), Avg2(w3.hardPct, w4.hardPct));
    }
  }

  lemma ClassifySpec(avgEasy: real, avgMedium: real, avgHard: real, mediumFirst: real, mediumLast: real,
                     hardFirst: real, hardLast: real)
    ensures var c := Classify(avgEasy, avgMedium, avgHard, mediumFirst, mediumLast, hardFirst, hardLast);
      && (c.1.Some? <==> IsStuckStatus(c.0))
      && (c.1 == Some(Easy) <==> c.0 == StuckOnEasy || c.0 == MostlyEasy)
      && c.0 != NoData && c.0 != InsufficientData
      && (c.0 == StuckOnEasy <==> avgEasy > 80.0)
  {
    var c := Classify(avgEasy, avgMedium, avgHard, mediumFirst, mediumLast, hardFirst, hardLast);
    if avgEasy > 80.0 {
      assert c.0 == StuckOnEasy && c.1 == Some(Easy);
    } else if avgEasy > 60.0 && avgMedium < 30.0 {
      assert c.0 == MostlyEasy && c.1 == Some(Easy);
    } else if avgMedium > 70.0 && avgHard < 10.0 {
      assert c.0 == StuckOnMedium && c.1 == Some(Medium);
    } else {
      assert c.1 == None && !IsStuckStatus(c.0);
    }
  }

  /** A member stuck on Easy averages under 20% Medium and Hard together over the last four entries. */
  lemma StuckOnEasyAverages(trends: seq<TrendEntry>)
    requires forall e :: e in trends ==> e.easyPct + e.mediumPct + e.hardPct == 100.0
    ensures AnalyzeProgression(trends).0 == StuckOnEasy ==>
              var n := |trends|;
              Avg4(trends[n - 4].mediumPct + trends[n - 4].hardPct, trends[n - 3].mediumPct + trends[n - 3].hardPct,
                   trends[n - 2].mediumPct + trends[n - 2].hardPct, trends[n - 1].mediumPct + trends[n - 1].hardPct) < 20.0
  {
    if |trends| >= 4 {
      var n := |trends|;
      assert trends[n - 4] in trends && trends[n - 3] in trends && trends[n - 2] in trends && trends[n - 1] in trends;
    }
  }

  function ZeroDistribution(): Distribution {
    Distribution(0, 0, 0, None)
  }

  /** What `calculate_difficulty_trends(history)` returns. */
  function TrendsOf(history: seq<Snapshot>): DifficultyTrends {
    if history == [] then DifficultyTrends([], ZeroDistribution(), NoData, None, "Start solving Easy problems")
    else
      var trends := TrendEntries(SortByWeek(history));
      if trends == [] then DifficultyTrends([], ZeroDistribution(), NoData, None, "Start solving problems")
      else
        var c := trends[|trends| - 1];
        var p := AnalyzeProgression(trends);
        DifficultyTrends(trends, Distribution(c.easy, c.medium, c.hard, Some((c.easyPct, c.mediumPct, c.hardPct))),
                         p.0, p.1, p.2)
  }

  /**
   * Trends: no data for an empty history or when no week has a positive
   * total; otherwise the entries are the positive-total snapshots in week
   * order, the current distribution is the last entry's, and the stuck
   * difficulty follows the status.
   */
  lemma TrendsSpec(history: seq<Snapshot>)
    ensures history == [] ==> TrendsOf(history).status == NoData && TrendsOf(history).current == ZeroDistribution()
                              && TrendsOf(history).stuckOn == None
    ensures TrendsOf(history).status == NoData <==> TrendsOf(history).trends == []
    ensures TrendsOf(history).trends != [] ==>
              var last := TrendsOf(history).trends[|TrendsOf(history).trends| - 1];
              TrendsOf(history).current.easy == last.easy && TrendsOf(history).current.medium == last.medium &&
              TrendsOf(history).current.hard == last.hard
    ensures |TrendsOf(history).trends| < 4 ==> TrendsOf(history).stuckOn == None
    ensures TrendsOf(history).stuckOn.Some? <==> IsStuckStatus(TrendsOf(history).status)
  {
    var sorted := SortByWeek(history);
    if history != [] && TrendEntries(sorted) != [] {
      ProgressionSpec(TrendEntries(sorted));
    }
  }

  /**
   * The trend entries are the history's snapshots with solved problems, one
   * entry each, oldest week first.
   */
  lemma TrendsEntriesSpec(history: seq<Snapshot>)
    ensures forall e :: e in TrendsOf(history).trends ==>
              e.total > 0 && exists s :: s in history && s.easy + s.medium + s.hard > 0 && e == EntryOf(s)
    ensures forall s :: s in history && s.easy + s.medium + s.hard > 0 ==> EntryOf(s) in TrendsOf(history).trends
    ensures forall i, j :: 0 <= i < j < |TrendsOf(history).trends| ==>
              TrendsOf(history).trends[i].week <= TrendsOf(history).trends[j].week
  {
    var sorted := SortByWeek(history);
    TrendEntriesSound(sorted);
    TrendEntriesComplete(sorted);
    TrendEntriesOrdered(sorted);
    PermutationMembers(sorted, history);
  }

  /** `calculate_difficulty_trends`: one pass over the sorted snapshots, then the classification. */
  method CalculateDifficultyTrends(history: seq<Snapshot>) returns (r: DifficultyTrends)
    ensures r == TrendsOf(history)
  {
    if history == [] {
      return DifficultyTrends([], ZeroDistribution(), NoData, None, "Start solving Easy problems");
    }
    var trends := CollectTrendEntries(SortByWeek(history));
    if trends == [] {
      return DifficultyTrends([], ZeroDistribution(), NoData, None, "Start solving problems");
    }
    var c := trends[|trends| - 1];
    var p := AnalyzeProgression(trends);
    r := DifficultyTrends(trends, Distribution(c.easy, c.medium, c.hard, Some((c.easyPct, c.mediumPct, c.hardPct))),
                          p.0, p.1, p.2);
  }

  /** The loop of `calculate_difficulty_trends`: an entry for every sorted snapshot with solved problems. */
  method CollectTrendEntries(sorted: seq<Snapshot>) returns (trends: seq<TrendEntry>)
    ensures trends == TrendEntries(sorted)
  {
    trends := [];
    var i := 0;
    while i < |sorted|
      invariant 0 <= i <= |sorted|
      invariant trends == TrendEntries(sorted[..i])
    {
      assert sorted[..i + 1][..i] == sorted[..i];
      var s := sorted[i];
      if s.easy + s.medium + s.hard > 0 {
        trends := trends + [EntryOf(s)];
      }
      i := i + 1;
    }
    assert sorted[..i] == sorted;
  }

  /** One entry of `get_team_difficulty_trends`. */
  datatype MemberTrends = MemberTrends(member: string, trends: DifficultyTrends)

  /** `get_team_difficulty_trends`: one entry per member, in history order. */
  method GetTeamDifficultyTrends(h: Ordered<seq<Snapshot>>) returns (team: seq<MemberTrends>)
    ensures |team| == |h|
    ensures forall i :: 0 <= i < |h| ==> team[i] == MemberTrends(h[i].0, TrendsOf(h[i].1))
  {
    team := [];
    var i := 0;
    while i < |h|
      invariant 0 <= i <= |h|
      invariant |team| == i
      invariant forall k :: 0 <= k < i ==> team[k] == MemberTrends(h[k].0, TrendsOf(h[k].1))
    {
      var r := CalculateDifficultyTrends(h[i].1);
      team := team + [MemberTrends(h[i].0, r)];
      i := i + 1;
    }
  }

  /** One entry of `get_stuck_members`. */
  datatype StuckMember = StuckMember(
    member: string, stuckOn: Level, status: Progression, recommendation: string, current: Distribution)

  function StuckEntries(team: seq<MemberTrends>): (r: seq<StuckMember>)
    ensures |r| <= |team|
  {
    if team == [] then []
    else
      var t := team[|team| - 1];
      StuckEntries(team[..|team| - 1]) +
      (if t.trends.stuckOn.Some?
       then [StuckMember(t.member, t.trends.stuckOn.value, t.trends.status, t.trends.recommendation, t.trends.current)]
       else [])
  }

  /** The stuck list has exactly one entry per member with a stuck difficulty, carrying that member's data. */
  lemma {:induction false} StuckEntriesSpec(team: seq<MemberTrends>)
    ensures forall s :: s in StuckEntries(team) ==>
              exists t :: t in team && t.member == s.member && t.trends.stuckOn == Some(s.stuckOn) && t.trends.status == s.status
    ensures forall t :: t in team && t.trends.stuckOn.Some? ==>
              StuckMember(t.member, t.trends.stuckOn.value, t.trends.status, t.trends.recommendation, t.trends.current)
                in StuckEntries(team)
    ensures (forall t :: t in team ==> t.trends.stuckOn == None) ==> StuckEntries(team) == []
  {
    if team != [] {
      var init := team[..|team| - 1];
      var t := team[|team| - 1];
      StuckEntriesSpec(init);
      assert team == init + [t];
      var r := StuckEntries(team);
      var earlier := StuckEntries(init);
      if t.trends.stuckOn.Some? {
        var entry := StuckMember(t.member, t.trends.stuckOn.value, t.trends.status, t.trends.recommendation, t.trends.current);
        assert r == earlier + [entry];
        forall s | s in r
          ensures exists u :: u in team && u.member == s.member && u.trends.stuckOn == Some(s.stuckOn) && u.trends.status == s.status
        {
          if s in earlier {
            var u :| u in init && u.member == s.member && u.trends.stuckOn == Some(s.stuckOn) && u.trends.status == s.status;
            assert u in team;
          } else {
            assert s == entry && t in team;
          }
        }
      } else {
        assert r == earlier;
        forall s | s in r
          ensures exists u :: u in team && u.member == s.member && u.trends.stuckOn == Some(s.stuckOn) && u.trends.status == s.status
        {
          var u :| u in init && u.member == s.member && u.trends.stuckOn == Some(s.stuckOn) && u.trends.status == s.status;
          assert u in team;
        }
      }
    }
  }

  /** `get_stuck_members`: appends an entry for every member with a stuck difficulty. */
  method GetStuckMembers(team: seq<MemberTrends>) returns (stuck: seq<StuckMember>)
    ensures stuck == StuckEntries(team)
  {
    stuck := [];
    var i := 0;
    while i < |team|
      invariant 0 <= i <= |team|
      invariant stuck == StuckEntries(team[..i])
    {
      assert team[..i + 1][..i] == team[..i];
      var t := team[i];
      if t.trends.stuckOn.Some? {
        stuck := stuck + [StuckMember(t.member, t.trends.stuckOn.value, t.trends.status, t.trends.recommendation, t.trends.current)];
      }
      i := i + 1;
    }
    assert team[..i] == team;
  }
}
