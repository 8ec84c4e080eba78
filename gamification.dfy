/**
 * The gamification service: a daily activity table, per-member point totals
 * with an audit trail of transactions, unlocked achievements, daily streaks
 * and the points leaderboard. The SQL tables are fields of the service:
 * `daily_streaks` and `user_points` as lists of rows keyed by their UNIQUE
 * columns, `point_transactions` as a list, and `user_achievements` as a set
 * of (username, key) pairs. The date "today" is a parameter.
 */
module Gamification {
  import opened Wrappers
  import opened Dates
  import opened Sorting
  import opened PySeq

  /** The point values the service advertises per kind of credit. */
  const PointValues: map<string, nat> := map[
    "easy" := 1, "medium" := 3, "hard" := 5,
    "daily_challenge" := 10, "streak_bonus" := 2, "first_daily_solver" := 5]

  // ------------------------------------------------------------ daily rows

  /** A `daily_streaks` row; (username, date) is unique. */
  datatype DayRow = DayRow(username: string, date: Day, problemsSolved: int, challengeCompleted: bool)

  function IsRowFor(username: string, date: Day): DayRow -> bool {
    (row: DayRow) => row.username == username && row.date == date
  }

  ghost predicate UniqueDays(rows: seq<DayRow>) {
    forall i, j :: 0 <= i < j < |rows| ==> IsRowFor(rows[i].username, rows[i].date)(rows[j]) == false
  }

  /** The stored row for (username, date), if any. */
  function DayRowOf(rows: seq<DayRow>, username: string, date: Day): Option<DayRow> {
    match FirstIndex(rows, IsRowFor(username, date))
    case None => None
    case Some(i) => Some(rows[i])
  }

  /**
   * The `INSERT ... ON CONFLICT(username, date) DO UPDATE`: a fresh row, or
   * the stored row with `solved` added and the challenge flag replaced.
   */
  function UpsertDay(rows: seq<DayRow>, username: string, date: Day, solved: int, challenge: bool): seq<DayRow> {
    match FirstIndex(rows, IsRowFor(username, date))
    case None => rows + [DayRow(username, date, solved, challenge)]
    case Some(i) => rows[i := rows[i].(problemsSolved := rows[i].problemsSolved + solved, challengeCompleted := challenge)]
  }

  /**
   * After the upsert the row for (username, date) holds the earlier count plus
   * `solved` and exactly the new challenge flag (a completed challenge can be
   * reset to not completed); every other row reads as before; keys stay unique.
   */
  lemma UpsertDaySpec(rows: seq<DayRow>, username: string, date: Day, solved: int, challenge: bool)
    ensures var before := match DayRowOf(rows, username, date) case None => 0 case Some(row) => row.problemsSolved;
      DayRowOf(UpsertDay(rows, username, date, solved, challenge), username, date)
        == Some(DayRow(username, date, before + solved, challenge))
    ensures forall u, d :: (u, d) != (username, date) ==>
      DayRowOf(UpsertDay(rows, username, date, solved, challenge), u, d) == DayRowOf(rows, u, d)
    ensures UniqueDays(rows) ==> UniqueDays(UpsertDay(rows, username, date, solved, challenge))
  {
    var r := UpsertDay(rows, username, date, solved, challenge);
    var here := IsRowFor(username, date);
    match FirstIndex(rows, here)
    case None =>
      FirstIndexAppend(rows, DayRow(username, date, solved, challenge), here);
      forall u, d | (u, d) != (username, date) ensures DayRowOf(r, u, d) == DayRowOf(rows, u, d) {
        FirstIndexSame(rows, r, IsRowFor(u, d));
      }
    case Some(i) =>
      FirstIndexSame(rows, r, here);
      forall u, d | (u, d) != (username, date) ensures DayRowOf(r, u, d) == DayRowOf(rows, u, d) {
        FirstIndexSame(rows, r, IsRowFor(u, d));
      }
  }

  /** A day counts as active when something was solved or the daily challenge was done. */
  predicate Active(row: DayRow) {
    row.problemsSolved > 0 || row.challengeCompleted
  }

  /** The member's active dates, in row order. */
  function ActiveDates(rows: seq<DayRow>, username: string): (r: seq<Day>)
    ensures forall d :: d in r <==>
      exists i :: 0 <= i < |rows| && rows[i].username == username && rows[i].date == d && Active(rows[i])
  {
    if rows == [] then []
    else
      var init := rows[..|rows| - 1];
      var last := rows[|rows| - 1];
      assert forall i :: 0 <= i < |init| ==> init[i] == rows[i];
      ActiveDates(init, username) + (if last.username == username && Active(last) then [last.date] else [])
  }

  ghost function ActiveDays(rows: seq<DayRow>, username: string): set<Day> {
    set d | d in ActiveDates(rows, username)
  }

  /** `SELECT date ... ORDER BY date ASC` over the member's active rows (dates are unique per member). */
  function DatesAscending(rows: seq<DayRow>, username: string): (ds: seq<Day>)
    ensures forall i, j :: 0 <= i < j < |ds| ==> ds[i] < ds[j]
    ensures forall d :: d in ds <==> d in ActiveDates(rows, username)
  {
    SortedDistinct(ActiveDates(rows, username))
  }

  function Reverse(s: seq<Day>): (r: seq<Day>)
    ensures |r| == |s|
    ensures forall i :: 0 <= i < |s| ==> r[i] == s[|s| - 1 - i]
  {
    if s == [] then [] else Reverse(s[1..]) + [s[0]]
  }

  /** `SELECT date ... ORDER BY date DESC` */
  function DatesDescending(rows: seq<DayRow>, username: string): (ds: seq<Day>)
    ensures forall i, j :: 0 <= i < j < |ds| ==> ds[i] > ds[j]
    ensures forall d :: d in ds <==> d in ActiveDates(rows, username)
  {
    var asc := DatesAscending(rows, username);
    var r := Reverse(asc);
    assert forall d :: d in r ==> d in asc by {
      forall d | d in r ensures d in asc {
        var i :| 0 <= i < |r| && r[i] == d;
        assert asc[|asc| - 1 - i] == d;
      }
    }
    assert forall d :: d in asc ==> d in r by {
      forall d | d in asc ensures d in r {
        var i :| 0 <= i < |asc| && asc[i] == d;
        assert r[|asc| - 1 - i] == d;
      }
    }
    r
  }

  // -------------------------------------------------------------- streaks

  ghost function Elements(s: seq<Day>): set<Day> {
    set d | d in s
  }

  /** Every day of the `len` days ending on `end` is active. */
  ghost predicate DayRun(days: set<Day>, end: Day, len: nat) {
    forall d :: end - len < d <= end ==> d in days
  }

  /** A non-empty run contains its last day. */
  lemma DayRunEnd(days: set<Day>, end: Day, len: nat)
    requires DayRun(days, end, len)
    ensures len == 0 || end in days
  {
  }

  /** How far the dates, newest first, keep matching today, yesterday, ... from position k on. */
  function CurrentRun(desc: seq<Day>, today: Day, k: nat): (r: nat)
    requires k <= |desc|
    ensures k <= r <= |desc|
    decreases |desc| - k
  {
    if k < |desc| && desc[k] == today - k then CurrentRun(desc, today, k + 1) else k
  }

  /** `get_current_streak` */
  function CurrentDailyStreak(rows: seq<DayRow>, username: string, today: Day): nat {
    CurrentRun(DatesDescending(rows, username), today, 0)
  }

  lemma {:induction false} CurrentRunMatches(desc: seq<Day>, today: Day, k: nat)
    requires k <= |desc|
    requires forall j :: 0 <= j < k ==> desc[j] == today - j
    ensures forall j :: 0 <= j < CurrentRun(desc, today, k) ==> desc[j] == today - j
    ensures CurrentRun(desc, today, k) < |desc| ==> desc[CurrentRun(desc, today, k)] != today - CurrentRun(desc, today, k)
    decreases |desc| - k
  {
    if k < |desc| && desc[k] == today - k {
      CurrentRunMatches(desc, today, k + 1);
    }
  }

  lemma ActiveDaysAreDates(rows: seq<DayRow>, username: string)
    ensures ActiveDays(rows, username) == Elements(DatesDescending(rows, username))
    ensures ActiveDays(rows, username) == Elements(DatesAscending(rows, username))
  {
  }

  /** The `while` loop of `get_current_streak`: counts the dates, newest first, that match today, yesterday, ... */
  method WalkBackFromToday(dates: seq<Day>, today: Day) returns (streak: nat)
    ensures streak == CurrentRun(dates, today, 0)
  {
    if |dates| == 0 {
      return 0;
    }
    streak := 0;
    while streak < |dates|
      invariant streak <= |dates|
      invariant CurrentRun(dates, today, streak) == CurrentRun(dates, today, 0)
      decreases |dates| - streak
    {
      if dates[streak] == today - streak {
        streak := streak + 1;
      } else {
        break;
      }
    }
  }

  /** The days the dates, newest first, match back from today are all among them. */
  lemma CurrentRunIsRun(desc: seq<Day>, today: Day)
    ensures DayRun(Elements(desc), today, CurrentRun(desc, today, 0))
  {
    var r := CurrentRun(desc, today, 0);
    CurrentRunMatches(desc, today, 0);
    forall d | today - r < d <= today ensures d in Elements(desc) {
      assert desc[today - d] == d;
    }
  }

  /** With no date after today, the day just before the matched ones is not among the dates. */
  lemma CurrentRunStops(desc: seq<Day>, today: Day)
    requires forall i, j :: 0 <= i < j < |desc| ==> desc[i] > desc[j]
    requires forall m :: 0 <= m < |desc| ==> desc[m] <= today
    ensures today - CurrentRun(desc, today, 0) !in desc
  {
    var r := CurrentRun(desc, today, 0);
    CurrentRunMatches(desc, today, 0);
    forall m | 0 <= m < |desc| ensures desc[m] != today - r {
      if m < r {
        assert desc[m] == today - m;
      } else if m > r {
        assert desc[r] > desc[m];
        if r > 0 {
          assert desc[r - 1] > desc[r];
        }
      }
    }
  }

  /** A date after today, newest first, stops the walk at once. */
  lemma CurrentRunFuture(desc: seq<Day>, today: Day, m: nat)
    requires forall i, j :: 0 <= i < j < |desc| ==> desc[i] > desc[j]
    requires m < |desc| && desc[m] > today
    ensures CurrentRun(desc, today, 0) == 0
  {
    if m > 0 {
      assert desc[0] > desc[m];
    }
  }

  /**
   * The current streak is the number of consecutive active days ending
   * exactly today: all of them are active and the day before them is not. An
   * active day after today (a clock that went back) makes it 0.
   */
  lemma CurrentDailyStreakMeaning(rows: seq<DayRow>, username: string, today: Day)
    ensures DayRun(ActiveDays(rows, username), today, CurrentDailyStreak(rows, username, today))
    ensures (forall d :: d in ActiveDays(rows, username) ==> d <= today) ==>
      today - CurrentDailyStreak(rows, username, today) !in ActiveDays(rows, username)
    ensures (exists d :: d in ActiveDays(rows, username) && d > today) ==>
      CurrentDailyStreak(rows, username, today) == 0
  {
    ActiveDaysAreDates(rows, username);
    CurrentRunMeaning(DatesDescending(rows, username), today);
  }

  /** The walk over strictly descending dates, stated over the set of those dates. */
  lemma CurrentRunMeaning(desc: seq<Day>, today: Day)
    requires forall i, j :: 0 <= i < j < |desc| ==> desc[i] > desc[j]
    ensures DayRun(Elements(desc), today, CurrentRun(desc, today, 0))
    ensures (forall d :: d in Elements(desc) ==> d <= today) ==> today - CurrentRun(desc, today, 0) !in Elements(desc)
    ensures (exists d :: d in Elements(desc) && d > today) ==> CurrentRun(desc, today, 0) == 0
  {
    CurrentRunIsRun(desc, today);
    if forall d :: d in Elements(desc) ==> d <= today {
      assert forall m :: 0 <= m < |desc| ==> desc[m] in Elements(desc);
      CurrentRunStops(desc, today);
    }
    if exists d :: d in Elements(desc) && d > today {
      var d :| d in Elements(desc) && d > today;
      var m :| 0 <= m < |desc| && desc[m] == d;
      CurrentRunFuture(desc, today, m);
    }
  }

  /** The length of the run of consecutive days that ends at position j of an ascending list. */
  function RunEnd(asc: seq<Day>, j: nat): (r: nat)
    requires j < |asc|
    ensures 1 <= r <= j + 1
  {
    if j == 0 || asc[j] != asc[j - 1] + 1 then 1 else RunEnd(asc, j - 1) + 1
  }

  /** The longest run ending within the first n positions. */
  function MaxRun(asc: seq<Day>, n: nat): (r: nat)
    requires 1 <= n <= |asc|
    ensures 1 <= r <= n
  {
    if n == 1 then 1 else Max(MaxRun(asc, n - 1), RunEnd(asc, n - 1))
  }

  /** The loop of `get_longest_streak` over the ascending dates. */
  method LongestRunIn(dates: seq<Day>) returns (longest: nat)
    requires dates != []
    ensures longest == MaxRun(dates, |dates|)
  {
    var maxStreak := 1;
    var current := 1;
    for i := 1 to |dates|
      invariant current == RunEnd(dates, i - 1)
      invariant maxStreak == MaxRun(dates, i)
    {
      if dates[i] == dates[i - 1] + 1 {
        current := current + 1;
        maxStreak := Max(maxStreak, current);
      } else {
        current := 1;
      }
    }
    longest := maxStreak;
  }

  /** `get_longest_streak` */
  function LongestDailyStreak(rows: seq<DayRow>, username: string): nat {
    var asc := DatesAscending(rows, username);
    if asc == [] then 0 else MaxRun(asc, |asc|)
  }

  lemma {:induction false} RunEndIsRun(asc: seq<Day>, j: nat)
    requires j < |asc|
    requires forall a, b :: 0 <= a < b < |asc| ==> asc[a] < asc[b]
    ensures DayRun(Elements(asc), asc[j], RunEnd(asc, j))
  {
    if j > 0 && asc[j] == asc[j - 1] + 1 {
      RunEndIsRun(asc, j - 1);
    }
  }

  /** In a strictly increasing list, order and equality of values are order and equality of positions. */
  lemma IncreasingIndex(asc: seq<Day>, a: nat, b: nat)
    requires a < |asc| && b < |asc|
    requires forall x, y :: 0 <= x < y < |asc| ==> asc[x] < asc[y]
    ensures asc[a] < asc[b] ==> a < b
    ensures asc[a] == asc[b] ==> a == b
  {
  }

  lemma {:induction false} RunWithinRunEnd(asc: seq<Day>, j: nat, len: nat)
    requires j < |asc|
    requires forall a, b :: 0 <= a < b < |asc| ==> asc[a] < asc[b]
    requires DayRun(Elements(asc), asc[j], len)
    ensures len <= RunEnd(asc, j)
  {
    if len >= 2 {
      var prev := asc[j] - 1;
      assert prev in Elements(asc);
      var m :| 0 <= m < |asc| && asc[m] == prev;
      IncreasingIndex(asc, m, j);
      IncreasingIndex(asc, j - 1, m);
      assert m == j - 1;
      RunWithinRunEnd(asc, j - 1, len - 1);
    }
  }

  lemma {:induction false} MaxRunBounds(asc: seq<Day>, n: nat)
    requires 1 <= n <= |asc|
    ensures forall j :: 0 <= j < n ==> RunEnd(asc, j) <= MaxRun(asc, n)
    ensures exists j :: 0 <= j < n && RunEnd(asc, j) == MaxRun(asc, n)
  {
    if n == 1 {
      assert RunEnd(asc, 0) == 1;
    } else {
      MaxRunBounds(asc, n - 1);
    }
  }

  /**
   * The longest streak is the length of the longest run of consecutive
   * active days: some run is that long, none is longer, and it is 0 exactly
   * when no day is active.
   */
  lemma LongestDailyStreakMeaning(rows: seq<DayRow>, username: string)
    ensures LongestDailyStreak(rows, username) == 0 <==> ActiveDays(rows, username) == {}
    ensures forall end, len: nat :: DayRun(ActiveDays(rows, username), end, len) ==> len <= LongestDailyStreak(rows, username)
    ensures LongestDailyStreak(rows, username) > 0 ==>
      exists end :: DayRun(ActiveDays(rows, username), end, LongestDailyStreak(rows, username))
  {
    var asc := DatesAscending(rows, username);
    var days := ActiveDays(rows, username);
    ActiveDaysAreDates(rows, username);
    var longest := LongestDailyStreak(rows, username);
    if asc == [] {
      forall end, len: nat | DayRun(days, end, len) ensures len <= longest {
        DayRunEnd(days, end, len);
      }
    } else {
      assert asc[0] in days;
      MaxRunBounds(asc, |asc|);
      var j :| 0 <= j < |asc| && RunEnd(asc, j) == longest;
      RunEndIsRun(asc, j);
      forall end, len: nat | DayRun(days, end, len) ensures len <= longest {
        if len > 0 {
          assert end in days;
          var m :| 0 <= m < |asc| && asc[m] == end;
          RunWithinRunEnd(asc, m, len);
        }
      }
    }
  }

  /** The current streak never exceeds the longest streak. */
  lemma CurrentAtMostLongest(rows: seq<DayRow>, username: string, today: Day)
    ensures CurrentDailyStreak(rows, username, today) <= LongestDailyStreak(rows, username)
  {
    CurrentDailyStreakMeaning(rows, username, today);
    LongestDailyStreakMeaning(rows, username);
  }

  // --------------------------------------------------------------- points

  /** A `user_points` row; username is unique. */
  datatype PointsRow = PointsRow(username: string, points: int, weekly: int, monthly: int, allTime: int)

  function IsPointsOf(username: string): PointsRow -> bool {
    (row: PointsRow) => row.username == username
  }

  ghost predicate UniqueUsers(rows: seq<PointsRow>) {
    forall i, j :: 0 <= i < j < |rows| ==> rows[i].username != rows[j].username
  }

  /** `get_user_points`: the member's totals, all 0 when there is no row. */
  function PointsOf(rows: seq<PointsRow>, username: string): (r: PointsRow)
    ensures r.username == username
  {
    match FirstIndex(rows, IsPointsOf(username))
    case None => PointsRow(username, 0, 0, 0, 0)
    case Some(i) => rows[i]
  }

  /** The `user_points` upsert: `points` added to all four totals. */
  function AddPoints(rows: seq<PointsRow>, username: string, points: int): seq<PointsRow> {
    match FirstIndex(rows, IsPointsOf(username))
    case None => rows + [PointsRow(username, points, points, points, points)]
    case Some(i) =>
      var row := rows[i];
      rows[i := row.(points := row.points + points, weekly := row.weekly + points,
                     monthly := row.monthly + points, allTime := row.allTime + points)]
  }

  /** Awarding adds the same amount to each of the member's four totals and changes nobody else's. */
  lemma AddPointsSpec(rows: seq<PointsRow>, username: string, points: int)
    ensures var before := PointsOf(rows, username);
      PointsOf(AddPoints(rows, username, points), username)
        == PointsRow(username, before.points + points, before.weekly + points,
                     before.monthly + points, before.allTime + points)
    ensures forall u :: u != username ==> PointsOf(AddPoints(rows, username, points), u) == PointsOf(rows, u)
    ensures UniqueUsers(rows) ==> UniqueUsers(AddPoints(rows, username, points))
  {
    var r := AddPoints(rows, username, points);
    var here := IsPointsOf(username);
    match FirstIndex(rows, here)
    case None =>
      FirstIndexAppend(rows, PointsRow(username, points, points, points, points), here);
      forall u | u != username ensures PointsOf(r, u) == PointsOf(rows, u) {
        FirstIndexSame(rows, r, IsPointsOf(u));
      }
    case Some(i) =>
      FirstIndexSame(rows, r, here);
      forall u | u != username ensures PointsOf(r, u) == PointsOf(rows, u) {
        FirstIndexSame(rows, r, IsPointsOf(u));
      }
  }

  /** A `point_transactions` row. */
  datatype Transaction = Transaction(
    username: string, points: int, reason: string, problemTitle: Option<string>, difficulty: Option<string>)

  // ---------------------------------------------------------- achievements

  /** The statistics the achievement thresholds look at. */
  datatype Stats = Stats(streak: nat, problems: nat, dailyChallenges: nat, hardProblems: nat)

  datatype Measure = StreakDays | ProblemsSolved | DailyChallenges | HardProblems

  function Value(s: Stats, m: Measure): nat {
    match m
    case StreakDays => s.streak
    case ProblemsSolved => s.problems
    case DailyChallenges => s.dailyChallenges
    case HardProblems => s.hardProblems
  }

  datatype Rule = Rule(key: string, measure: Measure, threshold: nat)

  /** The achievements checked, in the order they are checked. */
  const Rules: seq<Rule> := [
    Rule("streak_7", StreakDays, 7), Rule("streak_30", StreakDays, 30), Rule("streak_100", StreakDays, 100),
    Rule("problems_10", ProblemsSolved, 10), Rule("problems_50", ProblemsSolved, 50),
    Rule("problems_100", ProblemsSolved, 100), Rule("problems_500", ProblemsSolved, 500),
    Rule("daily_7", DailyChallenges, 7), Rule("daily_30", DailyChallenges, 30),
    Rule("hard_10", HardProblems, 10), Rule("hard_50", HardProblems, 50)]

  /** `achievements_to_check`: each rule's key with whether the statistics meet its threshold. */
  function Checks(s: Stats, rules: seq<Rule>): (c: seq<(string, bool)>)
    ensures |c| == |rules|
    ensures forall i :: 0 <= i < |rules| ==> c[i] == (rules[i].key, Value(s, rules[i].measure) >= rules[i].threshold)
  {
    if rules == [] then []
    else
      var r := rules[|rules| - 1];
      Checks(s, rules[..|rules| - 1]) + [(r.key, Value(s, r.measure) >= r.threshold)]
  }

  /** The keys of the checks that hold, in order. */
  function KeysWhere(checks: seq<(string, bool)>): (r: seq<string>)
    ensures forall k :: k in r <==> exists i :: 0 <= i < |checks| && checks[i] == (k, true)
  {
    if checks == [] then []
    else
      var init := checks[..|checks| - 1];
      var c := checks[|checks| - 1];
      assert forall i :: 0 <= i < |init| ==> init[i] == checks[i];
      KeysWhere(init) + (if c.1 then [c.0] else [])
  }

  /** The keys whose threshold the statistics meet, in checking order. */
  function Earned(s: Stats): seq<string> {
    KeysWhere(Checks(s, Rules))
  }

  /** The rule keys are distinct. */
  lemma RuleKeysDistinct()
    ensures forall i, j :: 0 <= i < j < |Rules| ==> Rules[i].key != Rules[j].key
  {
  }

  /** An achievement is earned exactly when the statistics meet its threshold. */
  lemma EarnedSpec(s: Stats)
    ensures forall i :: 0 <= i < |Rules| ==>
      (Rules[i].key in Earned(s) <==> Value(s, Rules[i].measure) >= Rules[i].threshold)
  {
    var checks := Checks(s, Rules);
    RuleKeysDistinct();
    forall i | 0 <= i < |Rules| ensures Rules[i].key in Earned(s) <==> Value(s, Rules[i].measure) >= Rules[i].threshold {
      if Rules[i].key in Earned(s) {
        var k :| 0 <= k < |checks| && checks[k] == (Rules[i].key, true);
        assert Rules[k].key == Rules[i].key;
      }
    }
  }

  /** Within one measure the rules come in increasing thresholds. */
  lemma RulesAreTiered()
    ensures forall i, j :: 0 <= i < j < |Rules| && Rules[i].measure == Rules[j].measure ==>
      Rules[i].threshold < Rules[j].threshold
  {
  }

  /** Earning a higher tier of a measure means earning every lower tier too. */
  lemma EarnedIsTiered(s: Stats)
    ensures forall i, j :: 0 <= i < j < |Rules| && Rules[i].measure == Rules[j].measure && Rules[j].key in Earned(s) ==>
      Rules[i].key in Earned(s)
  {
    EarnedSpec(s);
    RulesAreTiered();
  }

  /** One check of the unlock loop: it adds its key exactly when it holds and the key is not held yet. */
  lemma UnlockStep(checks: seq<(string, bool)>, i: nat, unlocked: set<(string, string)>, username: string)
    requires i < |checks|
    requires forall a, b :: 0 <= a < b < |checks| ==> checks[a].0 != checks[b].0
    ensures var earlier := NewUnlocks(KeysWhere(checks[..i]), unlocked, username);
      NewUnlocks(KeysWhere(checks[..i + 1]), unlocked, username) ==
        earlier + (if checks[i].1 && (username, checks[i].0) !in WithUnlocks(unlocked, username, earlier) then [checks[i].0] else [])
  {
    var key, condition := checks[i].0, checks[i].1;
    var keys := KeysWhere(checks[..i]);
    var earlier := NewUnlocks(keys, unlocked, username);
    assert checks[..i + 1][..i] == checks[..i];
    if condition {
      assert KeysWhere(checks[..i + 1]) == keys + [key];
      FilterConcat(keys, [key], NotUnlocked(unlocked, username));
      assert [key][..0] == [];
      assert key !in keys by {
        forall j | 0 <= j < i ensures checks[..i][j] != (key, true) {
          assert checks[..i][j] == checks[j];
        }
      }
      assert key !in earlier;
    } else {
      assert KeysWhere(checks[..i + 1]) == keys;
    }
  }

  lemma WithUnlocksAppend(unlocked: set<(string, string)>, username: string, keys: seq<string>, key: string)
    ensures WithUnlocks(unlocked, username, keys + [key]) == WithUnlocks(unlocked, username, keys) + {(username, key)}
  {
  }

  function NotUnlocked(unlocked: set<(string, string)>, username: string): string -> bool {
    (key: string) => (username, key) !in unlocked
  }

  /** The keys a check unlocks: the earned ones the member does not have yet, in checking order. */
  function NewUnlocks(earned: seq<string>, unlocked: set<(string, string)>, username: string): seq<string> {
    Filter(earned, NotUnlocked(unlocked, username))
  }

  function WithUnlocks(unlocked: set<(string, string)>, username: string, keys: seq<string>): set<(string, string)> {
    unlocked + set k | k in keys :: (username, k)
  }

  /**
   * Unlocks are only added; a check unlocks exactly the earned keys not held
   * before; afterwards every earned key is held, so a second check on the same
   * statistics unlocks nothing.
   */
  lemma NewUnlocksSpec(earned: seq<string>, unlocked: set<(string, string)>, username: string)
    ensures unlocked <= WithUnlocks(unlocked, username, NewUnlocks(earned, unlocked, username))
    ensures forall k :: k in NewUnlocks(earned, unlocked, username) <==> k in earned && (username, k) !in unlocked
    ensures forall k :: k in earned ==> (username, k) in WithUnlocks(unlocked, username, NewUnlocks(earned, unlocked, username))
    ensures NewUnlocks(earned, WithUnlocks(unlocked, username, NewUnlocks(earned, unlocked, username)), username) == []
  {
    var after := WithUnlocks(unlocked, username, NewUnlocks(earned, unlocked, username));
    forall k | k in earned ensures (username, k) in after {
      if (username, k) !in unlocked {
        assert k in NewUnlocks(earned, unlocked, username);
      }
    }
    var again := NewUnlocks(earned, after, username);
    if again != [] {
      assert again[0] in again;
    }
  }

  function HasTitle(username: string): Transaction -> bool {
    (t: Transaction) => t.username == username && t.problemTitle.Some?
  }

  function IsHard(username: string): Transaction -> bool {
    (t: Transaction) => t.username == username && t.difficulty == Some("Hard")
  }

  function ChallengeDay(username: string): DayRow -> bool {
    (row: DayRow) => row.username == username && row.challengeCompleted
  }

  /** The statistics `check_achievements` gathers from the tables. */
  function StatsOf(rows: seq<DayRow>, transactions: seq<Transaction>, username: string, today: Day): Stats {
    Stats(CurrentDailyStreak(rows, username, today),
          |Filter(transactions, HasTitle(username))|,
          |Filter(rows, ChallengeDay(username))|,
          |Filter(transactions, IsHard(username))|)
  }

  // -------------------------------------------------------------- board

  datatype Period = Weekly | Monthly | AllTime

  /** The leaderboard column for a period name; any other name means weekly. */
  function PeriodOf(period: string): (p: Period)
    ensures p == Monthly <==> period == "monthly"
    ensures p == AllTime <==> period == "all_time"
  {
    if period == "monthly" then Monthly else if period == "all_time" then AllTime else Weekly
  }

  function Column(p: Period): PointsRow -> int {
    match p
    case Weekly => (row: PointsRow) => row.weekly
    case Monthly => (row: PointsRow) => row.monthly
    case AllTime => (row: PointsRow) => row.allTime
  }

  /** SQL `LIMIT n`: a negative limit means no limit. */
  function SqlLimit<T>(s: seq<T>, n: int): (r: seq<T>)
    ensures r <= s
    ensures n >= 0 ==> |r| == (if n < |s| then n else |s|)
    ensures n < 0 ==> r == s
  {
    if n < 0 then s else Take(s, n)
  }

  /** One leaderboard line. */
  datatype Standing = Standing(rank: nat, username: string, points: int)

  /** Numbers the rows 1, 2, 3, ... with the chosen column as their points. */
  function Ranked(rows: seq<PointsRow>, key: PointsRow -> int): (r: seq<Standing>)
    ensures |r| == |rows|
    ensures forall i :: 0 <= i < |rows| ==> r[i] == Standing(i + 1, rows[i].username, key(rows[i]))
  {
    if rows == [] then []
    else Ranked(rows[..|rows| - 1], key) + [Standing(|rows|, rows[|rows| - 1].username, key(rows[|rows| - 1]))]
  }

  /** The leaderboard the query yields for a table of point rows. */
  function Leaderboard(rows: seq<PointsRow>, period: string, limit: int): seq<Standing> {
    var key := Column(PeriodOf(period));
    Ranked(SqlLimit(SortBy(rows, Descending(key)), limit), key)
  }

  /**
   * min(limit, rows) lines (every row for a negative limit), ranked 1, 2, 3,
   * ... with points never increasing down the board, each line a member's
   * row read in the period's column, and no member left off the board with
   * more points than the last line.
   */
  lemma LeaderboardSpec(rows: seq<PointsRow>, period: string, limit: int)
    ensures var board := Leaderboard(rows, period, limit);
      |board| <= |rows| && (limit >= 0 ==> |board| <= limit) && (limit < 0 ==> |board| == |rows|)
    ensures var board := Leaderboard(rows, period, limit);
      limit >= 0 ==> (|board| == if limit < |rows| then limit else |rows|)
    ensures var board := Leaderboard(rows, period, limit);
      forall row :: row in rows && board != [] && (forall i :: 0 <= i < |board| ==> board[i].username != row.username) ==>
        Column(PeriodOf(period))(row) <= board[|board| - 1].points
    ensures var board := Leaderboard(rows, period, limit);
      forall i :: 0 <= i < |board| ==> board[i].rank == i + 1
    ensures var board := Leaderboard(rows, period, limit);
      forall i, j :: 0 <= i < j < |board| ==> board[i].points >= board[j].points
    ensures var board := Leaderboard(rows, period, limit);
      forall i :: 0 <= i < |board| ==>
        exists row :: row in rows && row.username == board[i].username && board[i].points == Column(PeriodOf(period))(row)
  {
    var key := Column(PeriodOf(period));
    var sorted := SortBy(rows, Descending(key));
    SortDescending(rows, key);
    PermutationMembers(sorted, rows);
    var top := SqlLimit(sorted, limit);
    var board := Leaderboard(rows, period, limit);
    forall i | 0 <= i < |board|
      ensures exists row :: row in rows && row.username == board[i].username && board[i].points == key(row)
    {
      assert top[i] == sorted[i];
      assert sorted[i] in rows;
    }
    LeaderboardTop(rows, period, limit);
  }

  /** No row whose member is left off the board has more points than the last line. */
  lemma LeaderboardTop(rows: seq<PointsRow>, period: string, limit: int)
    ensures var board := Leaderboard(rows, period, limit);
      forall row :: row in rows && board != [] && (forall i :: 0 <= i < |board| ==> board[i].username != row.username) ==>
        Column(PeriodOf(period))(row) <= board[|board| - 1].points
  {
    var key := Column(PeriodOf(period));
    var sorted := SortBy(rows, Descending(key));
    SortDescending(rows, key);
    PermutationMembers(sorted, rows);
    var top := SqlLimit(sorted, limit);
    PrefixTop(sorted, top, key);
  }

  // ------------------------------------------------------------ service

  class GamificationService {
    var dailyRows: seq<DayRow>
    var pointRows: seq<PointsRow>
    var transactions: seq<Transaction>
    var unlocked: set<(string, string)>

    ghost predicate Valid()
      reads this
    {
      UniqueDays(dailyRows) && UniqueUsers(pointRows)
    }

    constructor ()
      ensures Valid()
      ensures dailyRows == [] && pointRows == [] && transactions == [] && unlocked == {}
    {
      dailyRows := [];
      pointRows := [];
      transactions := [];
      unlocked := {};
    }

    /** `record_daily_activity`: upserts today's row for the member. */
    method RecordDailyActivity(username: string, solved: int, challenge: bool, today: Day)
      returns (success: bool, date: Day)
      requires Valid()
      modifies this
      ensures Valid()
      ensures success && date == today
      ensures dailyRows == UpsertDay(old(dailyRows), username, today, solved, challenge)
      ensures pointRows == old(pointRows) && transactions == old(transactions) && unlocked == old(unlocked)
    {
      UpsertDaySpec(dailyRows, username, today, solved, challenge);
      dailyRows := UpsertDay(dailyRows, username, today, solved, challenge);
      success, date := true, today;
    }

    /** `get_current_streak`: walks the active dates newest first while they match today, yesterday, ... */
    method GetCurrentStreak(username: string, today: Day) returns (streak: nat)
      ensures streak == CurrentDailyStreak(dailyRows, username, today)
      ensures DayRun(ActiveDays(dailyRows, username), today, streak)
      ensures (forall d :: d in ActiveDays(dailyRows, username) ==> d <= today) ==>
        today - streak !in ActiveDays(dailyRows, username)
    {
      CurrentDailyStreakMeaning(dailyRows, username, today);
      streak := WalkBackFromToday(DatesDescending(dailyRows, username), today);
    }

    /** `get_longest_streak`: one pass over the active dates oldest first. */
    method GetLongestStreak(username: string) returns (longest: nat)
      ensures longest == LongestDailyStreak(dailyRows, username)
      ensures longest == 0 <==> ActiveDays(dailyRows, username) == {}
      ensures forall end, len: nat :: DayRun(ActiveDays(dailyRows, username), end, len) ==> len <= longest
    {
      LongestDailyStreakMeaning(dailyRows, username);
      var dates := DatesAscending(dailyRows, username);
      if |dates| == 0 {
        return 0;
      }
      longest := LongestRunIn(dates);
    }

    /** `get_user_points` */
    function GetUserPoints(username: string): (r: PointsRow)
      reads this
      ensures r.username == username
      ensures (forall i :: 0 <= i < |pointRows| ==> pointRows[i].username != username) ==> r == PointsRow(username, 0, 0, 0, 0)
    {
      PointsOf(pointRows, username)
    }

    /**
     * The unlock loop of `check_achievements`: every check that holds and is
     * not unlocked yet is unlocked and reported, in order.
     */
    method Unlock(username: string, checks: seq<(string, bool)>) returns (newly: seq<string>)
      requires forall i, j :: 0 <= i < j < |checks| ==> checks[i].0 != checks[j].0
      modifies this
      ensures newly == NewUnlocks(KeysWhere(checks), old(unlocked), username)
      ensures unlocked == WithUnlocks(old(unlocked), username, newly)
      ensures dailyRows == old(dailyRows) && pointRows == old(pointRows) && transactions == old(transactions)
    {
      newly := [];
      for i := 0 to |checks|
        invariant newly == NewUnlocks(KeysWhere(checks[..i]), old(unlocked), username)
        invariant unlocked == WithUnlocks(old(unlocked), username, newly)
        invariant dailyRows == old(dailyRows) && pointRows == old(pointRows) && transactions == old(transactions)
      {
        var key, condition := checks[i].0, checks[i].1;
        UnlockStep(checks, i, old(unlocked), username);
        if condition && (username, key) !in unlocked {
          WithUnlocksAppend(old(unlocked), username, newly, key);
          unlocked := unlocked + {(username, key)};
          newly := newly + [key];
        }
      }
      assert checks[..|checks|] == checks;
    }

    /** `check_achievements`: unlocks each earned achievement the member does not hold yet. */
    method CheckAchievements(username: string, today: Day) returns (newly: seq<string>)
      modifies this
      ensures newly == NewUnlocks(Earned(StatsOf(dailyRows, transactions, username, today)), old(unlocked), username)
      ensures unlocked == WithUnlocks(old(unlocked), username, newly)
      ensures dailyRows == old(dailyRows) && pointRows == old(pointRows) && transactions == old(transactions)
    {
      var streak := GetCurrentStreak(username, today);
      var stats := Stats(streak, |Filter(transactions, HasTitle(username))|,
                         |Filter(dailyRows, ChallengeDay(username))|, |Filter(transactions, IsHard(username))|);
      RuleKeysDistinct();
      newly := Unlock(username, Checks(stats, Rules));
    }

    /** Checking twice without new activity: the second check unlocks nothing. */
    method CheckAchievementsTwice(username: string, today: Day) returns (first: seq<string>, second: seq<string>)
      modifies this
      ensures second == []
      ensures unlocked == WithUnlocks(old(unlocked), username, first)
    {
      ghost var before := unlocked;
      first := CheckAchievements(username, today);
      NewUnlocksSpec(Earned(StatsOf(dailyRows, transactions, username, today)), before, username);
      second := CheckAchievements(username, today);
      assert unlocked == WithUnlocks(unlocked, username, []);
    }

    /** `award_points`: logs the transaction, adds to the four totals, then checks achievements. */
    method AwardPoints(username: string, points: int, reason: string,
                       problemTitle: Option<string>, difficulty: Option<string>, today: Day)
      returns (ok: bool)
      requires Valid()
      modifies this
      ensures Valid()
      ensures ok
      ensures transactions == old(transactions) + [Transaction(username, points, reason, problemTitle, difficulty)]
      ensures pointRows == AddPoints(old(pointRows), username, points)
      ensures dailyRows == old(dailyRows)
      ensures unlocked == WithUnlocks(old(unlocked), username,
        NewUnlocks(Earned(StatsOf(dailyRows, transactions, username, today)), old(unlocked), username))
    {
      transactions := transactions + [Transaction(username, points, reason, problemTitle, difficulty)];
      AddPointsSpec(pointRows, username, points);
      pointRows := AddPoints(pointRows, username, points);
      var _ := CheckAchievements(username, today);
      ok := true;
    }

    /** `get_leaderboard`: numbers the rows the query returns, in order. */
    method GetLeaderboard(period: string, limit: int) returns (board: seq<Standing>)
      ensures board == Leaderboard(pointRows, period, limit)
      ensures |board| <= |pointRows| && (limit >= 0 ==> |board| <= limit)
      ensures limit >= 0 ==> (|board| == if limit < |pointRows| then limit else |pointRows|)
      ensures forall i :: 0 <= i < |board| ==> board[i].rank == i + 1
      ensures forall i, j :: 0 <= i < j < |board| ==> board[i].points >= board[j].points
      ensures forall row :: row in pointRows && board != [] && (forall i :: 0 <= i < |board| ==> board[i].username != row.username) ==>
                Column(PeriodOf(period))(row) <= board[|board| - 1].points
    {
      LeaderboardSpec(pointRows, period, limit);
      var key := Column(PeriodOf(period));
      var rows := SqlLimit(SortBy(pointRows, Descending(key)), limit);
      board := [];
      for i := 0 to |rows|
        invariant board == Ranked(rows[..i], key)
      {
        assert rows[..i + 1][..i] == rows[..i];
        board := board + [Standing(i + 1, rows[i].username, key(rows[i]))];
      }
      assert rows[..|rows|] == rows;
    }
  }
}
