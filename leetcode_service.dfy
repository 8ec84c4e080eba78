/**
 * The LeetCode service helpers that do not talk to the network: the accepted
 * count summed from a profile's per-difficulty list, and the zero-filled
 * per-day frame built from the members' submission calendars. The calendar
 * fetch is an oracle map; a failed fetch reads as an empty calendar.
 */
module LeetCodeService {
  import opened Wrappers
  import opened Dates
  import opened Records

  /** One item of a profile's submission list; either key may be missing. */
  datatype Accepted = Accepted(difficulty: Option<string>, count: Option<int>)

  /** The three graded difficulties; the "All" entry and anything else is not summed. */
  predicate Graded(e: Accepted) {
    e.difficulty == Some("Easy") || e.difficulty == Some("Medium") || e.difficulty == Some("Hard")
  }

  /** `int(s.get("count", 0))` */
  function CountOf(e: Accepted): int {
    e.count.GetOr(0)
  }

  function SumGraded(s: seq<Accepted>): int {
    if s == [] then 0
    else SumGraded(s[..|s| - 1]) + (if Graded(s[|s| - 1]) then CountOf(s[|s| - 1]) else 0)
  }

  /**
   * `sum_accepted` (and the app's `sum_accepted_from_submissions`): 0 when the
   * submissions value is not a list (`None` here), otherwise the sum of the
   * counts of the Easy, Medium and Hard items.
   */
  function SumAccepted(submissions: Option<seq<Accepted>>): int {
    match submissions
    case None => 0
    case Some(s) => SumGraded(s)
  }

  /** The sum of the counts of the items with one difficulty. */
  function SumFor(s: seq<Accepted>, d: string): int {
    if s == [] then 0
    else SumFor(s[..|s| - 1], d) + (if s[|s| - 1].difficulty == Some(d) then CountOf(s[|s| - 1]) else 0)
  }

  /** The accepted count is the Easy sum plus the Medium sum plus the Hard sum: the "All" item never adds. */
  lemma {:induction false} SumAcceptedByDifficulty(s: seq<Accepted>)
    ensures SumAccepted(Some(s)) == SumFor(s, "Easy") + SumFor(s, "Medium") + SumFor(s, "Hard")
    ensures SumAccepted(None) == 0
  {
    if s != [] {
      SumAcceptedByDifficulty(s[..|s| - 1]);
    }
  }

  /** Items that are not graded do not change the sum, wherever they sit. */
  lemma {:induction false} SumAcceptedIgnoresUngraded(s: seq<Accepted>, e: Accepted)
    requires !Graded(e)
    ensures SumAccepted(Some(s + [e])) == SumAccepted(Some(s))
    ensures SumAccepted(Some([e] + s)) == SumAccepted(Some(s))
    decreases |s|
  {
    assert (s + [e])[..|s|] == s;
    if s != [] {
      var init := s[..|s| - 1];
      assert ([e] + s)[..|s|] == [e] + init;
      assert ([e] + s)[|s|] == s[|s| - 1];
      SumAcceptedIgnoresUngraded(init, e);
    } else {
      assert [e] + s == [e];
      assert [e][..0] == [];
    }
  }

  /** With non-negative counts the accepted count is non-negative. */
  lemma {:induction false} SumAcceptedNonNegative(s: seq<Accepted>)
    requires forall i :: 0 <= i < |s| ==> CountOf(s[i]) >= 0
    ensures SumAccepted(Some(s)) >= 0
  {
    if s != [] {
      SumAcceptedNonNegative(s[..|s| - 1]);
    }
  }

  // ------------------------------------------------------------ calendars

  /**
   * A member's submission calendar as parsed: (day, count) pairs in the
   * order of the payload; several timestamps can fall on the same day.
   */
  type Calendar = seq<(Day, int)>

  /** The calendar fetch as an oracle; an absent username is a failed fetch, which yields `{}`. */
  function CalendarOf(calendars: map<string, Calendar>, u: string): Calendar {
    if u in calendars then calendars[u] else []
  }

  /** The days that are keys of the calendar dict. */
  ghost function DaysIn(cal: Calendar): set<Day> {
    set j | 0 <= j < |cal| :: cal[j].0
  }

  /**
   * `int(cal.get(d, 0))` on the dict built by `out[day] = int(cnt)`: the last
   * count for the day, or 0.
   */
  function AcceptedOn(cal: Calendar, d: Day): int {
    if cal == [] then 0
    else if cal[|cal| - 1].0 == d then cal[|cal| - 1].1
    else AcceptedOn(cal[..|cal| - 1], d)
  }

  /** A day absent from the calendar reads 0; a present day reads its last count. */
  lemma {:induction false} AcceptedOnMeaning(cal: Calendar, d: Day)
    ensures d !in DaysIn(cal) ==> AcceptedOn(cal, d) == 0
    ensures forall j ::
              0 <= j < |cal| && cal[j].0 == d && (forall k :: j < k < |cal| ==> cal[k].0 != d)
              ==> AcceptedOn(cal, d) == cal[j].1
  {
    if cal != [] {
      var n := |cal| - 1;
      var init := cal[..n];
      AcceptedOnMeaning(init, d);
      if cal[n].0 != d {
        forall x | x in DaysIn(init) ensures x in DaysIn(cal) {
          var j :| 0 <= j < n && init[j].0 == x;
          assert cal[j].0 == x;
        }
        forall j | 0 <= j < |cal| && cal[j].0 == d && (forall k :: j < k < |cal| ==> cal[k].0 != d)
          ensures AcceptedOn(cal, d) == cal[j].1
        {
          assert init[j] == cal[j];
        }
      } else {
        assert cal[n].0 in DaysIn(cal);
      }
    }
  }

  /** One row of the frame. */
  datatype Row = Row(name: string, username: string, date: Day, accepted: int)

  /** Every day that appears in the calendar of one of the members. */
  ghost function AllDays(members: seq<Member>, calendars: map<string, Calendar>): set<Day> {
    set i, d | 0 <= i < |members| && d in DaysIn(CalendarOf(calendars, members[i].username)) :: d
  }

  /** A member's rows for every day from `lo` to `hi`, zero where the calendar has no entry. */
  function DayRows(m: Member, cal: Calendar, lo: Day, hi: Day): (r: seq<Row>)
    requires lo <= hi
    ensures |r| == hi - lo + 1
  {
    seq(hi - lo + 1, k requires 0 <= k <= hi - lo => Row(DisplayName(m), m.username, lo + k, AcceptedOn(cal, lo + k)))
  }

  /** The frame: each member's day rows, in roster order. */
  function Frame(members: seq<Member>, calendars: map<string, Calendar>, lo: Day, hi: Day): seq<Row>
    requires lo <= hi
  {
    if members == [] then []
    else
      var m := members[|members| - 1];
      Frame(members[..|members| - 1], calendars, lo, hi) + DayRows(m, CalendarOf(calendars, m.username), lo, hi)
  }

  /** The frame has one block of `width` rows per member. */
  lemma {:induction false} FrameLength(members: seq<Member>, calendars: map<string, Calendar>, lo: Day, hi: Day)
    requires lo <= hi
    ensures |Frame(members, calendars, lo, hi)| == |members| * (hi - lo + 1)
  {
    if members != [] {
      var n := |members| - 1;
      FrameLength(members[..n], calendars, lo, hi);
      assert |members| * (hi - lo + 1) == n * (hi - lo + 1) + (hi - lo + 1);
    }
  }

  /**
   * The `i`-th block of `width` rows is member `i`'s rows for the days from
   * `lo` to `hi`, in order, with that member's count for the day or 0.
   */
  lemma {:induction false} FrameBlock(members: seq<Member>, calendars: map<string, Calendar>, lo: Day, hi: Day, i: nat)
    requires lo <= hi && i < |members|
    ensures var width := hi - lo + 1;
      0 <= i * width <= (i + 1) * width <= |Frame(members, calendars, lo, hi)|
      && Frame(members, calendars, lo, hi)[i * width..(i + 1) * width]
         == DayRows(members[i], CalendarOf(calendars, members[i].username), lo, hi)
  {
    var width := hi - lo + 1;
    var n := |members| - 1;
    var init := members[..n];
    var head := Frame(init, calendars, lo, hi);
    var f := Frame(members, calendars, lo, hi);
    FrameLength(members, calendars, lo, hi);
    FrameLength(init, calendars, lo, hi);
    MulBounds(i, |members|, width);
    if i < n {
      FrameBlock(init, calendars, lo, hi, i);
      MulBounds(i, n, width);
      assert members[i] == init[i];
      assert f[i * width..(i + 1) * width] == head[i * width..(i + 1) * width];
    } else {
      assert i * width == |head|;
    }
  }

  /** Block `i` of `n` blocks of width `w` lies within the `n * w` rows. */
  lemma MulBounds(i: nat, n: nat, w: nat)
    requires i < n
    ensures 0 <= i * w <= (i + 1) * w <= n * w
  {
    MulStep(i, w);
    MulMonotone(i + 1, n, w);
  }

  lemma MulStep(a: nat, w: nat)
    ensures 0 <= a * w && (a + 1) * w == a * w + w
  {
  }

  lemma {:induction false} MulMonotone(a: nat, b: nat, w: nat)
    requires a <= b
    ensures a * w <= b * w
    decreases b - a
  {
    if a < b {
      MulMonotone(a + 1, b, w);
      MulStep(a, w);
    }
  }

  /** The earliest and the latest day of a non-empty set of days. */
  ghost predicate Bounds(days: set<Day>, lo: Day, hi: Day) {
    lo in days && hi in days && forall d :: d in days ==> lo <= d <= hi
  }

  /**
   * The first loop of `calendars_to_frame`: the earliest and the latest day
   * over all the members' calendars, or none when they have no day at all.
   */
  method DayRange(members: seq<Member>, calendars: map<string, Calendar>) returns (minDay: Option<Day>, maxDay: Option<Day>)
    ensures minDay.None? <==> AllDays(members, calendars) == {}
    ensures maxDay.None? <==> minDay.None?
    ensures minDay.Some? ==> Bounds(AllDays(members, calendars), minDay.value, maxDay.value)
  {
    minDay, maxDay := None, None;
    var i := 0;
    while i < |members|
      invariant 0 <= i <= |members|
      invariant minDay.None? <==> AllDays(members[..i], calendars) == {}
      invariant maxDay.None? <==> minDay.None?
      invariant minDay.Some? ==> Bounds(AllDays(members[..i], calendars), minDay.value, maxDay.value)
    {
      var cal := CalendarOf(calendars, members[i].username);
      minDay, maxDay := ScanDays(cal, AllDays(members[..i], calendars), minDay, maxDay);
      AllDaysStep(members, calendars, i);
      i := i + 1;
    }
    assert members[..|members|] == members;
  }

  /** One member's calendar folded into the running earliest and latest day. */
  method ScanDays(cal: Calendar, ghost before: set<Day>, lo0: Option<Day>, hi0: Option<Day>)
    returns (minDay: Option<Day>, maxDay: Option<Day>)
    requires lo0.None? <==> before == {}
    requires hi0.None? <==> lo0.None?
    requires lo0.Some? ==> Bounds(before, lo0.value, hi0.value)
    ensures minDay.None? <==> before + DaysIn(cal) == {}
    ensures maxDay.None? <==> minDay.None?
    ensures minDay.Some? ==> Bounds(before + DaysIn(cal), minDay.value, maxDay.value)
  {
    minDay, maxDay := lo0, hi0;
    var j := 0;
    while j < |cal|
      invariant 0 <= j <= |cal|
      invariant minDay.None? <==> before + DaysIn(cal[..j]) == {}
      invariant maxDay.None? <==> minDay.None?
      invariant minDay.Some? ==> Bounds(before + DaysIn(cal[..j]), minDay.value, maxDay.value)
    {
      var day := cal[j].0;
      DaysInStep(cal, j);
      minDay := if minDay.None? || day < minDay.value then Some(day) else minDay;
      maxDay := if maxDay.None? || day > maxDay.value then Some(day) else maxDay;
      j := j + 1;
    }
    assert cal[..|cal|] == cal;
  }

  /** The second loop of `calendars_to_frame`: every member's rows for every day from `lo` to `hi`. */
  method FillFrame(members: seq<Member>, calendars: map<string, Calendar>, lo: Day, hi: Day) returns (rows: seq<Row>)
    requires lo <= hi
    ensures rows == Frame(members, calendars, lo, hi)
  {
    rows := [];
    var i := 0;
    while i < |members|
      invariant 0 <= i <= |members|
      invariant rows == Frame(members[..i], calendars, lo, hi)
    {
      var cal := CalendarOf(calendars, members[i].username);
      var d := lo;
      while d <= hi
        invariant lo <= d <= hi + 1
        invariant rows == Frame(members[..i], calendars, lo, hi) + DayRows(members[i], cal, lo, hi)[..d - lo]
      {
        rows := rows + [Row(DisplayName(members[i]), members[i].username, d, AcceptedOn(cal, d))];
        d := d + 1;
      }
      assert members[..i + 1][..i] == members[..i];
      i := i + 1;
    }
    assert members[..|members|] == members;
  }

  /**
   * `calendars_to_frame`: one row per member and day from the earliest to the
   * latest day over all calendars; no day in any calendar gives the empty
   * frame.
   */
  method CalendarsToFrame(members: seq<Member>, calendars: map<string, Calendar>) returns (rows: seq<Row>)
    ensures rows == [] <==> AllDays(members, calendars) == {}
    ensures AllDays(members, calendars) != {} ==>
      exists lo, hi :: Bounds(AllDays(members, calendars), lo, hi) && lo <= hi && rows == Frame(members, calendars, lo, hi)
  {
    var minDay, maxDay := DayRange(members, calendars);
    if minDay.None? {
      return [];
    }
    rows := FillFrame(members, calendars, minDay.value, maxDay.value);
    FrameNonEmpty(members, calendars, minDay.value, maxDay.value);
  }

  lemma DaysInStep(cal: Calendar, j: int)
    requires 0 <= j < |cal|
    ensures DaysIn(cal[..j + 1]) == DaysIn(cal[..j]) + {cal[j].0}
  {
    assert cal[..j + 1][j] == cal[j];
    forall x | x in DaysIn(cal[..j]) ensures x in DaysIn(cal[..j + 1]) {
      var k :| 0 <= k < j && cal[..j][k].0 == x;
      assert cal[..j + 1][k] == cal[..j][k];
    }
  }

  /** The days of the first `i + 1` members are those of the first `i` and those of member `i`. */
  lemma AllDaysStep(members: seq<Member>, calendars: map<string, Calendar>, i: int)
    requires 0 <= i < |members|
    ensures AllDays(members[..i + 1], calendars)
         == AllDays(members[..i], calendars) + DaysIn(CalendarOf(calendars, members[i].username))
  {
    var a := members[..i + 1];
    assert a[i] == members[i];
    forall d | d in AllDays(a, calendars)
      ensures d in AllDays(members[..i], calendars) + DaysIn(CalendarOf(calendars, members[i].username))
    {
      var j :| 0 <= j < |a| && d in DaysIn(CalendarOf(calendars, a[j].username));
      if j < i {
        assert a[j] == members[..i][j];
      }
    }
    forall d | d in DaysIn(CalendarOf(calendars, members[i].username)) ensures d in AllDays(a, calendars) {
      assert d in DaysIn(CalendarOf(calendars, a[i].username));
    }
    forall d | d in AllDays(members[..i], calendars) ensures d in AllDays(a, calendars) {
      var j :| 0 <= j < i && d in DaysIn(CalendarOf(calendars, members[..i][j].username));
      assert members[..i][j] == a[j];
    }
  }

  /** With some member, a non-empty day range gives rows. */
  lemma FrameNonEmpty(members: seq<Member>, calendars: map<string, Calendar>, lo: Day, hi: Day)
    requires lo <= hi
    ensures members != [] ==> Frame(members, calendars, lo, hi) != []
  {
  }
}
