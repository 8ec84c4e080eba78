/**
 * The in-memory notification store (backend/utils/notification_service.py):
 * notification constructors, the store's send/get/clear operations, and the
 * streak and milestone checks that create and send notifications.
 */
module Notifications {
  import opened Wrappers
  import opened Sorting
  import opened PySeq
  import opened Streaks

  datatype Kind = StreakAtRisk | Milestone | Inactivity | DailyDigest

  datatype Priority = High | Medium | Low

  /**
   * A notification. `value` is the streak length, the milestone value or the
   * days of inactivity, depending on the kind; `createdAt` orders like the
   * ISO timestamp the source stores.
   */
  datatype Notification = Notification(
    kind: Kind, member: Option<string>, memberName: string, milestoneType: string,
    value: int, priority: Priority, createdAt: int)

  /** The priority each kind of notification is created with. */
  function PriorityOf(k: Kind): Priority {
    match k
    case StreakAtRisk => High
    case Milestone => Medium
    case Inactivity => Low
    case DailyDigest => Low
  }

  /** True for notifications the constructors below can produce: the priority follows the kind. */
  predicate WellFormed(n: Notification) {
    && n.priority == PriorityOf(n.kind)
    && (n.kind == DailyDigest <==> n.member == None)
  }

  function StreakAtRiskNotification(member: string, name: string, current: int, now: int): (n: Notification)
    ensures WellFormed(n) && n.kind == StreakAtRisk && n.member == Some(member)
    ensures n.memberName == name && n.value == current
  {
    Notification(StreakAtRisk, Some(member), name, "", current, High, now)
  }

  function MilestoneNotification(member: string, name: string, milestoneType: string, value: int, now: int): (n: Notification)
    ensures WellFormed(n) && n.kind == Milestone && n.member == Some(member)
  {
    Notification(Milestone, Some(member), name, milestoneType, value, Medium, now)
  }

  function InactivityNotification(member: string, name: string, days: int, now: int): (n: Notification)
    ensures WellFormed(n) && n.kind == Inactivity && n.member == Some(member)
  {
    Notification(Inactivity, Some(member), name, "", days, Low, now)
  }

  function DailyDigestNotification(teamName: string, now: int): (n: Notification)
    ensures WellFormed(n) && n.kind == DailyDigest && n.member == None
  {
    Notification(DailyDigest, None, teamName, "", 0, Low, now)
  }

  /** Python truthiness of an optional member name: None and "" both mean "no member". */
  predicate Given(member: Option<string>) {
    member.Some? && member.value != ""
  }

  function CreatedAt(n: Notification): int {
    n.createdAt
  }

  function InAppOnly(): seq<string> {
    ["in_app"]
  }

  /**
   * `[n for n in self.notifications if n.get("member") == member]` when a
   * member is given, otherwise the whole list: exactly that member's
   * notifications, or all of them, in stored order.
   */
  function Visible(ns: seq<Notification>, member: Option<string>): (r: seq<Notification>)
    ensures |r| <= |ns|
    ensures forall n :: n in r <==> n in ns && (Given(member) ==> n.member == member)
  {
    if Given(member) then Filter(ns, (n: Notification) => n.member == member) else ns
  }

  /**
   * `sorted(ns, key=created_at, reverse=True)[:limit]`: the first `limit`
   * notifications of the newest-first order (Python's slice rules for a
   * negative limit), so none left out is newer than one kept.
   */
  function Newest(ns: seq<Notification>, limit: int): (r: seq<Notification>)
    ensures limit >= 0 ==> |r| == if limit < |ns| then limit else |ns|
    ensures limit < 0 ==> |r| == if |ns| + limit < 0 then 0 else |ns| + limit
    ensures r <= SortBy(ns, Descending(CreatedAt))
    ensures multiset(r) <= multiset(ns)
    ensures forall n :: n in r ==> n in ns
    ensures limit >= |ns| ==> forall n :: n in ns ==> n in r
    ensures forall i, j :: 0 <= i < j < |r| ==> r[i].createdAt >= r[j].createdAt
  {
    var sorted := SortBy(ns, Descending(CreatedAt));
    SortDescending(ns, CreatedAt);
    PermutationMembers(sorted, ns);
    var r := Take(sorted, limit);
    PrefixSubMultiset(r, sorted);
    assert limit >= |ns| ==> r == sorted;
    r
  }

  class NotificationService {
    var notifications: seq<Notification>

    constructor ()
      ensures notifications == []
    {
      notifications := [];
    }

    /** `send_notification`: stores the notification iff "in_app" is among the channels; always succeeds. */
    method Send(n: Notification, channels: seq<string>) returns (ok: bool)
      modifies this
      ensures ok
      ensures notifications == old(notifications) + (if "in_app" in channels then [n] else [])
    {
      if "in_app" in channels {
        notifications := notifications + [n];
      }
      ok := true;
    }

    /**
     * `get_notifications`: the given member's notifications (all when no member
     * is given), newest first, at most `limit` of them.
     */
    function Get(member: Option<string>, limit: int): (r: seq<Notification>)
      reads this
      ensures |r| <= |notifications|
      ensures limit >= 0 ==> |r| == if limit < |Visible(notifications, member)| then limit else |Visible(notifications, member)|
      ensures r <= SortBy(Visible(notifications, member), Descending(CreatedAt))
      ensures multiset(r) <= multiset(Visible(notifications, member))
      ensures forall n :: n in r ==> n in notifications && (Given(member) ==> n.member == member)
      ensures limit >= |notifications| ==>
                forall n :: n in notifications && (Given(member) ==> n.member == member) ==> n in r
      ensures forall i, j :: 0 <= i < j < |r| ==> r[i].createdAt >= r[j].createdAt
    {
      Newest(Visible(notifications, member), limit)
    }

    /** `clear_notifications`: drops the given member's notifications, or all of them when none is given. */
    method Clear(member: Option<string>)
      modifies this
      ensures notifications == if Given(member) then KeepOthers(old(notifications), member.value) else []
    {
      if Given(member) {
        notifications := KeepOthers(notifications, member.value);
      } else {
        notifications := [];
      }
    }
  }

  /** The notifications that do not belong to `member`, in stored order. */
  function KeepOthers(ns: seq<Notification>, member: string): seq<Notification> {
    Filter(ns, (n: Notification) => n.member != Some(member))
  }

  /**
   * Clearing one member removes exactly that member's notifications and keeps
   * the others in their stored order; clearing twice is the same as once.
   */
  lemma KeepOthersMeaning(ns: seq<Notification>, extra: seq<Notification>, member: string)
    ensures forall n :: n in KeepOthers(ns, member) <==> n in ns && n.member != Some(member)
    ensures KeepOthers(ns + extra, member) == KeepOthers(ns, member) + KeepOthers(extra, member)
    ensures (forall i :: 0 <= i < |ns| ==> ns[i].member != Some(member)) ==> KeepOthers(ns, member) == ns
    ensures KeepOthers(KeepOthers(ns, member), member) == KeepOthers(ns, member)
  {
    var p := (n: Notification) => n.member != Some(member);
    FilterConcat(ns, extra, p);
    if forall i :: 0 <= i < |ns| ==> ns[i].member != Some(member) {
      FilterKeepsAll(ns, p);
    }
    var once := Filter(ns, p);
    assert forall i :: 0 <= i < |once| ==> p(once[i]) by {
      forall i | 0 <= i < |once| ensures p(once[i]) {
        assert once[i] in once;
      }
    }
    FilterKeepsAll(once, p);
  }

  /** A streak entry as the streak check receives it: `get_team_streaks`'s entry and its optional `name` key. */
  datatype StreakInput = StreakInput(streak: TeamStreak, name: Option<string>)

  /** `streak.get("name", streak["member"])` */
  function DisplayName(s: StreakInput): string {
    s.name.GetOr(s.streak.member)
  }

  /**
   * The notifications route's loop: every entry gets `name` set to
   * `member_names.get(member, member)`, where `names` is the roster's
   * username-to-display-name dict.
   */
  function NamedStreaks(team: seq<TeamStreak>, names: map<string, string>): (r: seq<StreakInput>)
    ensures |r| == |team|
  {
    seq(|team|, i requires 0 <= i < |team| =>
      StreakInput(team[i], Some(if team[i].member in names then names[team[i].member] else team[i].member)))
  }

  /** The notifications `check_and_notify_streaks` creates: one per at-risk entry with a current streak. */
  function StreakAlerts(streaks: seq<StreakInput>, now: int): seq<Notification> {
    if streaks == [] then []
    else
      var t := streaks[|streaks| - 1];
      StreakAlerts(streaks[..|streaks| - 1], now) +
      (if t.streak.summary.status == AtRisk && t.streak.summary.current > 0
       then [StreakAtRiskNotification(t.streak.member, DisplayName(t), t.streak.summary.current, now)] else [])
  }

  /**
   * One alert per at-risk entry with a current streak, carrying its member,
   * its display name (the `name` key, else the username) and its streak, and
   * no other alert.
   */
  lemma {:induction false} StreakAlertsMeaning(streaks: seq<StreakInput>, now: int)
    ensures |StreakAlerts(streaks, now)| <= |streaks|
    ensures forall n :: n in StreakAlerts(streaks, now) ==>
              n.kind == StreakAtRisk && n.priority == High && n.member.Some? && n.value > 0
    ensures forall t :: t in streaks && t.streak.summary.status == AtRisk && t.streak.summary.current > 0 ==>
              StreakAtRiskNotification(t.streak.member, DisplayName(t), t.streak.summary.current, now)
                in StreakAlerts(streaks, now)
    ensures forall n :: n in StreakAlerts(streaks, now) ==>
              exists t :: t in streaks && t.streak.summary.status == AtRisk &&
                n == StreakAtRiskNotification(t.streak.member, DisplayName(t), t.streak.summary.current, now)
  {
    if streaks != [] {
      var init := streaks[..|streaks| - 1];
      StreakAlertsMeaning(init, now);
      assert streaks == init + [streaks[|streaks| - 1]];
    }
  }

  /**
   * Through the notifications route, every alert names its member by the
   * roster's display name, or by the username when the roster has none, and
   * every at-risk team entry with a current streak gets one.
   */
  lemma RouteAlertNames(team: seq<TeamStreak>, names: map<string, string>, now: int)
    ensures forall n :: n in StreakAlerts(NamedStreaks(team, names), now) ==>
              n.member.Some? &&
              n.memberName == (if n.member.value in names then names[n.member.value] else n.member.value)
    ensures forall t :: t in team && t.summary.status == AtRisk && t.summary.current > 0 ==>
              StreakAtRiskNotification(t.member, if t.member in names then names[t.member] else t.member,
                                       t.summary.current, now) in StreakAlerts(NamedStreaks(team, names), now)
  {
    var named := NamedStreaks(team, names);
    StreakAlertsMeaning(named, now);
    forall n | n in StreakAlerts(named, now)
      ensures n.member.Some? && n.memberName == (if n.member.value in names then names[n.member.value] else n.member.value)
    {
      var t :| t in named && t.streak.summary.status == AtRisk &&
               n == StreakAtRiskNotification(t.streak.member, DisplayName(t), t.streak.summary.current, now);
      var i :| 0 <= i < |named| && named[i] == t;
    }
    forall t | t in team && t.summary.status == AtRisk && t.summary.current > 0
      ensures StreakAtRiskNotification(t.member, if t.member in names then names[t.member] else t.member,
                                       t.summary.current, now) in StreakAlerts(named, now)
    {
      var i :| 0 <= i < |team| && team[i] == t;
      assert named[i] in named;
    }
  }

  /**
   * No deduplication: running the streak check twice on the same input stores
   * every alert of the first run a second time.
   */
  lemma NoDeduplication(ns: seq<Notification>, streaks: seq<StreakInput>, now: int)
    ensures |ns + StreakAlerts(streaks, now) + StreakAlerts(streaks, now)| == |ns| + 2 * |StreakAlerts(streaks, now)|
    ensures forall n :: n in StreakAlerts(streaks, now) ==>
              multiset(ns + StreakAlerts(streaks, now) + StreakAlerts(streaks, now))[n] >= 2
  {
    var a := StreakAlerts(streaks, now);
    forall n | n in a ensures multiset(ns + a + a)[n] >= 2 {
      assert multiset(ns + a + a) == multiset(ns) + multiset(a) + multiset(a);
      assert n in multiset(a);
    }
  }

  /** `check_and_notify_streaks`: creates, sends and returns one alert per at-risk streak. */
  method CheckAndNotifyStreaks(service: NotificationService, streaks: seq<StreakInput>, now: int)
    returns (created: seq<Notification>)
    modifies service
    ensures created == StreakAlerts(streaks, now)
    ensures service.notifications == old(service.notifications) + created
  {
    created := [];
    var i := 0;
    while i < |streaks|
      invariant 0 <= i <= |streaks|
      invariant created == StreakAlerts(streaks[..i], now)
      invariant service.notifications == old(service.notifications) + created
    {
      assert streaks[..i + 1][..i] == streaks[..i];
      var t := streaks[i];
      if t.streak.summary.status == AtRisk && t.streak.summary.current > 0 {
        var n := StreakAtRiskNotification(t.streak.member, DisplayName(t), t.streak.summary.current, now);
        var _ := service.Send(n, InAppOnly());
        created := created + [n];
      }
      i := i + 1;
    }
    assert streaks[..i] == streaks;
  }

  /** The solved-count milestones, in ascending order. */
  const Milestones: seq<int> := [10, 25, 50, 100, 200, 500, 1000]

  /** `d.get(key, 0)` */
  function Get0(d: map<string, int>, key: string): int {
    if key in d then d[key] else 0
  }

  /** The total-solved milestone notifications for the milestones in ms that lie in (previous, current]. */
  function MilestoneAlerts(ms: seq<int>, previous: int, current: int, member: string, name: string, now: int)
    : seq<Notification>
  {
    if ms == [] then []
    else
      var m := ms[|ms| - 1];
      MilestoneAlerts(ms[..|ms| - 1], previous, current, member, name, now) +
      (if previous < m <= current then [MilestoneNotification(member, name, "total_solved", m, now)] else [])
  }

  /**
   * One notification per milestone crossed, none when the total did not grow,
   * in milestone order.
   */
  lemma {:induction false} MilestoneAlertsMeaning(
    ms: seq<int>, previous: int, current: int, member: string, name: string, now: int)
    ensures |MilestoneAlerts(ms, previous, current, member, name, now)| <= |ms|
    ensures forall n :: n in MilestoneAlerts(ms, previous, current, member, name, now) ==>
              n.kind == Milestone && n.milestoneType == "total_solved" && n.value in ms && previous < n.value <= current
    ensures forall m :: m in ms && previous < m <= current ==>
              MilestoneNotification(member, name, "total_solved", m, now) in MilestoneAlerts(ms, previous, current, member, name, now)
    ensures current <= previous ==> MilestoneAlerts(ms, previous, current, member, name, now) == []
  {
    if ms != [] {
      var init := ms[..|ms| - 1];
      MilestoneAlertsMeaning(init, previous, current, member, name, now);
      assert ms == init + [ms[|ms| - 1]];
    }
  }

  /** With the milestones ascending the alerts come in ascending milestone order. */
  lemma {:induction false} MilestoneAlertsOrdered(
    ms: seq<int>, previous: int, current: int, member: string, name: string, now: int)
    requires forall i, j :: 0 <= i < j < |ms| ==> ms[i] < ms[j]
    ensures var r := MilestoneAlerts(ms, previous, current, member, name, now);
      forall i, j :: 0 <= i < j < |r| ==> r[i].value < r[j].value
  {
    if ms != [] {
      var init := ms[..|ms| - 1];
      var last := ms[|ms| - 1];
      MilestoneAlertsOrdered(init, previous, current, member, name, now);
      MilestoneAlertsMeaning(init, previous, current, member, name, now);
      var r0 := MilestoneAlerts(init, previous, current, member, name, now);
      forall n | n in r0 ensures n.value < last {
        var k :| 0 <= k < |init| && init[k] == n.value;
      }
    }
  }

  /** The first-hard notification fires only on the step from no Hard problems to some. */
  function FirstHardAlert(previousHard: int, currentHard: int, member: string, name: string, now: int)
    : (r: seq<Notification>)
    ensures |r| <= 1
    ensures r != [] <==> previousHard == 0 && currentHard > 0
    ensures forall n :: n in r ==> n.kind == Milestone && n.milestoneType == "first_hard" && n.value == 1
  {
    if previousHard == 0 && currentHard > 0 then [MilestoneNotification(member, name, "first_hard", 1, now)] else []
  }

  /** `check_and_notify_milestones`: one alert per milestone crossed, then the first-hard alert. */
  method CheckAndNotifyMilestones(
    service: NotificationService, currentData: map<string, int>, previousData: map<string, int>,
    member: string, name: string, now: int)
    returns (created: seq<Notification>)
    modifies service
    ensures created == MilestoneAlerts(Milestones, Get0(previousData, "totalSolved"), Get0(currentData, "totalSolved"), member, name, now)
                       + FirstHardAlert(Get0(previousData, "hard"), Get0(currentData, "hard"), member, name, now)
    ensures service.notifications == old(service.notifications) + created
  {
    var currentTotal := Get0(currentData, "totalSolved");
    var previousTotal := Get0(previousData, "totalSolved");
    created := [];
    var i := 0;
    while i < |Milestones|
      invariant 0 <= i <= |Milestones|
      invariant created == MilestoneAlerts(Milestones[..i], previousTotal, currentTotal, member, name, now)
      invariant service.notifications == old(service.notifications) + created
    {
      assert Milestones[..i + 1][..i] == Milestones[..i];
      var milestone := Milestones[i];
      if previousTotal < milestone <= currentTotal {
        var n := MilestoneNotification(member, name, "total_solved", milestone, now);
        var _ := service.Send(n, InAppOnly());
        created := created + [n];
      }
      i := i + 1;
    }
    assert Milestones[..i] == Milestones;
    var currentHard := Get0(currentData, "hard");
    var previousHard := Get0(previousData, "hard");
    if previousHard == 0 && currentHard > 0 {
      var n := MilestoneNotification(member, name, "first_hard", 1, now);
      var _ := service.Send(n, InAppOnly());
      created := created + [n];
    }
  }
}
