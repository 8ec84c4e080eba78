/**
 * The snapshot ledger: `HistoryService.record_weekly` (and the identical
 * `record_weekly_snapshots` of the Streamlit app) append one snapshot per
 * (member, week), and only when that week is not yet recorded.
 */
module HistoryLedger {
  import opened Wrappers
  import opened Dates
  import opened Records

  /** Appends s to its member's list unless that list already holds s's week. */
  function AppendIfAbsent(mh: MemberHistory, s: Snapshot): MemberHistory {
    var l := SnapshotsOf(mh, s.member);
    if HasWeek(l, s.week) then mh else mh[s.member := l + [s]]
  }

  /** AppendIfAbsent for each snapshot in turn. */
  function AppendAll(mh: MemberHistory, snaps: seq<Snapshot>): MemberHistory {
    if snaps == [] then mh
    else AppendIfAbsent(AppendAll(mh, snaps[..|snaps| - 1]), snaps[|snaps| - 1])
  }

  /** How many of snaps AppendAll actually appends. */
  function Added(mh: MemberHistory, snaps: seq<Snapshot>): nat {
    if snaps == [] then 0
    else
      var prev := AppendAll(mh, snaps[..|snaps| - 1]);
      var s := snaps[|snaps| - 1];
      Added(mh, snaps[..|snaps| - 1]) + (if HasWeek(SnapshotsOf(prev, s.member), s.week) then 0 else 1)
  }

  /** Every snapshot's (member, week) is already recorded in mh. */
  ghost predicate AllRecorded(mh: MemberHistory, snaps: seq<Snapshot>) {
    forall k :: 0 <= k < |snaps| ==> HasWeek(SnapshotsOf(mh, snaps[k].member), snaps[k].week)
  }

  /** Every list of mh is a prefix of the same member's list in mh'. */
  ghost predicate Extends(mh: MemberHistory, mh': MemberHistory) {
    forall u :: u in mh ==> u in mh' && mh[u] <= mh'[u]
  }

  /** The members the snapshots are for, in order. */
  function Members(snaps: seq<Snapshot>): (us: seq<string>)
    ensures |us| == |snaps|
    ensures forall k :: 0 <= k < |snaps| ==> us[k] == snaps[k].member
  {
    if snaps == [] then [] else Members(snaps[..|snaps| - 1]) + [snaps[|snaps| - 1].member]
  }

  lemma ExtendsKeepsRecorded(mh: MemberHistory, mh': MemberHistory, snaps: seq<Snapshot>)
    requires Extends(mh, mh') && AllRecorded(mh, snaps)
    ensures AllRecorded(mh', snaps)
  {
    forall k | 0 <= k < |snaps| ensures HasWeek(SnapshotsOf(mh', snaps[k].member), snaps[k].week) {
      var l := SnapshotsOf(mh, snaps[k].member);
      var i :| 0 <= i < |l| && l[i].week == snaps[k].week;
      assert SnapshotsOf(mh', snaps[k].member)[i] == l[i];
    }
  }

  /**
   * The ledger only grows: existing lists are only extended, a member gets a
   * list only if some snapshot is for that member, and members no snapshot
   * is for keep their list untouched.
   */
  lemma {:induction false} AppendAllOnlyExtends(mh: MemberHistory, snaps: seq<Snapshot>)
    ensures Extends(mh, AppendAll(mh, snaps))
    ensures forall u :: u in AppendAll(mh, snaps) ==> u in mh || u in Members(snaps)
    ensures forall u :: u in mh && u !in Members(snaps) ==> AppendAll(mh, snaps)[u] == mh[u]
  {
    if snaps != [] {
      AppendAllOnlyExtends(mh, snaps[..|snaps| - 1]);
    }
  }

  /** After AppendAll every snapshot's (member, week) is recorded. */
  lemma {:induction false} AppendAllRecordsAll(mh: MemberHistory, snaps: seq<Snapshot>)
    ensures AllRecorded(AppendAll(mh, snaps), snaps)
  {
    if snaps != [] {
      var init := snaps[..|snaps| - 1];
      var s := snaps[|snaps| - 1];
      AppendAllRecordsAll(mh, init);
      var prev := AppendAll(mh, init);
      var r := AppendIfAbsent(prev, s);
      assert Extends(prev, r);
      ExtendsKeepsRecorded(prev, r, init);
      var l := SnapshotsOf(prev, s.member);
      if !HasWeek(l, s.week) {
        assert SnapshotsOf(r, s.member)[|l|] == s;
      }
      forall k | 0 <= k < |snaps| ensures HasWeek(SnapshotsOf(r, snaps[k].member), snaps[k].week) {
        if k < |init| { assert snaps[k] == init[k]; }
      }
    }
  }

  /** If everything is already recorded, AppendAll changes nothing and appends nothing. */
  lemma {:induction false} AppendAllWhenRecorded(mh: MemberHistory, snaps: seq<Snapshot>)
    requires AllRecorded(mh, snaps)
    ensures AppendAll(mh, snaps) == mh && Added(mh, snaps) == 0
  {
    if snaps != [] {
      var init := snaps[..|snaps| - 1];
      assert AllRecorded(mh, init) by {
        forall k | 0 <= k < |init| ensures HasWeek(SnapshotsOf(mh, init[k].member), init[k].week) {
          assert init[k] == snaps[k];
        }
      }
      AppendAllWhenRecorded(mh, init);
    }
  }

  /** A repeated call with the same snapshots adds nothing: the ledger is idempotent. */
  lemma AppendAllIdempotent(mh: MemberHistory, snaps: seq<Snapshot>)
    ensures AppendAll(AppendAll(mh, snaps), snaps) == AppendAll(mh, snaps)
    ensures Added(AppendAll(mh, snaps), snaps) == 0
  {
    AppendAllRecordsAll(mh, snaps);
    AppendAllWhenRecorded(AppendAll(mh, snaps), snaps);
  }

  /** The history r has a list that is longer than in mh, or new. */
  ghost predicate Grew(mh: MemberHistory, r: MemberHistory) {
    exists u :: u in r && (u !in mh || |mh[u]| < |r[u]|)
  }

  /** Each real append leaves a list longer than it was in mh. */
  lemma {:induction false} AppendAllGrows(mh: MemberHistory, snaps: seq<Snapshot>)
    requires Added(mh, snaps) > 0
    ensures Grew(mh, AppendAll(mh, snaps))
  {
    var init := snaps[..|snaps| - 1];
    var s := snaps[|snaps| - 1];
    var prev := AppendAll(mh, init);
    AppendAllOnlyExtends(mh, init);
    var l := SnapshotsOf(prev, s.member);
    var r := AppendAll(mh, snaps);
    if HasWeek(l, s.week) {
      AppendAllGrows(mh, init);
    } else {
      assert |r[s.member]| == |l| + 1;
      if s.member in mh {
        assert mh[s.member] <= l;
      }
      assert s.member in r;
    }
  }

  /** Nothing was appended exactly when the team history is unchanged. */
  lemma {:induction false} AddedZeroIffUnchanged(mh: MemberHistory, snaps: seq<Snapshot>)
    ensures Added(mh, snaps) == 0 <==> AppendAll(mh, snaps) == mh
  {
    if Added(mh, snaps) > 0 {
      AppendAllGrows(mh, snaps);
    } else if snaps != [] {
      AddedZeroIffUnchanged(mh, snaps[..|snaps| - 1]);
    }
  }

  /** The ledger invariant: each list holds only its member's records, at most one per week. */
  ghost predicate LedgerValid(mh: MemberHistory) {
    forall u :: u in mh ==> UniqueWeeks(mh[u]) && forall i :: 0 <= i < |mh[u]| ==> mh[u][i].member == u
  }

  /** Appending only absent weeks keeps the ledger invariant. */
  lemma {:induction false} AppendAllKeepsLedgerValid(mh: MemberHistory, snaps: seq<Snapshot>)
    requires LedgerValid(mh)
    ensures LedgerValid(AppendAll(mh, snaps))
  {
    if snaps != [] {
      var init := snaps[..|snaps| - 1];
      var s := snaps[|snaps| - 1];
      AppendAllKeepsLedgerValid(mh, init);
      var prev := AppendAll(mh, init);
      var l := SnapshotsOf(prev, s.member);
      if !HasWeek(l, s.week) {
        var l' := l + [s];
        assert UniqueWeeks(l') by {
          forall i, j | 0 <= i < j < |l'| ensures l'[i].week != l'[j].week {
            if j == |l| {
              assert l'[i] == l[i];
            } else {
              assert l'[i] == l[i] && l'[j] == l[j];
            }
          }
        }
      }
    }
  }

  /** AppendAll and Added over a prefix one element longer. */
  lemma AppendAllStep(mh: MemberHistory, snaps: seq<Snapshot>, i: int)
    requires 0 <= i < |snaps|
    ensures AppendAll(mh, snaps[..i + 1]) == AppendIfAbsent(AppendAll(mh, snaps[..i]), snaps[i])
    ensures Added(mh, snaps[..i + 1]) ==
            Added(mh, snaps[..i]) + (if HasWeek(SnapshotsOf(AppendAll(mh, snaps[..i]), snaps[i].member), snaps[i].week) then 0 else 1)
  {
    assert snaps[..i + 1][..i] == snaps[..i];
  }

  /** One row of `team_data`: what a profile fetch returned for a member. */
  datatype TeamEntry = TeamEntry(username: string, totalSolved: int, submissions: seq<DifficultyCount>)

  /** The record written for a team entry: the per-difficulty counts are the last matching entries. */
  function SnapshotOf(e: TeamEntry, week: Day): (s: Snapshot)
    ensures s.member == e.username && s.week == week && s.totalSolved == e.totalSolved
    ensures (forall i :: 0 <= i < |e.submissions| ==> e.submissions[i].difficulty != "Hard") ==> s.hard == 0
  {
    Snapshot(week, e.username, e.totalSolved,
             LastCount(e.submissions, "Easy"), LastCount(e.submissions, "Medium"), LastCount(e.submissions, "Hard"))
  }

  /** The snapshots recorded for a team, in team order. */
  function WeeklySnapshots(team: seq<TeamEntry>, week: Day): (snaps: seq<Snapshot>)
    ensures |snaps| == |team|
    ensures forall k :: 0 <= k < |team| ==> snaps[k] == SnapshotOf(team[k], week)
  {
    seq(|team|, k requires 0 <= k < |team| => SnapshotOf(team[k], week))
  }

  /** `hist.get(owner, {})` */
  function TeamOf(h: History, owner: string): MemberHistory {
    if owner in h then h[owner] else map[]
  }

  /** The persisted history document (`data/history.json`). */
  class HistoryService {
    var stored: History

    constructor(initial: History)
      ensures stored == initial
    {
      stored := initial;
    }

    /**
     * Records this week's snapshot for every team entry whose week is not yet
     * in the owner's ledger, and saves the document only when something was
     * appended. The week is the Monday of `when`, or of today when absent.
     */
    method RecordWeekly(owner: string, team: seq<TeamEntry>, when: Option<Day>, today: Day)
      returns (hist: History, saved: bool)
      modifies this
      ensures var snaps := WeeklySnapshots(team, WeekStart(when.GetOr(today)));
              && hist == old(stored)[owner := AppendAll(TeamOf(old(stored), owner), snaps)]
              && (saved <==> Added(TeamOf(old(stored), owner), snaps) > 0)
      ensures stored == if saved then hist else old(stored)
    {
      hist := stored;
      var week := WeekStart(when.GetOr(today));
      ghost var start := TeamOf(stored, owner);
      ghost var snaps := WeeklySnapshots(team, week);
      var mh := TeamOf(hist, owner);
      saved := false;
      var i := 0;
      while i < |team|
        invariant 0 <= i <= |team|
        invariant mh == AppendAll(start, snaps[..i])
        invariant saved <==> Added(start, snaps[..i]) > 0
        invariant stored == old(stored)
      {
        var s := SnapshotOf(team[i], week);
        AppendAllStep(start, snaps, i);
        var l := SnapshotsOf(mh, s.member);
        if !HasWeek(l, week) {
          mh := mh[s.member := l + [s]];
          saved := true;
        }
        i := i + 1;
      }
      assert snaps[..|team|] == snaps;
      hist := hist[owner := mh];
      if saved {
        stored := hist;
      }
    }
  }

  /**
   * `record_weekly_snapshots` in the Streamlit app computes the same ledger
   * step as `HistoryService.record_weekly`: recording is idempotent per
   * (owner, member, week), the ledger invariant is kept, and a second call in
   * the same week saves nothing.
   */
  lemma RecordWeeklyTwice(h: History, owner: string, team: seq<TeamEntry>, week: Day)
    requires LedgerValid(TeamOf(h, owner))
    ensures var snaps := WeeklySnapshots(team, week);
            var once := AppendAll(TeamOf(h, owner), snaps);
            && LedgerValid(once)
            && AllRecorded(once, snaps)
            && AppendAll(once, snaps) == once
            && Added(once, snaps) == 0
  {
    var snaps := WeeklySnapshots(team, week);
    AppendAllKeepsLedgerValid(TeamOf(h, owner), snaps);
    AppendAllIdempotent(TeamOf(h, owner), snaps);
    AppendAllRecordsAll(TeamOf(h, owner), snaps);
  }
}
