/**
 * The one-off migration of the stored history into the per-team snapshot
 * lists: every member's snapshots are normalised (lower-case difficulty
 * keys, the member's username, a week start that falls back to the date),
 * structurally equal snapshots are kept once, and each team's list is
 * sorted by week start.
 */
module S3Migration {
  import opened Wrappers
  import opened Records
  import opened Sorting
  import opened Text
  import PySeq

  /**
   * A snapshot as stored before the migration. `None` stands for a key that
   * is absent; for `week_start` and `date` a null value reads the same.
   */
  datatype RawSnapshot = RawSnapshot(
    weekStart: Option<string>, date: Option<string>,
    totalSolved: Option<int>, easy: Option<int>, medium: Option<int>, hard: Option<int>)

  /** A snapshot after the migration. */
  datatype Normalized = Normalized(weekStart: string, member: string, totalSolved: int, easy: int, medium: int, hard: int)

  /** A team's stored value: a dict username -> snapshots, or anything else. */
  datatype TeamValue = Histories(users: Ordered<seq<RawSnapshot>>) | NotADict

  /** `snapshot.get('week_start') or snapshot.get('date', '')`, empty meaning absent. */
  function WeekStartOf(s: RawSnapshot): (r: Option<string>)
    ensures r.Some? ==> r.value != ""
    ensures r.None? <==> (s.weekStart.None? || s.weekStart.value == "") && (s.date.None? || s.date.value == "")
    ensures s.weekStart.Some? && s.weekStart.value != "" ==> r == s.weekStart
    ensures (s.weekStart.None? || s.weekStart.value == "") && s.date.Some? && s.date.value != "" ==> r == s.date
  {
    if s.weekStart.Some? && s.weekStart.value != "" then s.weekStart
    else if s.date.Some? && s.date.value != "" then s.date
    else None
  }

  /** One snapshot of `username`, normalised; `None` when it has no week. */
  function Normalize(username: string, s: RawSnapshot): (r: Option<Normalized>)
    ensures r.None? <==> WeekStartOf(s).None?
    ensures r.Some? ==> r.value.member == username && r.value.weekStart == WeekStartOf(s).value
    ensures r.Some? ==> (r.value.totalSolved == s.totalSolved.GetOr(0) && r.value.easy == s.easy.GetOr(0)
      && r.value.medium == s.medium.GetOr(0) && r.value.hard == s.hard.GetOr(0))
  {
    match WeekStartOf(s)
    case None => None
    case Some(week) =>
      Some(Normalized(week, username, s.totalSolved.GetOr(0), s.easy.GetOr(0), s.medium.GetOr(0), s.hard.GetOr(0)))
  }

  /** A member's normalised snapshots, in order, before deduplication. */
  function UserCandidates(username: string, snaps: seq<RawSnapshot>): (r: seq<Normalized>)
    ensures |r| <= |snaps|
  {
    if snaps == [] then []
    else
      var n := Normalize(username, snaps[|snaps| - 1]);
      UserCandidates(username, snaps[..|snaps| - 1]) + (if n.Some? then [n.value] else [])
  }

  /** All of a team's normalised snapshots, member by member, before deduplication. */
  function TeamCandidates(users: Ordered<seq<RawSnapshot>>): seq<Normalized> {
    if users == [] then []
    else TeamCandidates(users[..|users| - 1]) + UserCandidates(users[|users| - 1].0, users[|users| - 1].1)
  }

  /** How many snapshots a team stores. */
  function SnapshotCount(users: Ordered<seq<RawSnapshot>>): nat {
    if users == [] then 0 else SnapshotCount(users[..|users| - 1]) + |users[|users| - 1].1|
  }

  /** Sorting key: the week start, compared as strings. */
  function ByWeek(): (Normalized, Normalized) -> bool {
    (a: Normalized, b: Normalized) => StrLeq(a.weekStart, b.weekStart)
  }

  lemma ByWeekIsTotalPreorder()
    ensures IsTotalPreorder(ByWeek())
  {
    forall a: Normalized, b: Normalized ensures ByWeek()(a, b) || ByWeek()(b, a) {
      StrLeqTotal(a.weekStart, b.weekStart);
    }
    forall a: Normalized, b: Normalized, c: Normalized | ByWeek()(a, b) && ByWeek()(b, c)
      ensures ByWeek()(a, c)
    {
      StrLeqTransitive(a.weekStart, b.weekStart, c.weekStart);
    }
  }

  /** What the migration makes of one team. */
  function MigratedTeam(users: Ordered<seq<RawSnapshot>>): seq<Normalized> {
    SortBy(PySeq.Dedup(TeamCandidates(users)), ByWeek())
  }

  /** What the migration makes of the whole history: teams that are not dicts are skipped. */
  function MigratedHistory(stored: Ordered<TeamValue>): Ordered<seq<Normalized>> {
    if stored == [] then []
    else
      var last := stored[|stored| - 1];
      MigratedHistory(stored[..|stored| - 1]) + (if last.1.Histories? then [(last.0, MigratedTeam(last.1.users))] else [])
  }

  // ------------------------------------------------------------ lemmas

  lemma {:induction false} UserCandidatesMembers(username: string, snaps: seq<RawSnapshot>)
    ensures forall n :: n in UserCandidates(username, snaps) <==>
      exists k :: 0 <= k < |snaps| && Normalize(username, snaps[k]) == Some(n)
  {
    if snaps != [] {
      var init := snaps[..|snaps| - 1];
      UserCandidatesMembers(username, init);
      assert forall k :: 0 <= k < |init| ==> init[k] == snaps[k];
      forall n | exists k :: 0 <= k < |snaps| && Normalize(username, snaps[k]) == Some(n)
        ensures n in UserCandidates(username, snaps)
      {
        var k :| 0 <= k < |snaps| && Normalize(username, snaps[k]) == Some(n);
        if k < |init| {
          assert Normalize(username, init[k]) == Some(n);
        }
      }
    }
  }

  /** Some member of the team has n among its normalised snapshots. */
  predicate SomeMemberHas(users: Ordered<seq<RawSnapshot>>, n: Normalized) {
    exists u :: 0 <= u < |users| && n in UserCandidates(users[u].0, users[u].1)
  }

  lemma SomeMemberHasSnoc(users: Ordered<seq<RawSnapshot>>, n: Normalized)
    requires users != []
    ensures SomeMemberHas(users, n) <==>
      SomeMemberHas(users[..|users| - 1], n) || n in UserCandidates(users[|users| - 1].0, users[|users| - 1].1)
  {
    var init := users[..|users| - 1];
    if SomeMemberHas(users, n) {
      var u :| 0 <= u < |users| && n in UserCandidates(users[u].0, users[u].1);
      if u < |init| {
        assert init[u] == users[u];
      }
    }
    if SomeMemberHas(init, n) {
      var u :| 0 <= u < |init| && n in UserCandidates(init[u].0, init[u].1);
      assert init[u] == users[u];
    }
  }

  lemma {:induction false} TeamCandidatesMembers(users: Ordered<seq<RawSnapshot>>)
    ensures forall n :: n in TeamCandidates(users) <==>
      exists u :: 0 <= u < |users| && n in UserCandidates(users[u].0, users[u].1)
  {
    if users != [] {
      var init := users[..|users| - 1];
      TeamCandidatesMembers(init);
      forall n ensures n in TeamCandidates(users) <==> SomeMemberHas(users, n) {
        SomeMemberHasSnoc(users, n);
        assert SomeMemberHas(init, n) <==> n in TeamCandidates(init);
      }
    }
  }

  lemma {:induction false} TeamCandidatesCount(users: Ordered<seq<RawSnapshot>>)
    ensures |TeamCandidates(users)| <= SnapshotCount(users)
  {
    if users != [] {
      TeamCandidatesCount(users[..|users| - 1]);
    }
  }

  /**
   * A migrated team is sorted by week start, holds no two equal snapshots,
   * holds no more snapshots than were stored, and holds exactly the
   * normalised snapshots of its members: a snapshot is kept iff some member
   * has a stored snapshot with a week that normalises to it.
   */
  lemma MigratedTeamSpec(users: Ordered<seq<RawSnapshot>>)
    ensures SortedBy(MigratedTeam(users), ByWeek())
    ensures forall i, j :: 0 <= i < j < |MigratedTeam(users)| ==> MigratedTeam(users)[i] != MigratedTeam(users)[j]
    ensures |MigratedTeam(users)| <= SnapshotCount(users)
    ensures forall n :: n in MigratedTeam(users) <==>
      exists u :: 0 <= u < |users| && n in UserCandidates(users[u].0, users[u].1)
  {
    var c := TeamCandidates(users);
    var d := PySeq.Dedup(c);
    var r := SortBy(d, ByWeek());
    assert r == MigratedTeam(users);
    DedupTeam(c, d, r);
    TeamCandidatesMembers(users);
    TeamCandidatesCount(users);
  }

  lemma DedupTeam(c: seq<Normalized>, d: seq<Normalized>, r: seq<Normalized>)
    requires d == PySeq.Dedup(c) && r == SortBy(d, ByWeek())
    ensures SortedBy(r, ByWeek())
    ensures forall i, j :: 0 <= i < j < |r| ==> r[i] != r[j]
    ensures |r| <= |c|
    ensures forall n :: n in r <==> n in c
  {
    ByWeekIsTotalPreorder();
    SortBySorted(d, ByWeek());
    PySeq.DedupSpec(c);
    PermutationMembers(r, d);
    PySeq.PermutationDistinct(r, d);
  }

  /** Every normalised snapshot names its member, a username the team stores. */
  lemma MigratedTeamMembers(users: Ordered<seq<RawSnapshot>>)
    ensures forall n :: n in MigratedTeam(users) ==> n.member in Keys(users)
  {
    MigratedTeamSpec(users);
    forall n | n in MigratedTeam(users) ensures n.member in Keys(users) {
      var u :| 0 <= u < |users| && n in UserCandidates(users[u].0, users[u].1);
      UserCandidatesMembers(users[u].0, users[u].1);
    }
  }

  /** A migrated team comes from a stored team of the same name whose value is a dict. */
  ghost predicate MigratedFrom(entry: (string, seq<Normalized>), stored: Ordered<TeamValue>) {
    exists j :: 0 <= j < |stored| && stored[j].0 == entry.0 && stored[j].1.Histories?
      && entry.1 == MigratedTeam(stored[j].1.users)
  }

  /**
   * The migrated history holds exactly the teams whose value is a dict, each
   * migrated, in their stored order.
   */
  lemma {:induction false} MigratedHistorySpec(stored: Ordered<TeamValue>)
    ensures forall i :: 0 <= i < |MigratedHistory(stored)| ==> MigratedFrom(MigratedHistory(stored)[i], stored)
  {
    if stored != [] {
      var init := stored[..|stored| - 1];
      var last := stored[|stored| - 1];
      var r0 := MigratedHistory(init);
      var r := MigratedHistory(stored);
      MigratedHistorySpec(init);
      forall i | 0 <= i < |r| ensures MigratedFrom(r[i], stored) {
        if i < |r0| {
          assert r[i] == r0[i];
          assert MigratedFrom(r0[i], init);
          var j :| 0 <= j < |init| && init[j].0 == r0[i].0 && init[j].1.Histories?
            && r0[i].1 == MigratedTeam(init[j].1.users);
          assert stored[j] == init[j];
        } else {
          assert r[i] == (last.0, MigratedTeam(last.1.users));
        }
      }
    }
  }

  /**
   * The migrated history's teams are the stored teams whose value is a dict;
   * a dict's distinct keys stay distinct.
   */
  lemma {:induction false} MigratedHistoryKeys(stored: Ordered<TeamValue>)
    ensures forall j :: 0 <= j < |stored| && stored[j].1.Histories? ==> stored[j].0 in Keys(MigratedHistory(stored))
    ensures Keys(MigratedHistory(stored)) <= Keys(stored)
    ensures DistinctKeys(stored) ==> DistinctKeys(MigratedHistory(stored))
  {
    if stored != [] {
      var init := stored[..|stored| - 1];
      var last := stored[|stored| - 1];
      var r0 := MigratedHistory(init);
      MigratedHistoryKeys(init);
      assert forall j :: 0 <= j < |init| ==> init[j] == stored[j];
      KeysAppend(init, last);
      assert stored == init + [last];
      if last.1.Histories? {
        var entry := (last.0, MigratedTeam(last.1.users));
        assert MigratedHistory(stored) == r0 + [entry];
        KeysAppend(r0, entry);
        if DistinctKeys(stored) {
          assert last.0 !in Keys(init);
          DistinctKeysAppend(r0, entry);
        }
      } else {
        assert MigratedHistory(stored) == r0;
      }
    }
  }

  // ----------------------------------------------------------- the loops

  /**
   * `migrate_history` for one team: walk the members and their snapshots,
   * append each normalised snapshot unless an equal one is already there,
   * then sort by week start.
   */
  method MigrateTeam(users: Ordered<seq<RawSnapshot>>) returns (team: seq<Normalized>)
    ensures team == MigratedTeam(users)
  {
    team := [];
    var u := 0;
    while u < |users|
      invariant 0 <= u <= |users|
      invariant team == PySeq.Dedup(TeamCandidates(users[..u]))
    {
      team := MigrateUser(team, users[u].0, users[u].1, TeamCandidates(users[..u]));
      assert users[..u + 1][..u] == users[..u];
      u := u + 1;
    }
    assert users[..u] == users;
    team := SortBy(team, ByWeek());
  }

  /** The inner loop of `migrate_history`: one member's snapshots, appended unless already present. */
  method MigrateUser(team: seq<Normalized>, username: string, snaps: seq<RawSnapshot>, ghost before: seq<Normalized>)
    returns (r: seq<Normalized>)
    requires team == PySeq.Dedup(before)
    ensures r == PySeq.Dedup(before + UserCandidates(username, snaps))
  {
    r := team;
    var k := 0;
    assert before + UserCandidates(username, snaps[..0]) == before;
    while k < |snaps|
      invariant 0 <= k <= |snaps|
      invariant r == PySeq.Dedup(before + UserCandidates(username, snaps[..k]))
    {
      var n := Normalize(username, snaps[k]);
      assert snaps[..k + 1][..k] == snaps[..k];
      ghost var seen := before + UserCandidates(username, snaps[..k]);
      if n.Some? {
        assert before + UserCandidates(username, snaps[..k + 1]) == seen + [n.value];
        assert (seen + [n.value])[..|seen|] == seen;
        if n.value !in r {
          r := r + [n.value];
        }
      } else {
        assert UserCandidates(username, snaps[..k + 1]) == UserCandidates(username, snaps[..k]);
      }
      k := k + 1;
    }
    assert snaps[..k] == snaps;
  }

  /** `migrate_history`: each team that is a dict, migrated, under its own name. */
  method MigrateHistory(stored: Ordered<TeamValue>) returns (history: Ordered<seq<Normalized>>)
    ensures history == MigratedHistory(stored)
  {
    history := [];
    var t := 0;
    while t < |stored|
      invariant 0 <= t <= |stored|
      invariant history == MigratedHistory(stored[..t])
    {
      assert stored[..t + 1][..t] == stored[..t];
      var entry := stored[t];
      if entry.1.Histories? {
        var team := MigrateTeam(entry.1.users);
        history := history + [(entry.0, team)];
      }
      t := t + 1;
    }
    assert stored[..t] == stored;
  }
}
