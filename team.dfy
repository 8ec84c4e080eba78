/**
 * The team endpoints: the roster listing with live counts, adding, editing
 * and removing roster entries, and the team totals. The members document is
 * the store's field; the live profile fetch is an oracle map.
 */
module TeamApi {
  import opened Wrappers
  import opened Records
  import opened Sorting
  import opened PySeq
  import opened Text
  import opened Roster

  /** Python truthiness of an optional string: present and not empty. */
  predicate Truthy(o: Option<string>) {
    o.Some? && o.value != ""
  }

  /** `o or default` for an optional string. */
  function OrElse(o: Option<string>, default: string): (r: string)
    ensures Truthy(o) ==> r == o.value
    ensures !Truthy(o) ==> r == default
  {
    if Truthy(o) then o.value else default
  }

  /** The outcome of a roster edit: the stored entry, or the HTTP error raised. */
  datatype Outcome = Ok(member: Member) | NotFound | BadRequest

  /** The body of an add request. */
  datatype TeamMember = TeamMember(username: string, name: Option<string>, status: Option<string>)

  /** The body of an edit request; each field may be absent. */
  datatype MemberUpdate = MemberUpdate(name: Option<string>, username: Option<string>, status: Option<string>)

  /** The entry `add_team_member` stores: the given name, else the profile's real name, else the username. */
  function NewEntry(req: TeamMember, profile: Profile): (m: Member)
    ensures m.username == req.username
    ensures m.name.Some? && m.status.Some?
    ensures Truthy(req.name) ==> m.name == req.name
    ensures !Truthy(req.name) && profile.realName.Some? ==> m.name == profile.realName
    ensures !Truthy(req.name) && profile.realName.None? ==> m.name == Some(req.username)
    ensures m.status == Some(if Truthy(req.status) then req.status.value else "active")
  {
    Member(req.username, Some(OrElse(req.name, profile.realName.GetOr(req.username))), Some(OrElse(req.status, "active")))
  }

  /** The edit finds its entry by username, ignoring case. */
  function SameUsernameIgnoringCase(username: string): Member -> bool {
    (m: Member) => Lower(m.username) == Lower(username)
  }

  /** The edit renames when a non-empty new username differs from the one in the path. */
  predicate Renames(upd: MemberUpdate, memberUsername: string) {
    Truthy(upd.username) && upd.username.value != memberUsername
  }

  /** The entry after an accepted edit: name first, then the rename, then the status. */
  function ApplyUpdate(m: Member, memberUsername: string, upd: MemberUpdate): Member {
    var named :=
      match upd.name
      case None => m
      case Some(n) =>
        if Strip(n) == "" then m.(name := Some(if Truthy(upd.username) then upd.username.value else memberUsername))
        else m.(name := Some(n));
    var renamed :=
      if Renames(upd, memberUsername) then
        var newUsername := upd.username.value;
        named.(username := newUsername, name := if named.name == Some(memberUsername) then Some(newUsername) else named.name)
      else named;
    if Truthy(upd.status) then renamed.(status := upd.status) else renamed
  }

  /**
   * The edit rules: the username changes only by a rename; a blank new name
   * becomes the new username if one is given, else the path's username; a
   * name equal to the old username follows a rename; a name that is neither
   * blank nor the old username is stored as given; the status changes only
   * when a non-empty one is supplied.
   */
  lemma ApplyUpdateSpec(m: Member, memberUsername: string, upd: MemberUpdate)
    ensures var r := ApplyUpdate(m, memberUsername, upd);
      r.username == if Renames(upd, memberUsername) then upd.username.value else m.username
    ensures var r := ApplyUpdate(m, memberUsername, upd);
      upd.name.Some? && Strip(upd.name.value) == "" ==>
        r.name == Some(if Truthy(upd.username) then upd.username.value else memberUsername)
    ensures var r := ApplyUpdate(m, memberUsername, upd);
      upd.name.Some? && Strip(upd.name.value) != "" && upd.name.value != memberUsername ==> r.name == upd.name
    ensures var r := ApplyUpdate(m, memberUsername, upd);
      (Renames(upd, memberUsername) && (upd.name == Some(memberUsername) || (upd.name.None? && m.name == Some(memberUsername))))
        ==> r.name == upd.username
    ensures var r := ApplyUpdate(m, memberUsername, upd);
      upd.name.None? && !Renames(upd, memberUsername) ==> r.name == m.name
    ensures var r := ApplyUpdate(m, memberUsername, upd);
      r.status == if Truthy(upd.status) then upd.status else m.status
  {
    if upd.name.Some? && Strip(upd.name.value) == "" && Renames(upd, memberUsername) {
      assert upd.username.value != memberUsername;
    }
  }

  /** Replacing one entry by one with a fresh username, or with its own username, keeps usernames unique. */
  lemma ReplaceKeepsUnique(members: seq<Member>, i: nat, m: Member)
    requires i < |members| && UniqueUsernames(members)
    requires m.username == members[i].username || !HasUsername(members, m.username)
    ensures UniqueUsernames(members[i := m])
  {
  }

  // ----------------------------------------------------------------- stats

  /** `m.get("status", "active") != "suspended"` */
  function NotSuspended(): Member -> bool {
    (m: Member) => m.status.GetOr("active") != "suspended"
  }

  /** The profiles of the members whose fetch succeeds. */
  function Fetched(members: seq<Member>, fetch: Fetch): (r: seq<Profile>)
    ensures |r| <= |members|
  {
    if members == [] then []
    else
      var last := members[|members| - 1];
      Fetched(members[..|members| - 1], fetch) + (if last.username in fetch then [fetch[last.username]] else [])
  }

  datatype Field = TotalSolved | Easy | Medium | Hard

  function FieldOf(p: Profile, f: Field): int {
    match f
    case TotalSolved => p.totalSolved
    case Easy => p.easy
    case Medium => p.medium
    case Hard => p.hard
  }

  function SumOf(data: seq<Profile>, f: Field): int {
    if data == [] then 0 else SumOf(data[..|data| - 1], f) + FieldOf(data[|data| - 1], f)
  }

  datatype TeamStats = TeamStats(
    totalMembers: nat, totalProblemsSolved: int, averageSolved: int, easy: int, medium: int, hard: int)

  /**
   * `get_team_stats`: totals over the members that are not suspended and
   * whose fetch succeeds; the member count includes failed fetches, the
   * average divides by the successful ones (floor division, 0 with none).
   */
  function GetTeamStats(members: seq<Member>, fetch: Fetch): TeamStats {
    var active := Filter(members, NotSuspended());
    if active == [] then TeamStats(0, 0, 0, 0, 0, 0)
    else
      var data := Fetched(active, fetch);
      var total := SumOf(data, TotalSolved);
      TeamStats(|active|, total, if |data| > 0 then total / |data| else 0,
                SumOf(data, Easy), SumOf(data, Medium), SumOf(data, Hard))
  }

  /** Floor division by a positive count brackets the dividend. */
  lemma FloorDivBounds(total: int, n: int)
    requires n > 0
    ensures (total / n) * n <= total < (total / n + 1) * n
  {
    assert total == (total / n) * n + total % n;
  }

  /** Suspended members do not count at all. */
  lemma TeamStatsIgnoresSuspended(members: seq<Member>, fetch: Fetch)
    ensures GetTeamStats(members, fetch) == GetTeamStats(Filter(members, NotSuspended()), fetch)
  {
    FilterKeepsAll(Filter(members, NotSuspended()), NotSuspended());
  }

  /** A roster with nobody active gives all zeros. */
  lemma TeamStatsNoneActive(members: seq<Member>, fetch: Fetch)
    requires forall m :: m in members ==> !NotSuspended()(m)
    ensures GetTeamStats(members, fetch) == TeamStats(0, 0, 0, 0, 0, 0)
  {
    FilterNone(members, NotSuspended());
  }

  /**
   * The member count is the active members, fetched or not; the average is
   * the floor of the total over the members whose fetch succeeded, and 0
   * when none did.
   */
  lemma TeamStatsAverage(members: seq<Member>, fetch: Fetch)
    ensures var stats := GetTeamStats(members, fetch);
      var n := |Fetched(Filter(members, NotSuspended()), fetch)|;
      stats.totalMembers == |Filter(members, NotSuspended())|
      && (n > 0 ==> stats.averageSolved * n <= stats.totalProblemsSolved < (stats.averageSolved + 1) * n)
      && (n == 0 ==> stats.averageSolved == 0 && stats.totalProblemsSolved == 0)
  {
    var active := Filter(members, NotSuspended());
    var data := Fetched(active, fetch);
    if |data| > 0 {
      FloorDivBounds(SumOf(data, TotalSolved), |data|);
    } else {
      assert data == [];
    }
  }

  // ---------------------------------------------------------------- listing

  /** One line of the team listing. */
  datatype MemberView = MemberView(
    username: string, name: string, status: string, totalSolved: int, easy: int, medium: int, hard: int)

  /** A roster entry with its live counts, or zeros when the fetch fails. */
  function ViewOf(m: Member, fetch: Fetch): (v: MemberView)
    ensures v.username == m.username && v.name == DisplayName(m)
    ensures m.username !in fetch ==> v.totalSolved == 0
  {
    if m.username in fetch then
      var p := fetch[m.username];
      MemberView(m.username, DisplayName(m), m.status.GetOr("active"), p.totalSolved, p.easy, p.medium, p.hard)
    else
      MemberView(m.username, DisplayName(m), m.status.GetOr("active"), 0, 0, 0, 0)
  }

  function ViewsOf(members: seq<Member>, fetch: Fetch): (r: seq<MemberView>)
    ensures |r| == |members|
    ensures forall i :: 0 <= i < |members| ==> r[i] == ViewOf(members[i], fetch)
  {
    if members == [] then [] else ViewsOf(members[..|members| - 1], fetch) + [ViewOf(members[|members| - 1], fetch)]
  }

  function SolvedOf(v: MemberView): int {
    v.totalSolved
  }

  /** `get_team_members`: every roster entry with its counts, most solved first. */
  function GetTeamMembers(members: seq<Member>, fetch: Fetch): seq<MemberView> {
    SortBy(ViewsOf(members, fetch), Descending(SolvedOf))
  }

  /** The listing has one line per roster entry, and lists them by solved count, highest first. */
  lemma GetTeamMembersSpec(members: seq<Member>, fetch: Fetch)
    ensures |GetTeamMembers(members, fetch)| == |members|
    ensures multiset(GetTeamMembers(members, fetch)) == multiset(ViewsOf(members, fetch))
    ensures forall i, j :: 0 <= i < j < |GetTeamMembers(members, fetch)| ==>
      GetTeamMembers(members, fetch)[i].totalSolved >= GetTeamMembers(members, fetch)[j].totalSolved
    ensures forall m :: m in members ==> ViewOf(m, fetch) in GetTeamMembers(members, fetch)
  {
    var views := ViewsOf(members, fetch);
    SortDescending(views, SolvedOf);
    PermutationMembers(GetTeamMembers(members, fetch), views);
    forall m | m in members ensures ViewOf(m, fetch) in views {
      var i :| 0 <= i < |members| && members[i] == m;
      assert views[i] == ViewOf(m, fetch);
    }
  }

  // ------------------------------------------------------------------ store

  class TeamStore {
    /** The content of the members file. */
    var all: Roster

    constructor (stored: Roster)
      ensures all == stored
    {
      all := stored;
    }

    /**
     * `add_team_member`: a username unknown to LeetCode is 404, one already
     * on the roster is 400; otherwise exactly one entry is appended.
     */
    method AddTeamMember(owner: string, req: TeamMember, fetch: Fetch) returns (r: Outcome)
      modifies this
      ensures req.username !in fetch ==> r == NotFound && all == old(all)
      ensures req.username in fetch && HasUsername(RosterOf(old(all), owner), req.username) ==>
        r == BadRequest && all == old(all)
      ensures req.username in fetch && !HasUsername(RosterOf(old(all), owner), req.username) ==>
        r == Ok(NewEntry(req, fetch[req.username]))
        && all == old(all)[owner := RosterOf(old(all), owner) + [NewEntry(req, fetch[req.username])]]
      ensures UniqueUsernames(RosterOf(old(all), owner)) ==> UniqueUsernames(RosterOf(all, owner))
    {
      if req.username !in fetch {
        return NotFound;
      }
      var members := RosterOf(all, owner);
      if HasUsername(members, req.username) {
        return BadRequest;
      }
      var entry := NewEntry(req, fetch[req.username]);
      if UniqueUsernames(members) {
        AppendKeepsUnique(members, entry);
      }
      all := all[owner := members + [entry]];
      r := Ok(entry);
    }

    /**
     * `update_team_member`: finds the first entry whose username matches
     * ignoring case (404 if none), applies the edit, and refuses a rename to a
     * username unknown to LeetCode (404) or already on the roster (400); a
     * refused edit writes nothing.
     */
    method UpdateTeamMember(owner: string, memberUsername: string, upd: MemberUpdate, fetch: Fetch)
      returns (r: Outcome)
      modifies this
      ensures var members := RosterOf(old(all), owner);
        FirstIndex(members, SameUsernameIgnoringCase(memberUsername)).None? ==> r == NotFound && all == old(all)
      ensures var members := RosterOf(old(all), owner);
        FirstIndex(members, SameUsernameIgnoringCase(memberUsername)).Some? && Renames(upd, memberUsername) ==>
          (upd.username.value !in fetch ==> r == NotFound && all == old(all))
          && (upd.username.value in fetch && HasUsername(members, upd.username.value) ==> r == BadRequest && all == old(all))
      ensures var members := RosterOf(old(all), owner);
        var found := FirstIndex(members, SameUsernameIgnoringCase(memberUsername));
        (found.Some? && (Renames(upd, memberUsername) ==> upd.username.value in fetch && !HasUsername(members, upd.username.value)))
          ==> r == Ok(ApplyUpdate(members[found.value], memberUsername, upd))
              && all == old(all)[owner := members[found.value := ApplyUpdate(members[found.value], memberUsername, upd)]]
      ensures r.Ok? && UniqueUsernames(RosterOf(old(all), owner)) ==> UniqueUsernames(RosterOf(all, owner))
    {
      var members := RosterOf(all, owner);
      var index := -1;
      var i := 0;
      while i < |members|
        invariant 0 <= i <= |members|
        invariant forall k :: 0 <= k < i ==> !SameUsernameIgnoringCase(memberUsername)(members[k])
      {
        if Lower(members[i].username) == Lower(memberUsername) {
          index := i;
          break;
        }
        i := i + 1;
      }
      if index < 0 {
        assert FirstIndex(members, SameUsernameIgnoringCase(memberUsername)).None?;
        return NotFound;
      }
      assert FirstIndex(members, SameUsernameIgnoringCase(memberUsername)) == Some(index);
      if Renames(upd, memberUsername) {
        var newUsername := upd.username.value;
        if newUsername !in fetch {
          return NotFound;
        }
        if HasUsername(members, newUsername) {
          return BadRequest;
        }
      }
      var updated := ApplyUpdate(members[index], memberUsername, upd);
      ApplyUpdateSpec(members[index], memberUsername, upd);
      if UniqueUsernames(members) {
        ReplaceKeepsUnique(members, index, updated);
      }
      all := all[owner := members[index := updated]];
      r := Ok(updated);
    }

    /** `remove_team_member`: drops every entry with the username, keeping the rest in order. */
    method RemoveTeamMember(owner: string, username: string)
      modifies this
      ensures all == old(all)[owner := Without(RosterOf(old(all), owner), username)]
      ensures !HasUsername(RosterOf(all, owner), username)
      ensures Subsequence(RosterOf(all, owner), RosterOf(old(all), owner))
    {
      WithoutSpec(RosterOf(all, owner), username);
      all := all[owner := Without(RosterOf(all, owner), username)];
    }
  }
}
