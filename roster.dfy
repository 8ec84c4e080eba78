/**
 * The roster lists of members.json (owner to list of member entries) and the
 * list operations both the members service and the team endpoints perform on
 * them.
 */
module Roster {
  import opened Wrappers
  import opened Records
  import opened PySeq

  /** The members document: owner to that owner's roster. */
  type Roster = map<string, seq<Member>>

  /** `all_members.get(owner, [])` */
  function RosterOf(all: Roster, owner: string): seq<Member> {
    if owner in all then all[owner] else []
  }

  /** `any(m["username"] == username for m in members)` */
  predicate HasUsername(members: seq<Member>, username: string) {
    exists i :: 0 <= i < |members| && members[i].username == username
  }

  /** No username appears twice in a roster. */
  ghost predicate UniqueUsernames(members: seq<Member>) {
    forall i, j :: 0 <= i < j < |members| ==> members[i].username != members[j].username
  }

  function IsNot(username: string): Member -> bool {
    (m: Member) => m.username != username
  }

  /** `[m for m in members if m["username"] != username]` */
  function Without(members: seq<Member>, username: string): seq<Member> {
    Filter(members, IsNot(username))
  }

  /**
   * Removing a username drops every entry with it and keeps every other entry,
   * in order; removing twice is removing once; unique usernames stay unique.
   */
  lemma WithoutSpec(members: seq<Member>, username: string)
    ensures !HasUsername(Without(members, username), username)
    ensures forall m :: m in Without(members, username) <==> m in members && m.username != username
    ensures Subsequence(Without(members, username), members)
    ensures Without(Without(members, username), username) == Without(members, username)
    ensures UniqueUsernames(members) ==> UniqueUsernames(Without(members, username))
  {
    var r := Without(members, username);
    if HasUsername(r, username) {
      var i :| 0 <= i < |r| && r[i].username == username;
      assert r[i] in r;
    }
    FilterSubsequence(members, IsNot(username));
    FilterKeepsAll(r, IsNot(username));
    if UniqueUsernames(members) {
      SubsequenceUnique(r, members);
    }
  }

  /** A subsequence of a roster with unique usernames has unique usernames. */
  lemma {:induction false} SubsequenceUnique(r: seq<Member>, s: seq<Member>)
    requires Subsequence(r, s) && UniqueUsernames(s)
    ensures UniqueUsernames(r)
    decreases |s|
  {
    if r != [] {
      var t := s[1..];
      assert UniqueUsernames(t) by {
        forall i, j | 0 <= i < j < |t| ensures t[i].username != t[j].username {
          assert t[i] == s[i + 1] && t[j] == s[j + 1];
        }
      }
      if r[0] == s[0] {
        SubsequenceUnique(r[1..], t);
        SubsequenceMembers(r[1..], t);
        forall j | 0 < j < |r| ensures r[0].username != r[j].username {
          assert r[j] == r[1..][j - 1];
          assert r[j] in t;
          var k :| 0 <= k < |t| && t[k] == r[j];
          assert s[k + 1] == t[k];
        }
        forall i, j | 0 <= i < j < |r| ensures r[i].username != r[j].username {
          if i > 0 {
            assert r[i] == r[1..][i - 1] && r[j] == r[1..][j - 1];
          }
        }
      } else {
        SubsequenceUnique(r, t);
      }
    }
  }

  /** Appending an entry with a new username keeps usernames unique. */
  lemma AppendKeepsUnique(members: seq<Member>, m: Member)
    requires UniqueUsernames(members) && !HasUsername(members, m.username)
    ensures UniqueUsernames(members + [m])
  {
    var r := members + [m];
    forall i, j | 0 <= i < j < |r| ensures r[i].username != r[j].username {
      if j == |members| {
        assert r[i] == members[i];
      }
    }
  }
}
