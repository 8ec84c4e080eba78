/**
 * The members service: the members document kept in storage, read and
 * rewritten whole. The stored document is the service's field.
 */
module MembersService {
  import opened Wrappers
  import opened Records
  import opened Roster

  class MembersService {
    /** The content of data/members.json; an absent file reads as the empty document. */
    var all: Roster

    constructor (stored: Roster)
      ensures all == stored
    {
      all := stored;
    }

    /** `load_members`: the owner's roster, empty for an unknown owner. */
    function LoadMembers(owner: string): (r: seq<Member>)
      reads this
      ensures owner !in all ==> r == []
      ensures owner in all ==> r == all[owner]
    {
      RosterOf(all, owner)
    }

    /** `save_members`: replaces the owner's roster and nobody else's. */
    method SaveMembers(owner: string, members: seq<Member>)
      modifies this
      ensures all == old(all)[owner := members]
      ensures forall o :: o != owner ==> RosterOf(all, o) == RosterOf(old(all), o)
    {
      all := all[owner := members];
    }

    /**
     * `add_member`: refuses a username already on the owner's roster (nothing
     * is written), otherwise appends one entry with the given name.
     */
    method AddMember(owner: string, name: string, username: string) returns (added: bool)
      modifies this
      ensures added <==> !HasUsername(RosterOf(old(all), owner), username)
      ensures !added ==> all == old(all)
      ensures added ==> all == old(all)[owner := RosterOf(old(all), owner) + [Member(username, Some(name), None)]]
      ensures UniqueUsernames(RosterOf(old(all), owner)) ==> UniqueUsernames(RosterOf(all, owner))
    {
      var members := LoadMembers(owner);
      if HasUsername(members, username) {
        return false;
      }
      if UniqueUsernames(members) {
        AppendKeepsUnique(members, Member(username, Some(name), None));
      }
      SaveMembers(owner, members + [Member(username, Some(name), None)]);
      added := true;
    }

    /** `remove_member`: drops every entry with the username from the owner's roster. */
    method RemoveMember(owner: string, username: string)
      modifies this
      ensures all == old(all)[owner := Without(RosterOf(old(all), owner), username)]
      ensures !HasUsername(RosterOf(all, owner), username)
      ensures forall m :: m in RosterOf(all, owner) <==> m in RosterOf(old(all), owner) && m.username != username
    {
      WithoutSpec(LoadMembers(owner), username);
      SaveMembers(owner, Without(LoadMembers(owner), username));
    }
  }
}
