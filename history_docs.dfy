/**
 * The stored history as the maintenance scripts see it: owner -> member ->
 * list of snapshot documents, every document a JSON object. Both repair
 * scripts walk it the same way, owner by owner, member by member, snapshot
 * by snapshot, rewriting a snapshot in place when the repair changes it and
 * counting snapshots seen and snapshots changed.
 */
module HistoryDocs {
  import opened Records

  /** A JSON value as far as the scripts and the restore look at it. */
  datatype Value = Null | Int(i: int) | Str(s: string) | Other

  /** A snapshot document: a JSON object. */
  type Doc = map<string, Value>

  /** `history.json`: owner -> username -> snapshots, dicts in insertion order. */
  type History = Ordered<Ordered<seq<Doc>>>

  /** `d.get(key, 0)` for a numeric field; a value that is not an integer reads as 0. */
  function IntOr(d: Doc, key: string): int {
    if key in d && d[key].Int? then d[key].i else 0
  }

  /** A per-snapshot repair: the repaired document and whether it changed anything. */
  type Repair = Doc -> (Doc, bool)

  /** The snapshot after the walk: replaced only when the repair reports a change. */
  function Applied(f: Repair, d: Doc): Doc {
    if f(d).1 then f(d).0 else d
  }

  function RepairSnapshots(f: Repair, snaps: seq<Doc>): seq<Doc> {
    seq(|snaps|, i requires 0 <= i < |snaps| => Applied(f, snaps[i]))
  }

  function RepairMembers(f: Repair, members: Ordered<seq<Doc>>): Ordered<seq<Doc>> {
    seq(|members|, i requires 0 <= i < |members| => (members[i].0, RepairSnapshots(f, members[i].1)))
  }

  /** The whole history after the walk. */
  function RepairHistory(f: Repair, h: History): History {
    seq(|h|, i requires 0 <= i < |h| => (h[i].0, RepairMembers(f, h[i].1)))
  }

  /** How many snapshots of a list the repair changes. */
  function Changed(f: Repair, snaps: seq<Doc>): nat {
    if snaps == [] then 0 else Changed(f, snaps[..|snaps| - 1]) + (if f(snaps[|snaps| - 1]).1 then 1 else 0)
  }

  function ChangedMembers(f: Repair, members: Ordered<seq<Doc>>): nat {
    if members == [] then 0 else ChangedMembers(f, members[..|members| - 1]) + Changed(f, members[|members| - 1].1)
  }

  /** How many snapshots of the whole history the repair changes. */
  function ChangedHistory(f: Repair, h: History): nat {
    if h == [] then 0 else ChangedHistory(f, h[..|h| - 1]) + ChangedMembers(f, h[|h| - 1].1)
  }

  function CountMembers(members: Ordered<seq<Doc>>): nat {
    if members == [] then 0 else CountMembers(members[..|members| - 1]) + |members[|members| - 1].1|
  }

  /** How many snapshots the history holds. */
  function CountHistory(h: History): nat {
    if h == [] then 0 else CountHistory(h[..|h| - 1]) + CountMembers(h[|h| - 1].1)
  }

  /** No more snapshots change than there are. */
  lemma {:induction false} ChangedAtMostCount(f: Repair, h: History)
    ensures ChangedHistory(f, h) <= CountHistory(h)
  {
    if h != [] {
      ChangedAtMostCount(f, h[..|h| - 1]);
      ChangedMembersAtMostCount(f, h[|h| - 1].1);
    }
  }

  lemma {:induction false} ChangedMembersAtMostCount(f: Repair, members: Ordered<seq<Doc>>)
    ensures ChangedMembers(f, members) <= CountMembers(members)
  {
    if members != [] {
      ChangedMembersAtMostCount(f, members[..|members| - 1]);
      ChangedAtMostLength(f, members[|members| - 1].1);
    }
  }

  lemma {:induction false} ChangedAtMostLength(f: Repair, snaps: seq<Doc>)
    ensures Changed(f, snaps) <= |snaps|
  {
    if snaps != [] {
      ChangedAtMostLength(f, snaps[..|snaps| - 1]);
    }
  }

  /**
   * The walk leaves the shape alone: the same owners and members in the same
   * order, the same number of snapshots each, and a snapshot the repair does
   * not change is left exactly as it was.
   */
  lemma RepairHistoryShape(f: Repair, h: History)
    ensures |RepairHistory(f, h)| == |h|
    ensures forall o :: 0 <= o < |h| ==>
      RepairHistory(f, h)[o].0 == h[o].0 && |RepairHistory(f, h)[o].1| == |h[o].1|
    ensures forall o, m :: 0 <= o < |h| && 0 <= m < |h[o].1| ==>
      RepairHistory(f, h)[o].1[m].0 == h[o].1[m].0 && |RepairHistory(f, h)[o].1[m].1| == |h[o].1[m].1|
    ensures forall o, m, i :: 0 <= o < |h| && 0 <= m < |h[o].1| && 0 <= i < |h[o].1[m].1| ==>
      RepairHistory(f, h)[o].1[m].1[i] == Applied(f, h[o].1[m].1[i])
  {
  }

  /** When every snapshot is left unchanged, the walk changes nothing and counts nothing. */
  lemma {:induction false} RepairNothing(f: Repair, h: History)
    requires forall o, m, i :: 0 <= o < |h| && 0 <= m < |h[o].1| && 0 <= i < |h[o].1[m].1| ==> !f(h[o].1[m].1[i]).1
    ensures RepairHistory(f, h) == h
    ensures ChangedHistory(f, h) == 0
  {
    forall o | 0 <= o < |h| ensures RepairHistory(f, h)[o] == h[o] && ChangedMembers(f, h[o].1) == 0 {
      RepairMembersNothing(f, h[o].1);
    }
    NoChangedHistory(f, h);
  }

  lemma {:induction false} NoChangedHistory(f: Repair, h: History)
    requires forall o :: 0 <= o < |h| ==> ChangedMembers(f, h[o].1) == 0
    ensures ChangedHistory(f, h) == 0
  {
    if h != [] {
      NoChangedHistory(f, h[..|h| - 1]);
    }
  }

  lemma {:induction false} RepairMembersNothing(f: Repair, members: Ordered<seq<Doc>>)
    requires forall m, i :: 0 <= m < |members| && 0 <= i < |members[m].1| ==> !f(members[m].1[i]).1
    ensures RepairMembers(f, members) == members
    ensures ChangedMembers(f, members) == 0
  {
    forall m | 0 <= m < |members| ensures RepairSnapshots(f, members[m].1) == members[m].1 {
    }
    if members != [] {
      var init := members[..|members| - 1];
      assert forall m :: 0 <= m < |init| ==> init[m] == members[m];
      RepairMembersNothing(f, init);
      NoneChanged(f, members[|members| - 1].1);
    }
  }

  lemma {:induction false} NoneChanged(f: Repair, snaps: seq<Doc>)
    requires forall i :: 0 <= i < |snaps| ==> !f(snaps[i]).1
    ensures Changed(f, snaps) == 0
  {
    if snaps != [] {
      NoneChanged(f, snaps[..|snaps| - 1]);
    }
  }

  /** One member's list: each snapshot replaced when the repair changed it, with the counts. */
  method RepairList(f: Repair, snaps: seq<Doc>) returns (r: seq<Doc>, total: nat, changed: nat)
    ensures r == RepairSnapshots(f, snaps)
    ensures total == |snaps| && changed == Changed(f, snaps)
  {
    r := snaps;
    total, changed := 0, 0;
    var i := 0;
    while i < |snaps|
      invariant 0 <= i <= |snaps| && |r| == |snaps|
      invariant forall k :: 0 <= k < |snaps| ==> r[k] == if k < i then Applied(f, snaps[k]) else snaps[k]
      invariant total == i && changed == Changed(f, snaps[..i])
    {
      assert snaps[..i + 1][..i] == snaps[..i];
      total := total + 1;
      var repaired := f(snaps[i]);
      if repaired.1 {
        r := r[i := repaired.0];
        changed := changed + 1;
      }
      i := i + 1;
    }
    assert snaps[..i] == snaps;
  }

  class HistoryFile {
    var history: History

    constructor (history: History)
      ensures this.history == history
    {
      this.history := history;
    }

    /**
     * The walk over every owner, member and snapshot: afterwards the history
     * is the repaired one, `total` is the number of snapshots and `changed`
     * the number the repair changed.
     */
    method Repair(f: Repair) returns (total: nat, changed: nat)
      modifies this
      ensures history == RepairHistory(f, old(history))
      ensures total == CountHistory(old(history)) && changed == ChangedHistory(f, old(history))
    {
      ghost var h0 := history;
      total, changed := 0, 0;
      var o := 0;
      while o < |history|
        invariant 0 <= o <= |history| && |history| == |h0|
        invariant forall k :: 0 <= k < |h0| ==> history[k] == if k < o then (h0[k].0, RepairMembers(f, h0[k].1)) else h0[k]
        invariant total == CountHistory(h0[..o]) && changed == ChangedHistory(f, h0[..o])
      {
        assert h0[..o + 1][..o] == h0[..o];
        var t, c := RepairOwner(f, o);
        total, changed := total + t, changed + c;
        o := o + 1;
      }
      assert h0[..o] == h0;
    }

    /** One owner's members, each list repaired in turn. */
    method RepairOwner(f: Repair, o: nat) returns (total: nat, changed: nat)
      requires o < |history|
      modifies this
      ensures history == old(history)[o := (old(history)[o].0, RepairMembers(f, old(history)[o].1))]
      ensures total == CountMembers(old(history)[o].1) && changed == ChangedMembers(f, old(history)[o].1)
    {
      var owner, members := history[o].0, history[o].1;
      var repaired := members;
      total, changed := 0, 0;
      var m := 0;
      while m < |members|
        invariant 0 <= m <= |members| && |repaired| == |members| && history == old(history)
        invariant forall k :: 0 <= k < |members| ==>
          repaired[k] == if k < m then (members[k].0, RepairSnapshots(f, members[k].1)) else members[k]
        invariant total == CountMembers(members[..m]) && changed == ChangedMembers(f, members[..m])
      {
        assert members[..m + 1][..m] == members[..m];
        var snaps, t, c := RepairList(f, members[m].1);
        repaired := repaired[m := (members[m].0, snaps)];
        total, changed := total + t, changed + c;
        m := m + 1;
      }
      assert members[..m] == members;
      assert repaired == RepairMembers(f, members);
      history := history[o := (owner, repaired)];
    }
  }
}
