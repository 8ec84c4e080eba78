/**
 * The repair of the history written before 2025-11-24, whose counts were
 * stored doubled: each such snapshot has its positive counts halved, the
 * history is walked and fixed in place, and the result is written back only
 * when the operator confirms.
 */
module FixDoubled {
  import opened Text
  import opened HistoryDocs

  /** Snapshots of weeks from this one on were recorded correctly. */
  const Cutoff: string := "2025-11-24"

  /** The counts that were doubled: the total and both spellings of each difficulty. */
  const CountKeys: seq<string> := ["totalSolved", "Easy", "easy", "Medium", "medium", "Hard", "hard"]

  /** `snapshot.get("week_start", "")`; a value that is not a string reads as "". */
  function WeekOf(d: Doc): string {
    if "week_start" in d && d["week_start"].Str? then d["week_start"].s else ""
  }

  /** A count the repair halves: present, an integer and positive. */
  predicate Halvable(d: Doc, key: string) {
    key in CountKeys && key in d && d[key].Int? && d[key].i > 0
  }

  /** The copy with every halvable count floor-halved and every other key as it was. */
  function Halve(d: Doc): Doc {
    map key | key in d :: if Halvable(d, key) then Int(d[key].i / 2) else d[key]
  }

  /** `fix_snapshot`: the repaired copy and whether anything was halved. */
  function FixSnapshot(d: Doc, week: string): (Doc, bool) {
    if StrLeq(Cutoff, week) then (d, false)
    else (Halve(d), exists i :: 0 <= i < |CountKeys| && Halvable(d, CountKeys[i]))
  }

  /** The repair the walk applies: each snapshot against its own week. */
  function FixByWeek(): Repair {
    (d: Doc) => FixSnapshot(d, WeekOf(d))
  }

  /**
   * A snapshot from the cutoff week on is returned as it is, unmodified.
   * An earlier one keeps its keys, has each positive count halved (rounding
   * down) and every other field unchanged, and is reported modified iff some
   * count was halved; one reported unmodified is unchanged.
   */
  lemma FixSnapshotSpec(d: Doc, week: string)
    ensures StrLeq(Cutoff, week) ==> FixSnapshot(d, week) == (d, false)
    ensures FixSnapshot(d, week).0.Keys == d.Keys
    ensures forall key :: key in d ==>
      FixSnapshot(d, week).0[key] == if !StrLeq(Cutoff, week) && Halvable(d, key) then Int(d[key].i / 2) else d[key]
    ensures FixSnapshot(d, week).1 <==> !StrLeq(Cutoff, week) && exists key :: Halvable(d, key)
    ensures !FixSnapshot(d, week).1 ==> FixSnapshot(d, week).0 == d
  {
    if !StrLeq(Cutoff, week) {
      if exists key :: Halvable(d, key) {
        var key :| Halvable(d, key);
        var i :| 0 <= i < |CountKeys| && CountKeys[i] == key;
      }
    }
  }

  /** The counts of a document as the doubling bug stored them. */
  function Doubled(d: Doc): Doc {
    map key | key in d :: if key in CountKeys && d[key].Int? then Int(2 * d[key].i) else d[key]
  }

  /**
   * The repair undoes the bug: a snapshot before the cutoff whose counts were
   * doubled from non-negative values gets exactly its true counts back.
   */
  lemma FixUndoesDoubling(d: Doc, week: string)
    requires !StrLeq(Cutoff, week)
    requires forall key :: key in d && key in CountKeys && d[key].Int? ==> d[key].i >= 0
    ensures FixSnapshot(Doubled(d), week).0 == d
  {
    var r := FixSnapshot(Doubled(d), week).0;
    assert r.Keys == d.Keys;
    forall key | key in d ensures r[key] == d[key] {
    }
  }

  /**
   * The repair is not idempotent: a snapshot before the cutoff with a count
   * of at least 2 left after one run is halved again by a second run.
   */
  lemma SecondRunHalvesAgain(d: Doc, week: string, key: string)
    requires !StrLeq(Cutoff, week)
    requires key in CountKeys && key in d && d[key].Int? && d[key].i >= 2
    ensures FixSnapshot(FixSnapshot(d, week).0, week).1
  {
    var once := FixSnapshot(d, week).0;
    assert once[key].i >= 1;
    FixSnapshotSpec(once, week);
    assert Halvable(once, key);
  }

  /** Replacing only the snapshots reported modified gives every snapshot its repaired copy. */
  lemma FixAllSpec(h: History)
    ensures var r := RepairHistory(FixByWeek(), h);
      forall o, m, i :: 0 <= o < |h| && 0 <= m < |h[o].1| && 0 <= i < |h[o].1[m].1| ==>
        r[o].1[m].1[i] == FixSnapshot(h[o].1[m].1[i], WeekOf(h[o].1[m].1[i])).0
  {
    RepairHistoryShape(FixByWeek(), h);
    forall o, m, i | 0 <= o < |h| && 0 <= m < |h[o].1| && 0 <= i < |h[o].1[m].1|
      ensures Applied(FixByWeek(), h[o].1[m].1[i]) == FixSnapshot(h[o].1[m].1[i], WeekOf(h[o].1[m].1[i])).0
    {
      FixSnapshotSpec(h[o].1[m].1[i], WeekOf(h[o].1[m].1[i]));
    }
  }

  /**
   * `main`: the history is read, fixed snapshot by snapshot in a working
   * copy, and written back only when confirmed; the counts of snapshots seen
   * and fixed are returned either way.
   */
  method FixDoubledHistory(file: HistoryFile, confirmed: bool) returns (total: nat, fixed: nat)
    modifies file
    ensures file.history == if confirmed then RepairHistory(FixByWeek(), old(file.history)) else old(file.history)
    ensures total == CountHistory(old(file.history)) && fixed == ChangedHistory(FixByWeek(), old(file.history))
  {
    var working := new HistoryFile(file.history);
    total, fixed := working.Repair(FixByWeek());
    if confirmed {
      file.history := working.history;
    }
  }
}
