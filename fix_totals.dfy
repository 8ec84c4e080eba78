/**
 * The reconciliation of stored totals with their difficulty breakdown: a
 * snapshot whose `totalSolved` is off from easy + medium + hard by more than
 * one is rewritten to the exact sum, in place, over the whole history.
 */
module FixTotals {
  import opened HistoryDocs

  /** easy + medium + hard, absent keys counting 0. */
  function Breakdown(d: Doc): int {
    IntOr(d, "easy") + IntOr(d, "medium") + IntOr(d, "hard")
  }

  /** Within the tolerance of 1 the total is left as it is. */
  predicate Consistent(d: Doc) {
    -1 <= IntOr(d, "totalSolved") - Breakdown(d) <= 1
  }

  /** One snapshot of the loop: rewritten to the exact sum when off by more than one. */
  function FixTotal(d: Doc): (Doc, bool) {
    if Consistent(d) then (d, false) else (d["totalSolved" := Int(Breakdown(d))], true)
  }

  /** The repair the walk applies. */
  function FixTotalRepair(): Repair {
    (d: Doc) => FixTotal(d)
  }

  /**
   * A snapshot is rewritten iff its total is off by more than one; a
   * rewritten one gets the exact sum as its total, and no other key, the
   * breakdown included, changes. Either way the result is consistent.
   */
  lemma FixTotalSpec(d: Doc)
    ensures FixTotal(d).1 <==> !(-1 <= IntOr(d, "totalSolved") - Breakdown(d) <= 1)
    ensures !FixTotal(d).1 ==> FixTotal(d).0 == d
    ensures FixTotal(d).1 ==> IntOr(FixTotal(d).0, "totalSolved") == Breakdown(d)
    ensures FixTotal(d).0.Keys == d.Keys + {"totalSolved"} || FixTotal(d).0 == d
    ensures forall key :: key in d && key != "totalSolved" ==> key in FixTotal(d).0 && FixTotal(d).0[key] == d[key]
    ensures Breakdown(FixTotal(d).0) == Breakdown(d)
    ensures Consistent(FixTotal(d).0)
  {
    var r := FixTotal(d).0;
    assert IntOr(r, "easy") == IntOr(d, "easy");
    assert IntOr(r, "medium") == IntOr(d, "medium");
    assert IntOr(r, "hard") == IntOr(d, "hard");
  }

  /** After the pass every snapshot is consistent. */
  lemma FixedHistoryConsistent(h: History)
    ensures var r := RepairHistory(FixTotalRepair(), h);
      forall o, m, i :: 0 <= o < |r| && 0 <= m < |r[o].1| && 0 <= i < |r[o].1[m].1| ==> Consistent(r[o].1[m].1[i])
  {
    var r := RepairHistory(FixTotalRepair(), h);
    RepairHistoryShape(FixTotalRepair(), h);
    forall o, m, i | 0 <= o < |r| && 0 <= m < |r[o].1| && 0 <= i < |r[o].1[m].1|
      ensures Consistent(r[o].1[m].1[i])
    {
      FixTotalSpec(h[o].1[m].1[i]);
    }
  }

  /** A second pass over the fixed history changes nothing and fixes nothing. */
  lemma FixIsIdempotent(h: History)
    ensures var r := RepairHistory(FixTotalRepair(), h);
      RepairHistory(FixTotalRepair(), r) == r && ChangedHistory(FixTotalRepair(), r) == 0
  {
    var r := RepairHistory(FixTotalRepair(), h);
    FixedHistoryConsistent(h);
    RepairNothing(FixTotalRepair(), r);
  }

  /**
   * `fix_history_data`: `false` and nothing touched when the file is
   * missing; otherwise every inconsistent snapshot's total is rewritten in
   * place, the counts of snapshots seen and fixed are returned, and `true`.
   */
  method FixHistoryData(file: HistoryFile, fileExists: bool) returns (ok: bool, total: nat, fixed: nat)
    modifies file
    ensures ok == fileExists
    ensures !fileExists ==> file.history == old(file.history) && total == 0 && fixed == 0
    ensures fileExists ==> (file.history == RepairHistory(FixTotalRepair(), old(file.history))
      && total == CountHistory(old(file.history)) && fixed == ChangedHistory(FixTotalRepair(), old(file.history)))
  {
    if !fileExists {
      return false, 0, 0;
    }
    total, fixed := file.Repair(FixTotalRepair());
    ok := true;
  }
}
