/**
 * The rank backfill over the snapshots table: every week is ranked on its
 * own, by total solved from highest to lowest and, on equal totals, by
 * username in ascending order, and each row's rank is written by id.
 */
module BackfillRanks {
  import opened Wrappers
  import opened Dates
  import opened Sorting
  import opened Text

  // --------------------------------------------------------- the table

  /** One row of the snapshots table, as far as the backfill reads and writes it. */
  datatype SnapRow = SnapRow(id: int, username: string, week: Day, totalSolved: int, rank: Option<int>)

  /** One row of the per-week query: `SELECT id, username, total_solved`. */
  datatype Candidate = Candidate(id: int, username: string, totalSolved: int)

  ghost predicate UniqueIds(rows: seq<SnapRow>) {
    forall i, j :: 0 <= i < j < |rows| ==> rows[i].id != rows[j].id
  }

  /** `ORDER BY total_solved DESC, username ASC`: may `a` come before `b`? */
  function RankBefore(): (Candidate, Candidate) -> bool {
    (a: Candidate, b: Candidate) =>
      a.totalSolved > b.totalSolved || (a.totalSolved == b.totalSolved && StrLeq(a.username, b.username))
  }

  lemma RankBeforeIsTotalPreorder()
    ensures IsTotalPreorder(RankBefore())
  {
    forall a: Candidate, b: Candidate ensures RankBefore()(a, b) || RankBefore()(b, a) {
      StrLeqTotal(a.username, b.username);
    }
    forall a: Candidate, b: Candidate, c: Candidate | RankBefore()(a, b) && RankBefore()(b, c)
      ensures RankBefore()(a, c)
    {
      if a.totalSolved == b.totalSolved == c.totalSolved {
        StrLeqTransitive(a.username, b.username, c.username);
      }
    }
  }

  /** `WHERE week_start = ?`, projected to the selected columns, in table order. */
  function InWeek(rows: seq<SnapRow>, week: Day): (r: seq<Candidate>)
    ensures |r| <= |rows|
  {
    if rows == [] then []
    else
      var last := rows[|rows| - 1];
      InWeek(rows[..|rows| - 1], week) + (if last.week == week then [Candidate(last.id, last.username, last.totalSolved)] else [])
  }

  /**
   * The per-week query: the week's rows in rank order. Rows tied on both
   * total and username come in table order (SQLite leaves that order open).
   */
  function Ordered(rows: seq<SnapRow>, week: Day): seq<Candidate> {
    SortBy(InWeek(rows, week), RankBefore())
  }

  /** `SELECT DISTINCT week_start ... ORDER BY week_start` */
  function Weeks(rows: seq<SnapRow>): (ws: seq<Day>)
    ensures forall w :: w in ws <==> exists i :: 0 <= i < |rows| && rows[i].week == w
    ensures forall i, j :: 0 <= i < j < |ws| ==> ws[i] < ws[j]
  {
    var all := seq(|rows|, i requires 0 <= i < |rows| => rows[i].week);
    assert forall i :: 0 <= i < |rows| ==> all[i] == rows[i].week;
    SortedDistinct(all)
  }

  /**
   * Within a week the ranks 1..n go down the query's order: a higher total
   * always ranks strictly better, and on equal totals the username that sorts
   * first (and differs) ranks strictly better. The ranked rows are exactly
   * the week's rows.
   */
  lemma OrderedSpec(rows: seq<SnapRow>, week: Day)
    ensures multiset(Ordered(rows, week)) == multiset(InWeek(rows, week))
    ensures var c := Ordered(rows, week);
      forall i, j :: 0 <= i < |c| && 0 <= j < |c| && c[i].totalSolved > c[j].totalSolved ==> i < j
    ensures var c := Ordered(rows, week);
      forall i, j :: (0 <= i < |c| && 0 <= j < |c| && c[i].totalSolved == c[j].totalSolved
        && StrLeq(c[i].username, c[j].username) && c[i].username != c[j].username) ==> i < j
  {
    var c := Ordered(rows, week);
    RankBeforeIsTotalPreorder();
    SortBySorted(InWeek(rows, week), RankBefore());
    forall i, j | 0 <= i < |c| && 0 <= j < |c| && c[i].totalSolved == c[j].totalSolved
        && StrLeq(c[i].username, c[j].username) && c[i].username != c[j].username
      ensures i < j
    {
      if j < i {
        assert RankBefore()(c[j], c[i]);
        StrLeqAntisymmetric(c[i].username, c[j].username);
      }
    }
  }

  /** The candidates of a week are that week's rows, one per row. */
  lemma {:induction false} InWeekMembers(rows: seq<SnapRow>, week: Day)
    ensures forall c :: c in InWeek(rows, week) <==>
      exists i :: 0 <= i < |rows| && rows[i].week == week && c == Candidate(rows[i].id, rows[i].username, rows[i].totalSolved)
  {
    if rows != [] {
      var init := rows[..|rows| - 1];
      InWeekMembers(init, week);
      forall c ensures c in InWeek(rows, week) <==>
        exists i :: 0 <= i < |rows| && rows[i].week == week && c == Candidate(rows[i].id, rows[i].username, rows[i].totalSolved)
      {
        if exists i :: 0 <= i < |rows| && rows[i].week == week && c == Candidate(rows[i].id, rows[i].username, rows[i].totalSolved) {
          var i :| 0 <= i < |rows| && rows[i].week == week && c == Candidate(rows[i].id, rows[i].username, rows[i].totalSolved);
          if i < |init| {
            assert init[i] == rows[i];
          }
        }
        if c in InWeek(init, week) {
          var i :| 0 <= i < |init| && init[i].week == week && c == Candidate(init[i].id, init[i].username, init[i].totalSolved);
          assert rows[i] == init[i];
        }
      }
    }
  }

  /** The position of an id in a week's order, plus one: the rank written for it. */
  function RankOf(c: seq<Candidate>, id: int): (r: Option<nat>)
    ensures r.Some? ==> 1 <= r.value <= |c| && c[r.value - 1].id == id
    ensures r.None? ==> forall k :: 0 <= k < |c| ==> c[k].id != id
  {
    if c == [] then None
    else if c[|c| - 1].id == id then Some(|c|)
    else RankOf(c[..|c| - 1], id)
  }

  /** What the backfill writes: each row's rank is its position in its own week's order. */
  function Ranked(rows: seq<SnapRow>): (r: seq<SnapRow>)
    ensures |r| == |rows|
  {
    seq(|rows|, i requires 0 <= i < |rows| => RankedAt(rows, i))
  }

  /** Row i with the rank its week's order gives it. */
  function RankedAt(rows: seq<SnapRow>, i: int): SnapRow
    requires 0 <= i < |rows|
  {
    var rank := RankOf(Ordered(rows, rows[i].week), rows[i].id);
    rows[i].(rank := if rank.Some? then Some(rank.value as int) else rows[i].rank)
  }

  /**
   * With unique ids every row is found in its week's order: every row gets a
   * rank, between 1 and the number of rows that week, and two rows of the
   * same week never share a rank.
   */
  lemma RankedSpec(rows: seq<SnapRow>)
    requires UniqueIds(rows)
    ensures forall i :: 0 <= i < |rows| ==>
      Ranked(rows)[i].rank.Some? && 1 <= Ranked(rows)[i].rank.value <= |InWeek(rows, rows[i].week)|
    ensures forall i, j :: 0 <= i < j < |rows| && rows[i].week == rows[j].week ==>
      Ranked(rows)[i].rank != Ranked(rows)[j].rank
  {
    forall i | 0 <= i < |rows|
      ensures Ranked(rows)[i].rank.Some? && 1 <= Ranked(rows)[i].rank.value <= |InWeek(rows, rows[i].week)|
    {
      RankedRow(rows, i);
    }
    forall i, j | 0 <= i < j < |rows| && rows[i].week == rows[j].week
      ensures Ranked(rows)[i].rank != Ranked(rows)[j].rank
    {
      RankedRow(rows, i);
      RankedRow(rows, j);
      var c := Ordered(rows, rows[i].week);
      DistinctIdsDistinctRanks(c, rows[i].id, rows[j].id);
    }
  }

  /** Row i's written rank is its position in its week's order, within the week's size. */
  lemma RankedRow(rows: seq<SnapRow>, i: int)
    requires 0 <= i < |rows|
    ensures RankOf(Ordered(rows, rows[i].week), rows[i].id).Some?
    ensures Ranked(rows)[i].rank == Some(RankOf(Ordered(rows, rows[i].week), rows[i].id).value as int)
    ensures 1 <= Ranked(rows)[i].rank.value <= |InWeek(rows, rows[i].week)|
  {
    RowIsRanked(rows, i);
    assert Ranked(rows)[i] == RankedAt(rows, i);
  }

  /** Two different ids found in the same order sit at different positions. */
  lemma DistinctIdsDistinctRanks(c: seq<Candidate>, a: int, b: int)
    requires a != b && RankOf(c, a).Some? && RankOf(c, b).Some?
    ensures RankOf(c, a).value != RankOf(c, b).value
  {
  }

  /**
   * The ranks written follow the order: in one week a row with more solved
   * problems gets a strictly smaller rank, and on equal totals the row whose
   * (different) username sorts first does.
   */
  lemma RankedOrder(rows: seq<SnapRow>, i: int, j: int)
    requires UniqueIds(rows)
    requires 0 <= i < |rows| && 0 <= j < |rows| && rows[i].week == rows[j].week
    requires rows[i].totalSolved > rows[j].totalSolved
      || (rows[i].totalSolved == rows[j].totalSolved && StrLeq(rows[i].username, rows[j].username)
          && rows[i].username != rows[j].username)
    ensures Ranked(rows)[i].rank.Some? && Ranked(rows)[j].rank.Some?
    ensures Ranked(rows)[i].rank.value < Ranked(rows)[j].rank.value
  {
    var week := rows[i].week;
    var c := Ordered(rows, week);
    RankedRow(rows, i);
    RankedRow(rows, j);
    OrderedSorted(rows, week);
    OrderedFromWeek(rows, week);
    RanksFollowOrder(rows, c, week, i, j);
  }

  /** `a` comes strictly before `b` in the query's order: more solved, or as many and a smaller username. */
  predicate Beats(a: Candidate, b: Candidate) {
    a.totalSolved > b.totalSolved || (a.totalSolved == b.totalSolved && StrLeq(a.username, b.username) && a.username != b.username)
  }

  /** Every candidate of a week's order is one of that week's rows. */
  lemma OrderedFromWeek(rows: seq<SnapRow>, week: Day)
    ensures forall x :: x in Ordered(rows, week) ==>
      exists k :: 0 <= k < |rows| && rows[k].week == week && x == Candidate(rows[k].id, rows[k].username, rows[k].totalSolved)
  {
    InWeekMembers(rows, week);
    forall x | x in Ordered(rows, week)
      ensures exists k :: 0 <= k < |rows| && rows[k].week == week && x == Candidate(rows[k].id, rows[k].username, rows[k].totalSolved)
    {
      assert x in multiset(Ordered(rows, week));
      assert x in InWeek(rows, week);
    }
  }

  /** In a sorted order of a week's rows, a strictly better row gets a strictly smaller rank. */
  lemma RanksFollowOrder(rows: seq<SnapRow>, c: seq<Candidate>, week: Day, i: int, j: int)
    requires UniqueIds(rows) && SortedBy(c, RankBefore())
    requires forall x :: x in c ==>
      exists k :: 0 <= k < |rows| && rows[k].week == week && x == Candidate(rows[k].id, rows[k].username, rows[k].totalSolved)
    requires 0 <= i < |rows| && 0 <= j < |rows|
    requires RankOf(c, rows[i].id).Some? && RankOf(c, rows[j].id).Some?
    requires Beats(Candidate(rows[i].id, rows[i].username, rows[i].totalSolved), Candidate(rows[j].id, rows[j].username, rows[j].totalSolved))
    ensures RankOf(c, rows[i].id).value < RankOf(c, rows[j].id).value
  {
    CandidateAtRank(rows, c, week, i);
    CandidateAtRank(rows, c, week, j);
    StrictlyBeforeComesFirst(c, RankOf(c, rows[i].id).value - 1, RankOf(c, rows[j].id).value - 1);
  }

  /** The candidate at a row's rank position is that row. */
  lemma CandidateAtRank(rows: seq<SnapRow>, c: seq<Candidate>, week: Day, i: int)
    requires UniqueIds(rows)
    requires forall x :: x in c ==>
      exists k :: 0 <= k < |rows| && rows[k].week == week && x == Candidate(rows[k].id, rows[k].username, rows[k].totalSolved)
    requires 0 <= i < |rows| && RankOf(c, rows[i].id).Some?
    ensures c[RankOf(c, rows[i].id).value - 1] == Candidate(rows[i].id, rows[i].username, rows[i].totalSolved)
  {
    var p := RankOf(c, rows[i].id).value - 1;
    assert c[p] in c;
    var k :| 0 <= k < |rows| && rows[k].week == week && c[p] == Candidate(rows[k].id, rows[k].username, rows[k].totalSolved);
    SameIdSameRow(rows, k, i);
  }

  lemma SameIdSameRow(rows: seq<SnapRow>, a: int, b: int)
    requires UniqueIds(rows) && 0 <= a < |rows| && 0 <= b < |rows| && rows[a].id == rows[b].id
    ensures a == b
  {
  }

  lemma OrderedSorted(rows: seq<SnapRow>, week: Day)
    ensures SortedBy(Ordered(rows, week), RankBefore())
  {
    RankBeforeIsTotalPreorder();
    SortBySorted(InWeek(rows, week), RankBefore());
  }

  /** In a list sorted by the rank order, a strictly better candidate sits strictly earlier. */
  lemma StrictlyBeforeComesFirst(c: seq<Candidate>, p: int, q: int)
    requires SortedBy(c, RankBefore())
    requires 0 <= p < |c| && 0 <= q < |c| && Beats(c[p], c[q])
    ensures p < q
  {
    if q < p {
      assert RankBefore()(c[q], c[p]);
      StrLeqAntisymmetric(c[p].username, c[q].username);
    }
  }

  lemma RowIsRanked(rows: seq<SnapRow>, i: int)
    requires 0 <= i < |rows|
    ensures RankOf(Ordered(rows, rows[i].week), rows[i].id).Some?
    ensures |Ordered(rows, rows[i].week)| == |InWeek(rows, rows[i].week)|
  {
    var c := Ordered(rows, rows[i].week);
    InWeekMembers(rows, rows[i].week);
    var x := Candidate(rows[i].id, rows[i].username, rows[i].totalSolved);
    assert x in InWeek(rows, rows[i].week);
    assert x in multiset(InWeek(rows, rows[i].week));
    assert x in c;
  }

  // ------------------------------------------------------------ the loop

  /** `UPDATE snapshots SET rank = ? WHERE id = ?` */
  function SetRank(rows: seq<SnapRow>, id: int, rank: int): (r: seq<SnapRow>)
    ensures |r| == |rows|
  {
    seq(|rows|, i requires 0 <= i < |rows| => if rows[i].id == id then rows[i].(rank := Some(rank)) else rows[i])
  }

  /** Rows that agree on everything the query reads give the same candidates. */
  lemma {:induction false} InWeekIgnoresRanks(a: seq<SnapRow>, b: seq<SnapRow>, week: Day)
    requires |a| == |b|
    requires forall i :: 0 <= i < |a| ==> a[i].(rank := None) == b[i].(rank := None)
    ensures InWeek(a, week) == InWeek(b, week)
  {
    if a != [] {
      InWeekIgnoresRanks(a[..|a| - 1], b[..|b| - 1], week);
      assert a[|a| - 1].(rank := None) == b[|b| - 1].(rank := None);
    }
  }

  /** The rows differ from the original at most in their ranks. */
  ghost predicate SameButRanks(rows: seq<SnapRow>, orig: seq<SnapRow>) {
    |rows| == |orig| && forall i :: 0 <= i < |rows| ==> rows[i].(rank := None) == orig[i].(rank := None)
  }

  class SnapshotTable {
    var rows: seq<SnapRow>

    constructor (rows: seq<SnapRow>)
      ensures this.rows == rows
    {
      this.rows := rows;
    }

    /**
     * `backfill_ranks`: for each week in ascending order, rank that week's
     * rows. Every row ends with the rank its week's order gives it, nothing
     * else changes, and the count of updates is the number of rows.
     */
    method Backfill() returns (totalUpdated: nat)
      requires UniqueIds(rows)
      modifies this
      ensures rows == Ranked(old(rows))
      ensures totalUpdated == |old(rows)|
    {
      ghost var orig := rows;
      var weeks := Weeks(rows);
      totalUpdated := RankWeeks(weeks, orig);
      AllWeeksDone(orig, rows, weeks);
      CountWeeksAll(orig, weeks);
    }

    /** The loop over the weeks: afterwards the rows of every listed week are ranked. */
    method RankWeeks(weeks: seq<Day>, ghost orig: seq<SnapRow>) returns (totalUpdated: nat)
      requires UniqueIds(orig) && rows == orig
      modifies this
      ensures |rows| == |orig|
      ensures forall i :: 0 <= i < |rows| ==>
        rows[i] == if orig[i].week in weeks then Ranked(orig)[i] else orig[i]
      ensures totalUpdated == CountWeeks(orig, weeks)
    {
      totalUpdated := 0;
      var w := 0;
      while w < |weeks|
        invariant 0 <= w <= |weeks|
        invariant SameButRanks(rows, orig)
        invariant forall i :: 0 <= i < |rows| ==>
          rows[i] == if orig[i].week in weeks[..w] then Ranked(orig)[i] else orig[i]
        invariant totalUpdated == CountWeeks(orig, weeks[..w])
      {
        ghost var before := rows;
        var updated := RankWeek(weeks[w], orig);
        WeekDone(orig, before, rows, weeks, w);
        CountWeeksStep(orig, weeks, w);
        totalUpdated := totalUpdated + updated;
        w := w + 1;
      }
      assert weeks[..w] == weeks;
    }

    /**
     * One week of the backfill: the week's rows in rank order, and one update
     * per row setting its rank to its position. The week's rows get their
     * ranks, every other row is left as it was.
     */
    method RankWeek(week: Day, ghost orig: seq<SnapRow>) returns (updated: nat)
      requires UniqueIds(orig) && SameButRanks(rows, orig)
      modifies this
      ensures SameButRanks(rows, orig)
      ensures forall i :: 0 <= i < |rows| ==>
        rows[i] == if orig[i].week == week then Ranked(orig)[i] else old(rows)[i]
      ensures updated == |InWeek(orig, week)|
    {
      InWeekIgnoresRanks(rows, orig, week);
      var snapshots := Ordered(rows, week);
      ghost var before := rows;
      var k := 0;
      while k < |snapshots|
        invariant 0 <= k <= |snapshots|
        invariant SameButRanks(rows, orig)
        invariant forall i :: 0 <= i < |rows| ==>
          rows[i] == if orig[i].week == week && Placed(snapshots, orig[i].id, k) then Ranked(orig)[i] else before[i]
      {
        UpdateStep(orig, before, rows, snapshots, week, k);
        rows := SetRank(rows, snapshots[k].id, k + 1);
        k := k + 1;
      }
      AllPlaced(orig, before, rows, snapshots, week);
      RowsOrdered(orig, week);
      updated := |snapshots|;
    }
  }

  /** The id is among the first k rows of the week's order. */
  predicate Placed(c: seq<Candidate>, id: int, k: int) {
    exists p :: 0 <= p < k && p < |c| && c[p].id == id
  }

  /** How many rows the given weeks hold together. */
  function CountWeeks(rows: seq<SnapRow>, ws: seq<Day>): nat {
    if ws == [] then 0 else CountWeeks(rows, ws[..|ws| - 1]) + |InWeek(rows, ws[|ws| - 1])|
  }

  lemma CountWeeksStep(rows: seq<SnapRow>, ws: seq<Day>, w: int)
    requires 0 <= w < |ws|
    ensures CountWeeks(rows, ws[..w + 1]) == CountWeeks(rows, ws[..w]) + |InWeek(rows, ws[w])|
  {
    assert ws[..w + 1][..w] == ws[..w];
  }

  /** One update of the inner loop: the k-th row of the order gets rank k + 1 and nothing else changes. */
  lemma UpdateStep(orig: seq<SnapRow>, before: seq<SnapRow>, rows: seq<SnapRow>, c: seq<Candidate>, week: Day, k: int)
    requires UniqueIds(orig) && |rows| == |orig| == |before|
    requires c == Ordered(orig, week) && 0 <= k < |c|
    requires forall i :: 0 <= i < |rows| ==> rows[i].(rank := None) == orig[i].(rank := None)
    requires forall i :: 0 <= i < |rows| ==>
      rows[i] == if orig[i].week == week && Placed(c, orig[i].id, k) then Ranked(orig)[i] else before[i]
    ensures var r := SetRank(rows, c[k].id, k + 1);
      forall i :: 0 <= i < |r| ==>
        r[i] == if orig[i].week == week && Placed(c, orig[i].id, k + 1) then Ranked(orig)[i] else before[i]
  {
    var r := SetRank(rows, c[k].id, k + 1);
    OrderedIdsDistinct(orig, week);
    forall i | 0 <= i < |r|
      ensures r[i] == if orig[i].week == week && Placed(c, orig[i].id, k + 1) then Ranked(orig)[i] else before[i]
    {
      assert rows[i].id == orig[i].id;
      if rows[i].id == c[k].id {
        CandidateWeek(orig, week, c, k, i);
        PositionRank(c, k);
        RankedAtRank(orig, i, c);
        assert Placed(c, orig[i].id, k + 1);
      } else {
        PlacedStep(c, orig[i].id, k);
      }
    }
  }

  /** A row whose id is the k-th of a week's order belongs to that week. */
  lemma CandidateWeek(orig: seq<SnapRow>, week: Day, c: seq<Candidate>, k: int, i: int)
    requires UniqueIds(orig) && c == Ordered(orig, week) && 0 <= k < |c|
    requires 0 <= i < |orig| && orig[i].id == c[k].id
    ensures orig[i].week == week
  {
    InWeekMembers(orig, week);
    assert c[k] in multiset(InWeek(orig, week));
    assert c[k] in InWeek(orig, week);
    var j :| 0 <= j < |orig| && orig[j].week == week && c[k] == Candidate(orig[j].id, orig[j].username, orig[j].totalSolved);
    assert i == j;
  }

  /** In an order without repeated ids, the k-th id has rank k + 1. */
  lemma PositionRank(c: seq<Candidate>, k: int)
    requires forall p, q :: 0 <= p < q < |c| ==> c[p].id != c[q].id
    requires 0 <= k < |c|
    ensures RankOf(c, c[k].id) == Some(k + 1)
  {
  }

  /** The rank written for row i is its rank in its week's order. */
  lemma RankedAtRank(orig: seq<SnapRow>, i: int, c: seq<Candidate>)
    requires 0 <= i < |orig| && c == Ordered(orig, orig[i].week) && RankOf(c, orig[i].id).Some?
    ensures Ranked(orig)[i] == orig[i].(rank := Some(RankOf(c, orig[i].id).value as int))
  {
    assert Ranked(orig)[i] == RankedAt(orig, i);
  }

  /** An id other than the k-th that is among the first k + 1 is among the first k. */
  lemma PlacedStep(c: seq<Candidate>, id: int, k: int)
    requires 0 <= k < |c| && c[k].id != id
    ensures Placed(c, id, k + 1) <==> Placed(c, id, k)
  {
    if Placed(c, id, k + 1) {
      var p :| 0 <= p < k + 1 && p < |c| && c[p].id == id;
      assert p != k;
    }
  }

  /** The ids in a week's order are pairwise distinct when the table's are. */
  lemma OrderedIdsDistinct(rows: seq<SnapRow>, week: Day)
    requires UniqueIds(rows)
    ensures var c := Ordered(rows, week);
      forall p, q :: 0 <= p < q < |c| ==> c[p].id != c[q].id
  {
    var c := Ordered(rows, week);
    InWeekDistinct(rows, week);
    forall p, q | 0 <= p < q < |c| ensures c[p].id != c[q].id {
      if c[p].id == c[q].id {
        CountIdTwice(c, p, q);
        CountIdOnce(InWeek(rows, week), c[p].id);
        CountIdPermutation(c, InWeek(rows, week), c[p].id);
      }
    }
  }

  /** The ids among the candidates of a week are pairwise distinct when the table's are. */
  lemma {:induction false} InWeekDistinct(rows: seq<SnapRow>, week: Day)
    requires UniqueIds(rows)
    ensures forall p, q :: 0 <= p < q < |InWeek(rows, week)| ==> InWeek(rows, week)[p].id != InWeek(rows, week)[q].id
  {
    if rows != [] {
      var init := rows[..|rows| - 1];
      var last := rows[|rows| - 1];
      InWeekDistinct(init, week);
      InWeekMembers(init, week);
      var c0 := InWeek(init, week);
      var c := InWeek(rows, week);
      assert c == c0 + (if last.week == week then [Candidate(last.id, last.username, last.totalSolved)] else []);
      forall p, q | 0 <= p < q < |c| ensures c[p].id != c[q].id {
        if q == |c0| {
          assert c[q].id == last.id;
          assert c[p] == c0[p] && c0[p] in c0;
          var j :| 0 <= j < |init| && init[j].week == week && c0[p] == Candidate(init[j].id, init[j].username, init[j].totalSolved);
          assert rows[j] == init[j];
        } else {
          assert c[p] == c0[p] && c[q] == c0[q];
        }
      }
    }
  }

  /** The number of candidates with an id. */
  function CountId(c: seq<Candidate>, id: int): nat {
    if c == [] then 0 else CountId(c[..|c| - 1], id) + (if c[|c| - 1].id == id then 1 else 0)
  }

  lemma {:induction false} CountIdOnce(c: seq<Candidate>, id: int)
    requires forall p, q :: 0 <= p < q < |c| ==> c[p].id != c[q].id
    ensures CountId(c, id) <= 1
  {
    if c != [] {
      var init := c[..|c| - 1];
      CountIdOnce(init, id);
      if c[|c| - 1].id == id && CountId(init, id) == 1 {
        CountIdWitness(init, id);
      }
    }
  }

  lemma {:induction false} CountIdWitness(c: seq<Candidate>, id: int)
    requires CountId(c, id) >= 1
    ensures exists p :: 0 <= p < |c| && c[p].id == id
  {
    var init := c[..|c| - 1];
    if c[|c| - 1].id != id {
      CountIdWitness(init, id);
      var p :| 0 <= p < |init| && init[p].id == id;
      assert c[p] == init[p];
    }
  }

  lemma {:induction false} CountIdTwice(c: seq<Candidate>, p: int, q: int)
    requires 0 <= p < q < |c| && c[p].id == c[q].id
    ensures CountId(c, c[p].id) >= 2
  {
    var init := c[..|c| - 1];
    if q < |c| - 1 {
      CountIdTwice(init, p, q);
    } else {
      CountIdAtLeastOne(init, p, c[p].id);
    }
  }

  lemma {:induction false} CountIdAtLeastOne(c: seq<Candidate>, p: int, id: int)
    requires 0 <= p < |c| && c[p].id == id
    ensures CountId(c, id) >= 1
  {
    if p < |c| - 1 {
      CountIdAtLeastOne(c[..|c| - 1], p, id);
    }
  }

  /** The count of an id is the same in any permutation. */
  lemma {:induction false} CountIdPermutation(a: seq<Candidate>, b: seq<Candidate>, id: int)
    requires multiset(a) == multiset(b)
    ensures CountId(a, id) == CountId(b, id)
    decreases |a|
  {
    if a != [] {
      var x := a[|a| - 1];
      var a0 := a[..|a| - 1];
      assert a == a0 + [x];
      assert x in multiset(b);
      var k :| 0 <= k < |b| && b[k] == x;
      var b0 := b[..k] + b[k + 1..];
      assert b == b[..k] + [x] + b[k + 1..];
      assert multiset(a) == multiset(a0) + multiset{x};
      assert multiset(b) == multiset(b[..k]) + multiset{x} + multiset(b[k + 1..]);
      assert multiset(b0) == multiset(b[..k]) + multiset(b[k + 1..]);
      assert multiset(a0) == multiset(a) - multiset{x};
      assert multiset(b0) == multiset(b) - multiset{x};
      CountIdPermutation(a0, b0, id);
      CountIdRemove(b, k, id);
    } else {
      assert b == [];
    }
  }

  lemma {:induction false} CountIdRemove(b: seq<Candidate>, k: int, id: int)
    requires 0 <= k < |b|
    ensures CountId(b, id) == CountId(b[..k] + b[k + 1..], id) + (if b[k].id == id then 1 else 0)
  {
    var init := b[..|b| - 1];
    if k < |b| - 1 {
      CountIdRemove(init, k, id);
      assert init[..k] + init[k + 1..] == (b[..k] + b[k + 1..])[..|b| - 2];
      assert (b[..k] + b[k + 1..])[|b| - 2] == b[|b| - 1];
    } else {
      assert b[..k] + b[k + 1..] == init;
    }
  }

  /** At the end of a week's loop the week's rows are all placed. */
  lemma AllPlaced(orig: seq<SnapRow>, before: seq<SnapRow>, rows: seq<SnapRow>, c: seq<Candidate>, week: Day)
    requires |rows| == |orig| == |before|
    requires c == Ordered(orig, week)
    requires forall i :: 0 <= i < |rows| ==>
      rows[i] == if orig[i].week == week && Placed(c, orig[i].id, |c|) then Ranked(orig)[i] else before[i]
    ensures forall i :: 0 <= i < |rows| ==>
      rows[i] == if orig[i].week == week then Ranked(orig)[i] else before[i]
  {
    forall i | 0 <= i < |rows|
      ensures rows[i] == if orig[i].week == week then Ranked(orig)[i] else before[i]
    {
      if orig[i].week == week {
        RowPlaced(orig, c, week, i);
      }
    }
  }

  /** A row's id is among the ids of its week's order. */
  lemma RowPlaced(orig: seq<SnapRow>, c: seq<Candidate>, week: Day, i: int)
    requires 0 <= i < |orig| && orig[i].week == week && c == Ordered(orig, week)
    ensures Placed(c, orig[i].id, |c|)
  {
    RowIsRanked(orig, i);
    RankedIsPlaced(c, orig[i].id);
  }

  lemma RankedIsPlaced(c: seq<Candidate>, id: int)
    requires RankOf(c, id).Some?
    ensures Placed(c, id, |c|)
  {
    var p := RankOf(c, id).value - 1;
    assert 0 <= p < |c| && c[p].id == id;
  }

  /** A week's order holds as many rows as the week. */
  lemma RowsOrdered(rows: seq<SnapRow>, week: Day)
    ensures |Ordered(rows, week)| == |InWeek(rows, week)|
  {
    var c := InWeek(rows, week);
    assert |multiset(Ordered(rows, week))| == |multiset(c)|;
  }

  /** After a week is ranked, the weeks done so far include it. */
  lemma WeekDone(orig: seq<SnapRow>, before: seq<SnapRow>, rows: seq<SnapRow>, weeks: seq<Day>, w: int)
    requires 0 <= w < |weeks| && |rows| == |orig| == |before|
    requires forall i :: 0 <= i < |before| ==>
      before[i] == if orig[i].week in weeks[..w] then Ranked(orig)[i] else orig[i]
    requires forall i :: 0 <= i < |rows| ==>
      rows[i] == if orig[i].week == weeks[w] then Ranked(orig)[i] else before[i]
    ensures forall i :: 0 <= i < |rows| ==>
      rows[i] == if orig[i].week in weeks[..w + 1] then Ranked(orig)[i] else orig[i]
  {
    assert weeks[..w + 1] == weeks[..w] + [weeks[w]];
  }

  /** Every row's week is among the weeks, so after the last week every row is ranked. */
  lemma AllWeeksDone(orig: seq<SnapRow>, rows: seq<SnapRow>, weeks: seq<Day>)
    requires weeks == Weeks(orig) && |rows| == |orig|
    requires forall i :: 0 <= i < |rows| ==>
      rows[i] == if orig[i].week in weeks then Ranked(orig)[i] else orig[i]
    ensures rows == Ranked(orig)
  {
    forall i | 0 <= i < |rows| ensures rows[i] == Ranked(orig)[i] {
      assert orig[i].week in weeks;
    }
  }

  /** Over distinct weeks covering every row, the week counts add up to the number of rows. */
  lemma {:induction false} CountWeeksAll(rows: seq<SnapRow>, ws: seq<Day>)
    requires forall i, j :: 0 <= i < j < |ws| ==> ws[i] != ws[j]
    requires forall i :: 0 <= i < |rows| ==> rows[i].week in ws
    ensures CountWeeks(rows, ws) == |rows|
  {
    if rows != [] {
      var init := rows[..|rows| - 1];
      var last := rows[|rows| - 1];
      assert rows == init + [last];
      assert forall i :: 0 <= i < |init| ==> init[i] == rows[i];
      CountWeeksAll(init, ws);
      CountWeeksAppend(init, last, ws);
      assert last.week in ws;
      OccurrencesOnce(ws, last.week);
      assert CountWeeks(init + [last], ws) == |init| + 1;
    } else {
      CountWeeksNoRows(rows, ws);
    }
  }

  lemma {:induction false} CountWeeksNoRows(rows: seq<SnapRow>, ws: seq<Day>)
    requires rows == []
    ensures CountWeeks(rows, ws) == 0
  {
    if ws != [] {
      CountWeeksNoRows(rows, ws[..|ws| - 1]);
    }
  }

  /** How often a week occurs in a list of weeks. */
  function Occurrences(ws: seq<Day>, week: Day): nat {
    if ws == [] then 0 else Occurrences(ws[..|ws| - 1], week) + (if ws[|ws| - 1] == week then 1 else 0)
  }

  lemma {:induction false} CountWeeksAppend(rows: seq<SnapRow>, r: SnapRow, ws: seq<Day>)
    ensures CountWeeks(rows + [r], ws) == CountWeeks(rows, ws) + Occurrences(ws, r.week)
  {
    if ws != [] {
      CountWeeksAppend(rows, r, ws[..|ws| - 1]);
      assert (rows + [r])[..|rows|] == rows;
    }
  }

  lemma {:induction false} OccurrencesOnce(ws: seq<Day>, week: Day)
    requires forall i, j :: 0 <= i < j < |ws| ==> ws[i] != ws[j]
    requires week in ws
    ensures Occurrences(ws, week) == 1
  {
    var init := ws[..|ws| - 1];
    if ws[|ws| - 1] == week {
      OccurrencesNone(init, week);
    } else {
      assert week in init;
      OccurrencesOnce(init, week);
    }
  }

  lemma {:induction false} OccurrencesNone(ws: seq<Day>, week: Day)
    requires week !in ws
    ensures Occurrences(ws, week) == 0
  {
    if ws != [] {
      OccurrencesNone(ws[..|ws| - 1], week);
    }
  }
}
