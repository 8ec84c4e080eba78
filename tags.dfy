/**
 * Topic-tag analysis (backend/utils/tag_analyzer.py): per-member tag counts,
 * strengths, weak catalog tags and coverage, the team-wide heatmap, and the
 * recommendations drawn from weak tags.
 */
module Tags {
  import opened Records
  import opened Sorting
  import opened PySeq
  import opened Counters

  /** The catalog of common topic tags. */
  const CommonTags: seq<string> := [
    "Array", "String", "Hash Table", "Dynamic Programming", "Math",
    "Sorting", "Greedy", "Depth-First Search", "Binary Search", "Tree",
    "Breadth-First Search", "Database", "Two Pointers", "Bit Manipulation",
    "Stack", "Design", "Heap (Priority Queue)", "Graph", "Simulation",
    "Backtracking", "Sliding Window", "Union Find", "Linked List",
    "Ordered Set", "Monotonic Stack", "Trie", "Divide and Conquer",
    "Binary Search Tree", "Recursion", "Binary Tree", "Counting",
    "Matrix", "Queue", "Memoization", "Prefix Sum", "Number Theory"
  ]

  /** A submission is represented by its tag list (`sub.get("tags", [])`). */
  type Submission = seq<string>

  /** A strength: a tag, its count and its share of the problems, in percent. */
  datatype TopTag = TopTag(tag: string, count: nat, percentage: real)

  /** A weak catalog tag; `present` selects "Practice more ..." over "Start with ...". */
  datatype WeakTag = WeakTag(tag: string, count: nat, present: bool)

  /** The recommendation sentence, by the branch that produced it. */
  datatype Advice = NoHistory | NoTopics | Expand(focus: seq<string>) | Focus(focus: seq<string>) | Excellent

  /** What `analyze_problem_tags` returns; the coverage score is `Coverage(covered)`. */
  datatype TagAnalysis = TagAnalysis(
    tagCounts: Counter, totalUniqueTags: nat, topTags: seq<TopTag>, weakTags: seq<WeakTag>,
    covered: nat, advice: Advice)

  /** Every tag of every submission, in submission order. */
  function Flatten(subs: seq<Submission>): seq<string> {
    if subs == [] then [] else Flatten(subs[..|subs| - 1]) + subs[|subs| - 1]
  }

  /** The tags whose count in the counter is below `limit` (an absent tag counts 0). */
  function Below(counter: Counter, limit: nat): string -> bool {
    (t: string) => CountOf(counter, t) < limit
  }

  function TagsOf(ws: seq<WeakTag>): (r: seq<string>)
    ensures |r| == |ws|
  {
    if ws == [] then [] else TagsOf(ws[..|ws| - 1]) + [ws[|ws| - 1].tag]
  }

  lemma {:induction false} TagsOfPrefix(ws: seq<WeakTag>, k: nat)
    requires k <= |ws|
    ensures TagsOf(ws[..k]) == TagsOf(ws)[..k]
    ensures forall i :: 0 <= i < |ws| ==> TagsOf(ws)[i] == ws[i].tag
  {
    if ws != [] {
      var init := ws[..|ws| - 1];
      if k == |ws| {
        assert ws[..k] == ws;
        TagsOfPrefix(init, 0);
      } else {
        assert ws[..k] == init[..k];
        TagsOfPrefix(init, k);
      }
    }
  }

  /** The weak-tag entry a catalog tag contributes: a present tag below 3, or an absent tag. */
  function WeakEntry(t: string, counter: Counter): seq<WeakTag> {
    if t in Keys(counter) then
      (if CountOf(counter, t) < 3 then [WeakTag(t, CountOf(counter, t), true)] else [])
    else [WeakTag(t, 0, false)]
  }

  function WeakEntries(catalog: seq<string>, counter: Counter): (r: seq<WeakTag>)
    ensures |r| <= |catalog|
  {
    if catalog == [] then []
    else WeakEntries(catalog[..|catalog| - 1], counter) + WeakEntry(catalog[|catalog| - 1], counter)
  }

  /** The weak entries are the catalog tags counted fewer than 3 times, in catalog order. */
  lemma {:induction false} WeakEntriesOrder(catalog: seq<string>, counter: Counter)
    ensures TagsOf(WeakEntries(catalog, counter)) == Filter(catalog, Below(counter, 3))
  {
    if catalog != [] {
      var init := catalog[..|catalog| - 1];
      var t := catalog[|catalog| - 1];
      WeakEntriesOrder(init, counter);
      var w := WeakEntries(init, counter);
      var e := WeakEntry(t, counter);
      if e != [] {
        assert (w + e)[..|w + e| - 1] == w;
      } else {
        assert w + e == w;
      }
    }
  }

  /** Each weak entry carries its count, below 3, and "Practice more" exactly when the tag was solved at all. */
  lemma {:induction false} WeakEntriesFields(catalog: seq<string>, counter: Counter)
    ensures forall w :: w in WeakEntries(catalog, counter) ==>
              && w.tag in catalog && w.count == CountOf(counter, w.tag) < 3
              && (w.present <==> w.tag in Keys(counter))
  {
    if catalog != [] {
      var init := catalog[..|catalog| - 1];
      WeakEntriesFields(init, counter);
      assert catalog == init + [catalog[|catalog| - 1]];
    }
  }

  /** The set of catalog tags. */
  function Catalog(): set<string> {
    set t | t in CommonTags
  }

  /** `len(set(seq))` never exceeds `len(seq)`. */
  lemma {:induction false} SetOfSeqSize(s: seq<string>)
    ensures |set t | t in s| <= |s|
  {
    if s != [] {
      var init := s[..|s| - 1];
      SetOfSeqSize(init);
      assert (set t | t in s) == (set t | t in init) + {s[|s| - 1]} by {
        assert s == init + [s[|s| - 1]];
      }
    }
  }

  /** The number of catalog tags among the counter's keys. */
  function Covered(counter: Counter): (c: nat)
    ensures c <= |CommonTags|
  {
    SetOfSeqSize(CommonTags);
    assert Keys(counter) * Catalog() <= Catalog();
    Cardinality(Keys(counter) * Catalog(), Catalog());
    |Keys(counter) * Catalog()|
  }

  lemma Cardinality(a: set<string>, b: set<string>)
    requires a <= b
    ensures |a| <= |b|
  {
    assert b == a + (b - a);
  }

  /** `coverage_score` before rounding: the share of catalog tags covered, in percent. */
  function Coverage(covered: nat): (p: real)
    ensures covered <= |CommonTags| ==> 0.0 <= p <= 100.0
    ensures p == 0.0 <==> covered == 0
  {
    (covered as real) / (|CommonTags| as real) * 100.0
  }

  /** `count / total * 100`, or 0 when there is nothing to divide by. */
  function Share(count: nat, total: nat): (p: real)
    ensures total == 0 ==> p == 0.0
    ensures count <= total ==> 0.0 <= p <= 100.0
  {
    if total > 0 then (count as real) / (total as real) * 100.0 else 0.0
  }

  /** `most_common(10)` with each count's share of `total`. */
  function TopTagsOf(counter: Counter, total: nat): (r: seq<TopTag>)
    ensures |r| == |MostCommon(counter, 10)|
  {
    var top := MostCommon(counter, 10);
    seq(|top|, i requires 0 <= i < |top| => TopTag(top[i].0, top[i].1, Share(top[i].1, total)))
  }

  /** The (tag, count) items behind the strengths. */
  function Pairs(top: seq<TopTag>): (r: seq<(string, nat)>)
    ensures |r| == |top|
  {
    seq(|top|, i requires 0 <= i < |top| => (top[i].tag, top[i].count))
  }

  function AdviceFor(top: seq<TopTag>, covered: nat, weak: seq<WeakTag>): Advice {
    if top == [] then NoTopics
    else if Coverage(covered) < 30.0 then Expand(TagsOf(Take(weak, 3)))
    else if Coverage(covered) < 60.0 then Focus(TagsOf(Take(weak, 2)))
    else Excellent
  }

  /** What `analyze_problem_tags(submissions)` returns. */
  function Analysis(subs: seq<Submission>): TagAnalysis {
    if subs == [] then TagAnalysis([], 0, [], [], 0, NoHistory)
    else
      var counter := Tally(Flatten(subs));
      var top := TopTagsOf(counter, |subs|);
      var weak := Take(WeakEntries(CommonTags[..20], counter), 5);
      var covered := Covered(counter);
      TagAnalysis(counter, |counter|, top, weak, covered, AdviceFor(top, covered, weak))
  }

  /**
   * The strengths: `most_common(10)` of the counter, so min(10, |counter|)
   * items in non-increasing count order with no item left out counted more
   * than the last; none only for an empty counter; each share is the count's
   * share of the total, in [0, 100] when the total covers the counts (all 0
   * for an empty total).
   */
  lemma TopTagsSpec(counter: Counter, total: nat)
    ensures |TopTagsOf(counter, total)| <= 10
    ensures |TopTagsOf(counter, total)| == if |counter| < 10 then |counter| else 10
    ensures Pairs(TopTagsOf(counter, total)) == MostCommon(counter, 10)
    ensures forall x :: x in counter && x !in Pairs(TopTagsOf(counter, total)) && TopTagsOf(counter, total) != [] ==>
              x.1 <= TopTagsOf(counter, total)[|TopTagsOf(counter, total)| - 1].count
    ensures forall t :: t in TopTagsOf(counter, total) ==> t.percentage == Share(t.count, total)
    ensures TopTagsOf(counter, total) == [] <==> counter == []
    ensures forall t :: t in TopTagsOf(counter, total) ==> (t.tag, t.count) in counter
    ensures forall i, j :: 0 <= i < j < |TopTagsOf(counter, total)| ==>
              TopTagsOf(counter, total)[i].count >= TopTagsOf(counter, total)[j].count
    ensures total >= Total(counter) ==> forall t :: t in TopTagsOf(counter, total) ==> 0.0 <= t.percentage <= 100.0
    ensures total == 0 ==> forall t :: t in TopTagsOf(counter, total) ==> t.percentage == 0.0
  {
    var r := TopTagsOf(counter, total);
    TopTagsPairs(counter, total);
    MostCommonPrefix(counter, 10);
    MostCommonItems(counter, 10);
    TopTagsOrder(counter, total);
    assert forall t :: t in r ==> (t.tag, t.count) in counter by {
      forall t | t in r ensures (t.tag, t.count) in counter {
        var i :| 0 <= i < |r| && r[i] == t;
        assert Pairs(r)[i] == (t.tag, t.count);
      }
    }
    assert total >= Total(counter) ==> forall t :: t in r ==> 0.0 <= t.percentage <= 100.0 by {
      forall t | t in r && total >= Total(counter) ensures 0.0 <= t.percentage <= 100.0 {
        ItemBelowTotal(counter, (t.tag, t.count));
      }
    }
  }

  /** The strengths carry `most_common(10)`'s items, in order, each with its share of the total. */
  lemma TopTagsPairs(counter: Counter, total: nat)
    ensures Pairs(TopTagsOf(counter, total)) == MostCommon(counter, 10)
    ensures forall t :: t in TopTagsOf(counter, total) ==> t.percentage == Share(t.count, total)
  {
  }

  /** The strengths are in count order, and no item left out is counted more than the last. */
  lemma TopTagsOrder(counter: Counter, total: nat)
    ensures forall i, j :: 0 <= i < j < |TopTagsOf(counter, total)| ==>
              TopTagsOf(counter, total)[i].count >= TopTagsOf(counter, total)[j].count
    ensures forall x :: x in counter && x !in Pairs(TopTagsOf(counter, total)) && TopTagsOf(counter, total) != [] ==>
              x.1 <= TopTagsOf(counter, total)[|TopTagsOf(counter, total)| - 1].count
  {
    var top := MostCommon(counter, 10);
    var r := TopTagsOf(counter, total);
    TopTagsPairs(counter, total);
    MostCommonTop(counter, 10);
    forall i, j | 0 <= i < j < |r| ensures r[i].count >= r[j].count {
      assert Pairs(r)[i] == top[i] && Pairs(r)[j] == top[j];
    }
    forall x | x in counter && x !in Pairs(r) && r != [] ensures x.1 <= r[|r| - 1].count {
      assert Pairs(r)[|r| - 1] == top[|top| - 1];
    }
  }

  /** The weak list: the first five catalog tags counted fewer than 3 times, with their entries' fields. */
  lemma WeakListSpec(catalog: seq<string>, counter: Counter)
    ensures |Take(WeakEntries(catalog, counter), 5)| <= 5
    ensures TagsOf(Take(WeakEntries(catalog, counter), 5)) == Take(Filter(catalog, Below(counter, 3)), 5)
    ensures forall w :: w in Take(WeakEntries(catalog, counter), 5) ==>
              && w.tag in catalog && w.count == CountOf(counter, w.tag) < 3
              && (w.present <==> w.tag in Keys(counter))
  {
    var all := WeakEntries(catalog, counter);
    WeakEntriesOrder(catalog, counter);
    WeakEntriesFields(catalog, counter);
    var r := Take(all, 5);
    assert r == all[..|r|];
    TagsOfPrefix(all, |r|);
    forall w | w in r ensures w in all {
      var i :| 0 <= i < |r| && r[i] == w;
      assert all[i] == w;
    }
  }

  /** Tag counts are occurrence counts over all submissions, one key per distinct tag. */
  lemma AnalysisCounts(subs: seq<Submission>)
    ensures subs == [] ==> Analysis(subs).tagCounts == [] && Analysis(subs).covered == 0 &&
                           Analysis(subs).topTags == [] && Analysis(subs).weakTags == []
    ensures DistinctKeys(Analysis(subs).tagCounts)
    ensures forall u :: CountOf(Analysis(subs).tagCounts, u) == multiset(Flatten(subs))[u]
    ensures forall u :: u in Keys(Analysis(subs).tagCounts) <==> u in Flatten(subs)
    ensures Analysis(subs).totalUniqueTags == |Keys(Analysis(subs).tagCounts)|
    ensures 0.0 <= Coverage(Analysis(subs).covered) <= 100.0
  {
    TallySpec(Flatten(subs));
  }

  /**
   * The strengths are `most_common(10)` of the tag counts: min(10, distinct
   * tags) of them, drawn from the counts, in non-increasing order, with no
   * tag left out counted more than the last; none only when no tag was seen.
   */
  lemma AnalysisStrengths(subs: seq<Submission>)
    ensures |Analysis(subs).topTags| <= 10
    ensures |Analysis(subs).topTags| == if |Analysis(subs).tagCounts| < 10 then |Analysis(subs).tagCounts| else 10
    ensures Pairs(Analysis(subs).topTags) == MostCommon(Analysis(subs).tagCounts, 10)
    ensures forall x :: x in Analysis(subs).tagCounts && x !in Pairs(Analysis(subs).topTags) && Analysis(subs).topTags != [] ==>
              x.1 <= Analysis(subs).topTags[|Analysis(subs).topTags| - 1].count
    ensures Analysis(subs).topTags == [] <==> Flatten(subs) == []
    ensures forall t :: t in Analysis(subs).topTags ==> (t.tag, t.count) in Analysis(subs).tagCounts
    ensures forall i, j :: 0 <= i < j < |Analysis(subs).topTags| ==>
              Analysis(subs).topTags[i].count >= Analysis(subs).topTags[j].count
  {
    var tags := Flatten(subs);
    TallySpec(tags);
    if subs != [] {
      TopTagsSpec(Tally(tags), |subs|);
      if tags != [] {
        assert tags[0] in Keys(Tally(tags));
      }
    } else {
      assert tags == [];
    }
  }

  /** At most 5 weak tags: the first catalog tags of the first 20 counted fewer than 3 times. */
  lemma AnalysisWeakTags(subs: seq<Submission>)
    ensures |Analysis(subs).weakTags| <= 5
    ensures subs != [] ==>
              TagsOf(Analysis(subs).weakTags) == Take(Filter(CommonTags[..20], Below(Analysis(subs).tagCounts, 3)), 5)
    ensures forall w :: w in Analysis(subs).weakTags ==>
              && w.tag in CommonTags[..20] && w.count == CountOf(Analysis(subs).tagCounts, w.tag) < 3
              && (w.present <==> w.tag in Keys(Analysis(subs).tagCounts))
  {
    if subs != [] {
      WeakListSpec(CommonTags[..20], Tally(Flatten(subs)));
    }
  }

  /** The counting loop of `analyze_problem_tags`: `tag_counter[tag] += 1` for every tag of every submission. */
  method CountTags(subs: seq<Submission>) returns (counter: Counter)
    ensures counter == Tally(Flatten(subs))
  {
    counter := [];
    var i := 0;
    while i < |subs|
      invariant 0 <= i <= |subs|
      invariant counter == Tally(Flatten(subs[..i]))
    {
      counter := CountInto(counter, Flatten(subs[..i]), subs[i]);
      assert subs[..i + 1][..i] == subs[..i];
      i := i + 1;
    }
    assert subs[..i] == subs;
  }

  /** The inner loop: one submission's tags added to the counter of the tags before them. */
  method CountInto(start: Counter, ghost before: seq<string>, tags: seq<string>) returns (counter: Counter)
    requires start == Tally(before)
    ensures counter == Tally(before + tags)
  {
    counter := start;
    var j := 0;
    assert before + tags[..j] == before;
    while j < |tags|
      invariant 0 <= j <= |tags|
      invariant counter == Tally(before + tags[..j])
    {
      assert (before + tags[..j + 1])[..|before + tags[..j + 1]| - 1] == before + tags[..j];
      counter := AddCount(counter, tags[j], 1);
      j := j + 1;
    }
    assert tags[..j] == tags;
  }

  /** The weak-tag loop of `analyze_problem_tags` over a catalog prefix. */
  method CollectWeakTags(catalog: seq<string>, counter: Counter) returns (weak: seq<WeakTag>)
    ensures weak == WeakEntries(catalog, counter)
  {
    weak := [];
    var k := 0;
    while k < |catalog|
      invariant 0 <= k <= |catalog|
      invariant weak == WeakEntries(catalog[..k], counter)
    {
      assert catalog[..k + 1][..k] == catalog[..k];
      var tag := catalog[k];
      if tag in Keys(counter) {
        var count := CountOf(counter, tag);
        if count < 3 {
          weak := weak + [WeakTag(tag, count, true)];
        }
      } else {
        weak := weak + [WeakTag(tag, 0, false)];
      }
      k := k + 1;
    }
    assert catalog[..k] == catalog;
  }

  /** `analyze_problem_tags`: counts tags, then collects the weak catalog tags and the coverage. */
  method AnalyzeProblemTags(subs: seq<Submission>) returns (a: TagAnalysis)
    ensures a == Analysis(subs)
  {
    if subs == [] {
      return TagAnalysis([], 0, [], [], 0, NoHistory);
    }
    var counter := CountTags(subs);
    var top := TopTagsOf(counter, |subs|);
    var weak := CollectWeakTags(CommonTags[..20], counter);
    weak := Take(weak, 5);
    var covered := Covered(counter);
    a := TagAnalysis(counter, |counter|, top, weak, covered, AdviceFor(top, covered, weak));
  }

  /** One entry of `get_team_tag_analysis`. */
  datatype MemberTags = MemberTags(member: string, analysis: TagAnalysis)

  function CoveredOf(m: MemberTags): int {
    m.analysis.covered
  }

  function MemberAnalyses(members: Ordered<seq<Submission>>): (r: seq<MemberTags>)
    ensures |r| == |members|
  {
    seq(|members|, i requires 0 <= i < |members| => MemberTags(members[i].0, Analysis(members[i].1)))
  }

  /**
   * `get_team_tag_analysis`: one entry per member, sorted by coverage from
   * highest to lowest (the covered count orders exactly as the coverage score).
   */
  method TeamTagAnalysis(members: Ordered<seq<Submission>>) returns (team: seq<MemberTags>)
    ensures team == SortBy(MemberAnalyses(members), Descending(CoveredOf))
    ensures |team| == |members| && multiset(team) == multiset(MemberAnalyses(members))
    ensures forall i :: 0 <= i < |members| ==> MemberTags(members[i].0, Analysis(members[i].1)) in team
    ensures forall i, j :: 0 <= i < j < |team| ==> team[i].analysis.covered >= team[j].analysis.covered
  {
    var entries := CollectAnalyses(members);
    team := SortBy(entries, Descending(CoveredOf));
    TeamOrderSpec(members);
  }

  /** The loop of `get_team_tag_analysis`: each member's analysis, in roster order. */
  method CollectAnalyses(members: Ordered<seq<Submission>>) returns (entries: seq<MemberTags>)
    ensures entries == MemberAnalyses(members)
  {
    entries := [];
    var i := 0;
    while i < |members|
      invariant 0 <= i <= |members|
      invariant entries == MemberAnalyses(members[..i])
    {
      var a := AnalyzeProblemTags(members[i].1);
      assert MemberAnalyses(members[..i + 1]) == MemberAnalyses(members[..i]) + [MemberTags(members[i].0, a)];
      entries := entries + [MemberTags(members[i].0, a)];
      i := i + 1;
    }
    assert members[..i] == members;
  }

  /** The sorted analyses: one per member, every member's there, highest coverage first. */
  lemma TeamOrderSpec(members: Ordered<seq<Submission>>)
    ensures var team := SortBy(MemberAnalyses(members), Descending(CoveredOf));
      forall i :: 0 <= i < |members| ==> MemberTags(members[i].0, Analysis(members[i].1)) in team
    ensures var team := SortBy(MemberAnalyses(members), Descending(CoveredOf));
      forall i, j :: 0 <= i < j < |team| ==> team[i].analysis.covered >= team[j].analysis.covered
  {
    var entries := MemberAnalyses(members);
    var team := SortBy(entries, Descending(CoveredOf));
    SortDescending(entries, CoveredOf);
    PermutationMembers(team, entries);
    assert forall i :: 0 <= i < |members| ==> entries[i] == MemberTags(members[i].0, Analysis(members[i].1));
  }

  /** A team weakness: a catalog tag and its pooled count. */
  datatype TeamWeakness = TeamWeakness(tag: string, count: nat)

  /** What `get_team_tag_heatmap` returns; the coverage score is `Coverage(covered)`. */
  datatype Heatmap = Heatmap(
    strengths: seq<TopTag>, weaknesses: seq<TeamWeakness>, covered: nat,
    totalUniqueTags: nat, totalProblems: nat)

  function CountersOf(team: seq<MemberTags>): (cs: seq<Counter>)
    ensures |cs| == |team|
  {
    seq(|team|, i requires 0 <= i < |team| => team[i].analysis.tagCounts)
  }

  /** The tags of the team weaknesses, in order. */
  function WeaknessTags(ws: seq<TeamWeakness>): (r: seq<string>)
    ensures |r| == |ws|
  {
    seq(|ws|, i requires 0 <= i < |ws| => ws[i].tag)
  }

  function TeamWeakEntries(catalog: seq<string>, pooled: Counter): (r: seq<TeamWeakness>)
    ensures |r| <= |catalog|
  {
    if catalog == [] then []
    else
      var t := catalog[|catalog| - 1];
      TeamWeakEntries(catalog[..|catalog| - 1], pooled) +
      (if t !in Keys(pooled) || CountOf(pooled, t) < 5 then [TeamWeakness(t, CountOf(pooled, t))] else [])
  }

  /** The team weaknesses are the catalog tags pooled fewer than 5 times, in catalog order, with their counts. */
  lemma {:induction false} TeamWeakEntriesSpec(catalog: seq<string>, pooled: Counter)
    ensures forall w :: w in TeamWeakEntries(catalog, pooled) ==>
              w.tag in catalog && w.count == CountOf(pooled, w.tag) < 5
    ensures forall t :: t in catalog && CountOf(pooled, t) < 5 ==>
              TeamWeakness(t, CountOf(pooled, t)) in TeamWeakEntries(catalog, pooled)
    ensures WeaknessTags(TeamWeakEntries(catalog, pooled)) == Filter(catalog, Below(pooled, 5))
  {
    if catalog != [] {
      var init := catalog[..|catalog| - 1];
      var t := catalog[|catalog| - 1];
      TeamWeakEntriesSpec(init, pooled);
      assert catalog == init + [t];
      var w := TeamWeakEntries(init, pooled);
      if Below(pooled, 5)(t) {
        assert WeaknessTags(w + [TeamWeakness(t, CountOf(pooled, t))]) == WeaknessTags(w) + [t];
      } else {
        assert TeamWeakEntries(catalog, pooled) == w;
      }
    }
  }

  /** The strengths: `most_common(10)` of the pooled counter with each share of the pooled total. */
  function HeatmapOf(team: seq<MemberTags>): Heatmap {
    var pooled := Pool(CountersOf(team));
    var total := Total(pooled);
    Heatmap(TopTagsOf(pooled, total), Take(TeamWeakEntries(CommonTags[..15], pooled), 5),
            Covered(pooled), |pooled|, total)
  }

  /** Every item's count is part of the counter's total. */
  lemma {:induction false} ItemBelowTotal(d: Counter, x: (string, nat))
    requires x in d
    ensures x.1 <= Total(d)
  {
    if d[0] != x {
      assert x in d[1..];
      ItemBelowTotal(d[1..], x);
    }
  }

  /**
   * The heatmap pools the members' counts: a tag's pooled count is the sum of
   * its member counts and the total is the sum of the members' totals.
   */
  lemma HeatmapPooling(team: seq<MemberTags>)
    ensures (forall i :: 0 <= i < |team| ==> DistinctKeys(team[i].analysis.tagCounts)) ==>
              forall u :: CountOf(Pool(CountersOf(team)), u) == CountAcross(CountersOf(team), u)
    ensures HeatmapOf(team).totalProblems == TotalAcross(CountersOf(team))
    ensures HeatmapOf(team).totalUniqueTags == |Keys(Pool(CountersOf(team)))|
    ensures 0.0 <= Coverage(HeatmapOf(team).covered) <= 100.0
  {
    var cs := CountersOf(team);
    PoolSpec(cs);
    if forall i :: 0 <= i < |team| ==> DistinctKeys(team[i].analysis.tagCounts) {
      assert forall i :: 0 <= i < |cs| ==> DistinctKeys(cs[i]);
    }
    DistinctKeysSize(Pool(cs));
  }

  /**
   * The strengths are `most_common(10)` of the pooled counter: min(10, pooled
   * tags) items drawn from it with no pooled tag left out counted more than the
   * last; shares lie in [0, 100], and are all 0 when the team has no counted
   * problems.
   */
  lemma HeatmapStrengths(team: seq<MemberTags>)
    ensures |HeatmapOf(team).strengths| <= 10
    ensures |HeatmapOf(team).strengths| == if |Pool(CountersOf(team))| < 10 then |Pool(CountersOf(team))| else 10
    ensures Pairs(HeatmapOf(team).strengths) == MostCommon(Pool(CountersOf(team)), 10)
    ensures forall s :: s in HeatmapOf(team).strengths ==> (s.tag, s.count) in Pool(CountersOf(team))
    ensures forall x :: x in Pool(CountersOf(team)) && x !in Pairs(HeatmapOf(team).strengths) && HeatmapOf(team).strengths != [] ==>
              x.1 <= HeatmapOf(team).strengths[|HeatmapOf(team).strengths| - 1].count
    ensures forall s :: s in HeatmapOf(team).strengths ==> s.percentage == Share(s.count, HeatmapOf(team).totalProblems)
    ensures forall s :: s in HeatmapOf(team).strengths ==> 0.0 <= s.percentage <= 100.0
    ensures HeatmapOf(team).totalProblems == 0 ==> forall s :: s in HeatmapOf(team).strengths ==> s.percentage == 0.0
  {
    var pooled := Pool(CountersOf(team));
    TopTagsSpec(pooled, Total(pooled));
  }

  /**
   * The weaknesses are the first 5 of the first 15 catalog tags pooled fewer
   * than 5 times, in catalog order, each with its pooled count.
   */
  lemma HeatmapWeaknesses(team: seq<MemberTags>)
    ensures |HeatmapOf(team).weaknesses| <= 5
    ensures WeaknessTags(HeatmapOf(team).weaknesses) ==
              Take(Filter(CommonTags[..15], Below(Pool(CountersOf(team)), 5)), 5)
    ensures forall w :: w in HeatmapOf(team).weaknesses ==>
              w.tag in CommonTags[..15] && w.count == CountOf(Pool(CountersOf(team)), w.tag) < 5
  {
    var pooled := Pool(CountersOf(team));
    var all := TeamWeakEntries(CommonTags[..15], pooled);
    TeamWeakEntriesSpec(CommonTags[..15], pooled);
    var r := HeatmapOf(team).weaknesses;
    assert r == all[..|r|];
    assert WeaknessTags(r) == WeaknessTags(all)[..|r|];
    forall w | w in r ensures w in all {
      var i :| 0 <= i < |r| && r[i] == w;
      assert all[i] == w;
    }
  }

  /** `get_team_tag_heatmap`: pools the members' counters in a nested loop, then collects weak catalog tags. */
  method TeamTagHeatmap(team: seq<MemberTags>) returns (h: Heatmap)
    ensures h == HeatmapOf(team)
  {
    var cs := CountersOf(team);
    var pooled: Counter := [];
    var i := 0;
    while i < |team|
      invariant 0 <= i <= |team|
      invariant pooled == Pool(cs[..i])
    {
      assert cs[..i + 1][..i] == cs[..i];
      pooled := MergeInto(pooled, team[i].analysis.tagCounts);
      i := i + 1;
    }
    assert cs[..i] == cs;
    var total := Total(pooled);
    var weaknesses := CollectTeamWeaknesses(CommonTags[..15], pooled);
    h := Heatmap(TopTagsOf(pooled, total), Take(weaknesses, 5), Covered(pooled), |pooled|, total);
  }

  /** The inner loop of the pooling: one member's counts added into the pooled counter. */
  method MergeInto(pooled: Counter, counts: Counter) returns (r: Counter)
    ensures r == Merge(pooled, counts)
  {
    r := pooled;
    var j := 0;
    while j < |counts|
      invariant 0 <= j <= |counts|
      invariant Merge(r, counts[j..]) == Merge(pooled, counts)
    {
      assert counts[j..][0] == counts[j] && counts[j..][1..] == counts[j + 1..];
      r := AddCount(r, counts[j].0, counts[j].1);
      j := j + 1;
    }
  }

  /** The scan of the catalog for tags pooled fewer than 5 times. */
  method CollectTeamWeaknesses(catalog: seq<string>, pooled: Counter) returns (weaknesses: seq<TeamWeakness>)
    ensures weaknesses == TeamWeakEntries(catalog, pooled)
  {
    weaknesses := [];
    var k := 0;
    while k < |catalog|
      invariant 0 <= k <= |catalog|
      invariant weaknesses == TeamWeakEntries(catalog[..k], pooled)
    {
      assert catalog[..k + 1][..k] == catalog[..k];
      var tag := catalog[k];
      if tag !in Keys(pooled) || CountOf(pooled, tag) < 5 {
        weaknesses := weaknesses + [TeamWeakness(tag, CountOf(pooled, tag))];
      }
      k := k + 1;
    }
    assert catalog[..k] == catalog;
  }

  /** A problem recommendation for a weak tag at the preferred difficulty. */
  datatype TagRecommendation = TagRecommendation(tag: string, difficulty: string)

  /** `recommend_problems_by_weak_tags`: the first three weak tags, in their given order. */
  function RecommendByWeakTags(weak: seq<WeakTag>, difficulty: string): (r: seq<TagRecommendation>)
    ensures |r| == if |weak| < 3 then |weak| else 3
    ensures forall i :: 0 <= i < |r| ==> r[i].tag == weak[i].tag && r[i].difficulty == difficulty
  {
    var first := Take(weak, 3);
    seq(|first|, i requires 0 <= i < |first| => TagRecommendation(first[i].tag, difficulty))
  }
}
