/**
 * The problem recommender: practice suggestions drawn from a member's weak
 * tags, from the shape of their Easy/Medium/Hard distribution, and from a small
 * fixed catalog of company interview problems, gathered into one personalised
 * bundle with a daily practice plan. Nothing here is random.
 */
module Recommender {
  import opened Wrappers
  import opened PySeq
  import opened Text

  // ---------------------------------------------------------------- weak tags

  /** One "practise this topic" suggestion; the reason sentence is left out. */
  datatype TagRecommendation = TagRecommendation(
    tag: string,
    difficulty: string,
    searchQuery: string,
    urlDifficulty: string,
    topicSlug: string)

  /** `tag.lower().replace(' ', '-')` */
  function Slug(tag: string): (r: string)
    ensures |r| == |tag|
    ensures ' ' !in r
    ensures forall i :: 0 <= i < |tag| && tag[i] != ' ' ==> r[i] == LowerChar(tag[i])
  {
    if tag == [] then []
    else [if tag[0] == ' ' then '-' else LowerChar(tag[0])] + Slug(tag[1..])
  }

  /** The suggestion for one weak tag at the requested difficulty. */
  function TagRecommendationFor(tag: string, difficulty: string): (r: TagRecommendation)
    ensures r.tag == tag
    ensures |r.difficulty| == |difficulty| && Lower(r.difficulty) == Lower(difficulty)
    ensures r.searchQuery == tag + " " + difficulty
    ensures r.urlDifficulty == Upper(difficulty)
    ensures ' ' !in r.topicSlug && |r.topicSlug| == |tag|
  {
    LowerFacts(difficulty);
    TagRecommendation(tag, Capitalize(difficulty), tag + " " + difficulty, Upper(difficulty), Slug(tag))
  }

  /** The suggestions for a list of weak-tag entries; an entry without a tag stands for the empty tag. */
  function TagRecommendations(weak: seq<Option<string>>, difficulty: string): (r: seq<TagRecommendation>)
    ensures |r| == |weak|
    ensures forall i :: 0 <= i < |weak| ==> r[i] == TagRecommendationFor(weak[i].GetOr(""), difficulty)
  {
    if weak == [] then []
    else TagRecommendations(weak[..|weak| - 1], difficulty)
         + [TagRecommendationFor(weak[|weak| - 1].GetOr(""), difficulty)]
  }

  /**
   * `recommend_by_weak_tags`: one suggestion per weak tag among the first
   * `limit`, in the order given.
   */
  method RecommendByWeakTags(weak: seq<Option<string>>, difficulty: string, limit: int)
    returns (r: seq<TagRecommendation>)
    ensures r == TagRecommendations(Take(weak, limit), difficulty)
    ensures |r| <= |weak| && (limit >= 0 ==> |r| <= limit)
    ensures forall i :: 0 <= i < |r| ==> r[i].tag == weak[i].GetOr("") && r[i].difficulty == Capitalize(difficulty)
  {
    var head := Take(weak, limit);
    r := [];
    var i := 0;
    while i < |head|
      invariant 0 <= i <= |head|
      invariant r == TagRecommendations(head[..i], difficulty)
    {
      assert head[..i + 1][..i] == head[..i];
      r := r + [TagRecommendationFor(head[i].GetOr(""), difficulty)];
      i := i + 1;
    }
    assert head[..i] == head;
  }

  // ------------------------------------------------------- difficulty shape

  datatype Level = Easy | Medium | Hard | Mixed

  /** One "move on to this level" suggestion; the reason sentence is left out. */
  datatype LevelRecommendation = LevelRecommendation(difficulty: Level, count: nat, searchQuery: string)

  /** `d.get(key, 0)` */
  function CountIn(d: map<string, int>, key: string): int {
    if key in d then d[key] else 0
  }

  function DistributionTotal(d: map<string, int>): int {
    CountIn(d, "easy") + CountIn(d, "medium") + CountIn(d, "hard")
  }

  /** `(x / total) * 100 if total > 0 else 0`, unrounded. */
  function Percent(x: int, total: int): real {
    if total > 0 then (x as real / total as real) * 100.0 else 0.0
  }

  const StartEasy := LevelRecommendation(Easy, 10, "easy beginner")
  const ReadyForMedium := LevelRecommendation(Medium, 5, "medium acceptance-rate-high")
  const ReadyForHard := LevelRecommendation(Hard, 2, "hard acceptance-rate-high")
  const KeepBalance := LevelRecommendation(Mixed, 10, "medium hard")
  const MoreMedium := LevelRecommendation(Medium, 5, "medium")

  /**
   * `recommend_by_difficulty_progression`: nothing solved yet gives the
   * starter suggestion; otherwise the first rule that matches the
   * percentages gives one suggestion, and no match gives none. The
   * progression status is accepted but not consulted.
   */
  function RecommendByDifficultyProgression(d: map<string, int>, status: string): (r: seq<LevelRecommendation>)
    ensures |r| <= 1
    ensures DistributionTotal(d) == 0 <==> r == [StartEasy]
  {
    var easy := CountIn(d, "easy");
    var medium := CountIn(d, "medium");
    var hard := CountIn(d, "hard");
    var total := easy + medium + hard;
    if total == 0 then [StartEasy]
    else
      var easyPct := Percent(easy, total);
      var mediumPct := Percent(medium, total);
      var hardPct := Percent(hard, total);
      if easyPct > 70.0 then [ReadyForMedium]
      else if mediumPct > 70.0 && hardPct < 10.0 then [ReadyForHard]
      else if mediumPct > 40.0 && hardPct > 10.0 then [KeepBalance]
      else if easyPct > 50.0 && mediumPct < 30.0 then [MoreMedium]
      else []
  }

  /** The same rules on whole numbers: `x / total * 100 > k` is `100 * x > k * total`. */
  function ProgressionByCounts(easy: int, medium: int, hard: int): seq<LevelRecommendation>
    requires easy + medium + hard > 0
  {
    var total := easy + medium + hard;
    if 100 * easy > 70 * total then [ReadyForMedium]
    else if 100 * medium > 70 * total && 100 * hard < 10 * total then [ReadyForHard]
    else if 100 * medium > 40 * total && 100 * hard > 10 * total then [KeepBalance]
    else if 100 * easy > 50 * total && 100 * medium < 30 * total then [MoreMedium]
    else []
  }

  lemma PercentCompare(x: int, total: int, k: int)
    requires total > 0
    ensures Percent(x, total) > k as real <==> 100 * x > k * total
    ensures Percent(x, total) < k as real <==> 100 * x < k * total
  {
    var p := Percent(x, total);
    assert p * total as real == 100.0 * x as real;
    if p > k as real {
      assert p * total as real > k as real * total as real;
    }
    if p < k as real {
      assert p * total as real < k as real * total as real;
    }
    if 100 * x > k * total {
      assert p * total as real > k as real * total as real;
    }
    if 100 * x < k * total {
      assert p * total as real < k as real * total as real;
    }
  }

  /**
   * The rules agree with their whole-number form whenever something is
   * solved, and a negative total (possible only with negative counts) makes
   * every percentage 0, so no rule fires.
   */
  lemma DifficultyProgressionByCounts(d: map<string, int>, status: string)
    ensures DistributionTotal(d) > 0 ==>
      RecommendByDifficultyProgression(d, status)
        == ProgressionByCounts(CountIn(d, "easy"), CountIn(d, "medium"), CountIn(d, "hard"))
    ensures DistributionTotal(d) < 0 ==> RecommendByDifficultyProgression(d, status) == []
  {
    var easy := CountIn(d, "easy");
    var medium := CountIn(d, "medium");
    var hard := CountIn(d, "hard");
    var total := easy + medium + hard;
    if total > 0 {
      PercentCompare(easy, total, 70);
      PercentCompare(easy, total, 50);
      PercentCompare(medium, total, 70);
      PercentCompare(medium, total, 40);
      PercentCompare(medium, total, 30);
      PercentCompare(hard, total, 10);
    }
  }

  // ---------------------------------------------------------- company lists

  datatype Problem = Problem(id: nat, title: string, difficulty: string, tags: seq<string>)

  const TwoSum := Problem(1, "Two Sum", "Easy", ["Array", "Hash Table"])

  /** The fixed catalog of company interview problems, in catalog order. */
  const CompanyProblems: map<string, seq<Problem>> := map[
    "Google" := [
      TwoSum,
      Problem(146, "LRU Cache", "Medium", ["Design", "Hash Table"]),
      Problem(200, "Number of Islands", "Medium", ["DFS", "BFS", "Graph"]),
      Problem(42, "Trapping Rain Water", "Hard", ["Array", "Two Pointers"])],
    "Meta" := [
      TwoSum,
      Problem(125, "Valid Palindrome", "Easy", ["String", "Two Pointers"]),
      Problem(236, "LCA of Binary Tree", "Medium", ["Tree", "DFS"]),
      Problem(273, "Integer to English Words", "Hard", ["String", "Math"])],
    "Amazon" := [
      TwoSum,
      Problem(200, "Number of Islands", "Medium", ["DFS", "BFS"]),
      Problem(297, "Serialize and Deserialize Binary Tree", "Hard", ["Tree", "Design"])],
    "Microsoft" := [
      Problem(206, "Reverse Linked List", "Easy", ["Linked List"]),
      Problem(15, "3Sum", "Medium", ["Array", "Two Pointers"]),
      Problem(23, "Merge k Sorted Lists", "Hard", ["Linked List", "Heap"])]
  ]

  const Companies: seq<string> := ["Google", "Meta", "Amazon", "Microsoft"]

  function HasDifficulty(difficulty: string): Problem -> bool {
    (p: Problem) => Lower(p.difficulty) == Lower(difficulty)
  }

  /**
   * The company's catalog narrowed to one difficulty (compared
   * case-insensitively) unless the difficulty is "all" in any case: the
   * catalog problems that match, in catalog order.
   */
  function CompanyMatches(company: string, difficulty: string): (ps: seq<Problem>)
    requires company in CompanyProblems
    ensures forall p :: p in ps <==>
      p in CompanyProblems[company] && (Lower(difficulty) == "all" || Lower(p.difficulty) == Lower(difficulty))
    ensures Subsequence(ps, CompanyProblems[company])
  {
    var problems := CompanyProblems[company];
    if Lower(difficulty) != "all" then
      FilterSubsequence(problems, HasDifficulty(difficulty));
      Filter(problems, HasDifficulty(difficulty))
    else
      SubsequenceSelf(problems);
      problems
  }

  /**
   * `recommend_by_company`: the first `limit` of the company's matching
   * problems (Python's slice rules for a negative limit); an unknown company
   * gets nothing.
   */
  function RecommendByCompany(company: string, difficulty: string, limit: int): (r: seq<Problem>)
    ensures company !in CompanyProblems ==> r == []
  {
    if company !in CompanyProblems then []
    else Take(CompanyMatches(company, difficulty), limit)
  }

  /**
   * What the company list holds: the first `limit` of the catalog problems of
   * the asked difficulty, in catalog order (all matching ones when the limit
   * allows), and the same answer for any spelling of the difficulty that
   * lower-cases alike.
   */
  lemma RecommendByCompanySpec(company: string, difficulty: string, limit: int)
    ensures var r := RecommendByCompany(company, difficulty, limit);
      limit >= 0 ==> |r| <= limit
    ensures var r := RecommendByCompany(company, difficulty, limit);
      company in CompanyProblems ==>
        r <= CompanyMatches(company, difficulty)
        && (limit >= 0 ==>
              |r| == if limit < |CompanyMatches(company, difficulty)| then limit else |CompanyMatches(company, difficulty)|)
    ensures var r := RecommendByCompany(company, difficulty, limit);
      company in CompanyProblems ==>
        Subsequence(r, CompanyProblems[company])
        && (forall p :: p in r ==> p in CompanyProblems[company])
        && (Lower(difficulty) != "all" ==> forall p :: p in r ==> Lower(p.difficulty) == Lower(difficulty))
        && (limit >= |CompanyProblems[company]| ==>
              forall p :: p in CompanyProblems[company] && (Lower(difficulty) == "all" || Lower(p.difficulty) == Lower(difficulty))
                ==> p in r)
    ensures forall other :: Lower(other) == Lower(difficulty) ==>
      RecommendByCompany(company, other, limit) == RecommendByCompany(company, difficulty, limit)
  {
    if company in CompanyProblems {
      var problems := CompanyProblems[company];
      var kept := CompanyMatches(company, difficulty);
      var r := RecommendByCompany(company, difficulty, limit);
      assert r == kept[..|r|];
      SubsequencePrefix(kept, problems, |r|);
      forall p | p in r ensures p in kept {
        var i :| 0 <= i < |r| && r[i] == p;
        assert kept[i] == p;
      }
      forall other | Lower(other) == Lower(difficulty)
        ensures RecommendByCompany(company, other, limit) == r
      {
        assert HasDifficulty(other) == HasDifficulty(difficulty);
      }
    }
  }

  lemma {:induction false} SubsequenceSelf<T>(s: seq<T>)
    ensures Subsequence(s, s)
  {
    if s != [] {
      SubsequenceSelf(s[1..]);
    }
  }

  // ---------------------------------------------------------- personal bundle

  /** What the recommender reads about a member; a missing key is the empty value. */
  datatype MemberData = MemberData(
    weakTags: seq<Option<string>>,
    currentDistribution: map<string, int>,
    progressionStatus: string)

  datatype Plan = Plan(easy: nat, medium: nat, hard: nat, focus: string)

  datatype Recommendations = Recommendations(
    byWeakTags: seq<TagRecommendation>,
    byDifficulty: seq<LevelRecommendation>,
    byCompany: map<string, seq<Problem>>,
    dailyPlan: Plan)

  /** The daily practice plan by number of problems solved. */
  function DailyPlan(totalSolved: int): (p: Plan)
    ensures p.easy + p.medium + p.hard <= 4 && p.easy >= 1
  {
    if totalSolved < 50 then Plan(2, 1, 0, "Build foundation with Easy problems")
    else if totalSolved < 150 then Plan(1, 2, 0, "Focus on Medium problems")
    else Plan(1, 2, 1, "Balanced practice across all difficulties")
  }

  /** More problems solved never lowers the share of harder practice. */
  lemma DailyPlanMonotone(t1: int, t2: int)
    requires t1 <= t2
    ensures DailyPlan(t1).easy >= DailyPlan(t2).easy
    ensures DailyPlan(t1).medium <= DailyPlan(t2).medium
    ensures DailyPlan(t1).hard <= DailyPlan(t2).hard
  {
  }

  /** The company loop: three problems of every difficulty for each target company. */
  method CompanyRecommendations() returns (byCompany: map<string, seq<Problem>>)
    ensures byCompany.Keys == set c | c in Companies
    ensures forall c :: c in byCompany ==> byCompany[c] == RecommendByCompany(c, "all", 3) && |byCompany[c]| <= 3
  {
    byCompany := map[];
    for i := 0 to |Companies|
      invariant byCompany.Keys == set c | c in Companies[..i]
      invariant forall c :: c in byCompany ==> byCompany[c] == RecommendByCompany(c, "all", 3)
    {
      byCompany := byCompany[Companies[i] := RecommendByCompany(Companies[i], "all", 3)];
    }
    assert Companies[..|Companies|] == Companies;
    forall c | c in byCompany ensures |byCompany[c]| <= 3 {
      RecommendByCompanySpec(c, "all", 3);
    }
  }

  /**
   * `get_personalized_recommendations`: weak-tag suggestions only when the
   * member has weak tags, difficulty suggestions only when a distribution is
   * known, the first three catalog problems of each of the four companies, and
   * the plan for the member's total. `limit` is accepted but not used.
   */
  method GetPersonalizedRecommendations(member: MemberData, limit: int) returns (r: Recommendations)
    ensures member.weakTags == [] <==> r.byWeakTags == []
    ensures member.weakTags != [] ==> r.byWeakTags == TagRecommendations(Take(member.weakTags, 5), "medium")
    ensures r.byDifficulty ==
      if member.currentDistribution == map[] then []
      else RecommendByDifficultyProgression(member.currentDistribution, member.progressionStatus)
    ensures r.byCompany.Keys == set c | c in Companies
    ensures forall c :: c in r.byCompany ==> r.byCompany[c] == RecommendByCompany(c, "all", 3) && |r.byCompany[c]| <= 3
    ensures r.dailyPlan == DailyPlan(DistributionTotal(member.currentDistribution))
  {
    var byWeakTags := [];
    if member.weakTags != [] {
      byWeakTags := RecommendByWeakTags(member.weakTags, "medium", 5);
    }
    var byDifficulty := [];
    if member.currentDistribution != map[] {
      byDifficulty := RecommendByDifficultyProgression(member.currentDistribution, member.progressionStatus);
    }
    var byCompany := CompanyRecommendations();
    r := Recommendations(byWeakTags, byDifficulty, byCompany, DailyPlan(DistributionTotal(member.currentDistribution)));
  }
}
