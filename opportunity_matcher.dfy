/**
 * `OpportunityMatcher`: filters the catalog down to the opportunities a
 * student is eligible for, scores each by how well it lines up with the
 * student's blindspots and goals, explains each match, and keeps the top
 * three. The catalog is a parameter; `KnowledgeBase.Catalog` is the one
 * the application passes.
 */
module OpportunityMatcher {
  import opened Wrappers
  import opened Text
  import opened Models
  import opened StableSort
  import ProfileAnalyzer
  import KnowledgeBase

  // ---------------------------------------------------------------- eligibility

  /** `is_eligible`: four checks, each of which can reject. */
  predicate IsEligible(p: StudentProfile, c: EligibilityCriteria) {
    if p.education_level.None? || p.education_level.value !in c.education_levels then false
    else if c.fields_of_study.Some? && p.field_of_study !in c.fields_of_study.value then false
    else if c.institution_types.Some?
         && (p.institution_type.None? || p.institution_type.value !in c.institution_types.value) then false
    else if c.background_requirements.Some?
         && !(exists r :: r in c.background_requirements.value && r in p.background_indicators) then false
    else true
  }

  /**
   * Eligibility is the conjunction of the four conditions; in particular a
   * restriction given as an empty list admits nobody.
   */
  lemma EligibleIffAll(p: StudentProfile, c: EligibilityCriteria)
    ensures IsEligible(p, c) <==>
      && p.education_level.Some? && p.education_level.value in c.education_levels
      && (c.fields_of_study.None? || p.field_of_study in c.fields_of_study.value)
      && (c.institution_types.None?
          || (p.institution_type.Some? && p.institution_type.value in c.institution_types.value))
      && (c.background_requirements.None?
          || exists r :: r in c.background_requirements.value && r in p.background_indicators)
    ensures c.education_levels == [] || c.fields_of_study == Some([])
         || c.institution_types == Some([]) || c.background_requirements == Some([])
         ==> !IsEligible(p, c)
  {
  }

  /** An entry open to all is open to every student who states an education level. */
  lemma OpenToAllEligible(p: StudentProfile, o: Opportunity)
    requires KnowledgeBase.OpenToAll(o) && p.education_level.Some?
    ensures IsEligible(p, o.eligibility_criteria)
  {
    assert p.education_level.value in o.eligibility_criteria.education_levels;
  }

  // ----------------------------------------------------------- miss probability

  /** `calculate_miss_probability`. */
  function MissProbabilityFor(v: VisibilityLevel, a: AwarenessLevel): MissProbability {
    if v == VisibilityLevel.Low then MissProbability.High
    else if v == VisibilityLevel.Medium then
      if a == AwarenessLevel.Low then MissProbability.High
      else if a == AwarenessLevel.Medium then MissProbability.Medium
      else MissProbability.Low
    else if a == AwarenessLevel.Low then MissProbability.Medium
    else MissProbability.Low
  }

  /** Visibility in increasing order. */
  function VisibilityRank(v: VisibilityLevel): nat {
    match v
    case Low => 0
    case Medium => 1
    case High => 2
  }

  /** Miss probability in increasing order. */
  function ProbabilityRank(m: MissProbability): nat {
    match m
    case Low => 0
    case Medium => 1
    case High => 2
  }

  /**
   * Less visible opportunities and less aware students are never less
   * likely to miss; low visibility means a high miss probability whatever
   * the awareness, and only low visibility or low awareness gives "High"
   * on a medium-visibility entry.
   */
  lemma MissProbabilityMonotone(v1: VisibilityLevel, v2: VisibilityLevel, a1: AwarenessLevel, a2: AwarenessLevel)
    requires VisibilityRank(v1) <= VisibilityRank(v2)
    requires ProfileAnalyzer.AwarenessRank(a1) <= ProfileAnalyzer.AwarenessRank(a2)
    ensures ProbabilityRank(MissProbabilityFor(v1, a1)) >= ProbabilityRank(MissProbabilityFor(v2, a2))
    ensures MissProbabilityFor(VisibilityLevel.Low, a1) == MissProbability.High
    ensures MissProbabilityFor(VisibilityLevel.High, a1) != MissProbability.High
  {
  }

  // ---------------------------------------------------------- blindspot alignment

  function Max(a: real, b: real): real {
    if a >= b then a else b
  }

  /**
   * Which of the thirteen keyword tests of `_calculate_blindspot_alignment`
   * hold for an opportunity and one blindspot, in the order they are made.
   */
  datatype Signals = Signals(
    categoryIn: bool, scholarship: bool, researchInternship: bool, innovationProgram: bool,
    internship: bool, program: bool, aicte: bool, central: bool, state: bool, nptel: bool,
    ministry: bool, skillProgram: bool, merit: bool)

  /** The keyword tests on the lower-cased categories and name. */
  function SignalsOf(o: Opportunity, b: Blindspot): Signals {
    var cat := Lower(b.category);
    var oc := Lower(o.category);
    var on := Lower(o.name);
    Signals(
      Contains(cat, oc),
      Contains(cat, "scholarship") && oc == "scholarship",
      Contains(cat, "research") && oc == "internship",
      Contains(cat, "innovation") && oc == "program",
      Contains(cat, "internship") && oc == "internship",
      Contains(cat, "program") && oc == "program",
      Contains(on, "aicte") && Contains(cat, "category-specific"),
      Contains(on, "central") && Contains(cat, "income-based"),
      Contains(on, "state") && Contains(cat, "state"),
      Contains(on, "nptel") && Contains(cat, "research"),
      Contains(on, "ministry") && Contains(cat, "innovation"),
      Contains(cat, "skill") && oc == "program",
      Contains(cat, "merit") && o.eligibility_criteria.merit_based)
  }

  /** A keyword heuristic: whether it applies, and the alignment it proposes. */
  datatype Heuristic = Heuristic(fires: bool, value: real)

  /** Whether the `j`-th keyword test holds. */
  function Fires(g: Signals, j: nat): bool
    requires j < 13
  {
    match j
    case 0 => g.categoryIn
    case 1 => g.scholarship
    case 2 => g.researchInternship
    case 3 => g.innovationProgram
    case 4 => g.internship
    case 5 => g.program
    case 6 => g.aicte
    case 7 => g.central
    case 8 => g.state
    case 9 => g.nptel
    case 10 => g.ministry
    case 11 => g.skillProgram
    case _ => g.merit
  }

  /** The weight the `j`-th test gives the blindspot's score. */
  function Weight(j: nat): real
    requires j < 13
  {
    if j == 2 || j == 3 then 0.9 else if j == 11 then 0.7 else if j == 12 then 0.8 else 1.0
  }

  /** The `j`-th heuristic for a blindspot with score `s`. */
  function HeuristicAt(g: Signals, s: real, j: nat): Heuristic
    requires j < 13
  {
    Heuristic(Fires(g, j), s * Weight(j))
  }

  /** `max_alignment = max(max_alignment, value)` when the heuristic applies. */
  function Raise(m: real, h: Heuristic): real {
    if h.fires then Max(m, h.value) else m
  }

  /** The running maximum after the first `j` heuristics. */
  function RaiseUpTo(m: real, g: Signals, s: real, j: nat): real
    requires j <= 13
  {
    if j == 0 then m else Raise(RaiseUpTo(m, g, s, j - 1), HeuristicAt(g, s, j - 1))
  }

  /** The running maximum after all heuristics for blindspot `b`. */
  function AfterBlindspot(m: real, o: Opportunity, b: Blindspot): real {
    RaiseUpTo(m, SignalsOf(o, b), b.relevance_score, 13)
  }

  /** The running maximum after the blindspots in `bs`, starting from 0. */
  function AlignmentUpTo(o: Opportunity, bs: seq<Blindspot>): real {
    if bs == [] then 0.0
    else AfterBlindspot(AlignmentUpTo(o, bs[..|bs| - 1]), o, bs[|bs| - 1])
  }

  /** The value `_calculate_blindspot_alignment` returns. */
  function Alignment(o: Opportunity, bs: seq<Blindspot>): real {
    Max(AlignmentUpTo(o, bs), 0.3)
  }

  /** `_calculate_blindspot_alignment`. */
  method CalculateBlindspotAlignment(o: Opportunity, bs: seq<Blindspot>) returns (r: real)
    ensures r == Alignment(o, bs)
  {
    var maxAlignment := 0.0;
    var k := 0;
    while k < |bs|
      invariant 0 <= k <= |bs|
      invariant maxAlignment == AlignmentUpTo(o, bs[..k])
    {
      assert bs[..k + 1][..k] == bs[..k];
      maxAlignment := AlignWithBlindspot(maxAlignment, o, bs[k]);
      k := k + 1;
    }
    assert bs[..k] == bs;
    r := Max(maxAlignment, 0.3);
  }

  /**
   * The body of the loop over blindspots: the thirteen keyword tests, made
   * in source order, each raising the running maximum to the value it
   * proposes when it holds.
   */
  method AlignWithBlindspot(m: real, o: Opportunity, b: Blindspot) returns (maxAlignment: real)
    ensures maxAlignment == AfterBlindspot(m, o, b)
  {
    var signals := SignalsOf(o, b);
    maxAlignment := m;
    for j := 0 to 13
      invariant maxAlignment == RaiseUpTo(m, signals, b.relevance_score, j)
    {
      var h := HeuristicAt(signals, b.relevance_score, j);
      if h.fires {
        maxAlignment := Max(maxAlignment, h.value);
      }
    }
  }

  /** The largest relevance score among `bs`, or 0 when none is positive. */
  function TopScore(bs: seq<Blindspot>): real {
    if bs == [] then 0.0 else Max(TopScore(bs[..|bs| - 1]), bs[|bs| - 1].relevance_score)
  }

  /** The `j`-th heuristic for opportunity `o` and blindspot `b`. */
  function BlindspotHeuristic(o: Opportunity, b: Blindspot, j: nat): Heuristic
    requires j < 13
  {
    HeuristicAt(SignalsOf(o, b), b.relevance_score, j)
  }

  /** No keyword heuristic applies to any of the blindspots. */
  predicate NoHeuristicFires(o: Opportunity, bs: seq<Blindspot>) {
    forall i, j :: 0 <= i < |bs| && 0 <= j < 13 ==> !BlindspotHeuristic(o, bs[i], j).fires
  }

  /**
   * The heuristics for one blindspot never lower the running maximum and
   * never raise it above the larger of the old value and the blindspot's
   * score (or 0).
   */
  lemma {:induction false} RaiseUpToRange(m: real, g: Signals, s: real, j: nat)
    requires j <= 13
    ensures m <= RaiseUpTo(m, g, s, j) <= Max(m, Max(s, 0.0))
  {
    if j > 0 {
      RaiseUpToRange(m, g, s, j - 1);
      HeuristicValueBound(g, s, j - 1);
    }
  }

  /** When none of the first `j` heuristics applies, the running maximum is unchanged. */
  lemma {:induction false} RaiseUpToIdle(m: real, g: Signals, s: real, j: nat)
    requires j <= 13
    requires forall i :: 0 <= i < j ==> !HeuristicAt(g, s, i).fires
    ensures RaiseUpTo(m, g, s, j) == m
  {
    if j > 0 {
      RaiseUpToIdle(m, g, s, j - 1);
    }
  }

  /** The running maximum reaches every value an applying heuristic proposes. */
  lemma {:induction false} RaiseUpToReaches(m: real, g: Signals, s: real, j: nat)
    requires j <= 13
    ensures forall i :: 0 <= i < j && HeuristicAt(g, s, i).fires ==> HeuristicAt(g, s, i).value <= RaiseUpTo(m, g, s, j)
  {
    if j > 0 {
      RaiseUpToReaches(m, g, s, j - 1);
    }
  }

  /** No heuristic proposes more than the blindspot's score, or 0 when that is negative. */
  lemma HeuristicValueBound(g: Signals, s: real, j: nat)
    requires j < 13
    ensures HeuristicAt(g, s, j).value <= Max(s, 0.0)
  {
  }

  lemma {:induction false} AlignmentUpToBounds(o: Opportunity, bs: seq<Blindspot>)
    ensures 0.0 <= AlignmentUpTo(o, bs) <= TopScore(bs)
    ensures NoHeuristicFires(o, bs) ==> AlignmentUpTo(o, bs) == 0.0
    ensures forall i, j :: 0 <= i < |bs| && 0 <= j < 13 && BlindspotHeuristic(o, bs[i], j).fires
              ==> BlindspotHeuristic(o, bs[i], j).value <= AlignmentUpTo(o, bs)
  {
    if bs != [] {
      var init := bs[..|bs| - 1];
      var last := bs[|bs| - 1];
      var prev := AlignmentUpTo(o, init);
      var g := SignalsOf(o, last);
      AlignmentUpToBounds(o, init);
      RaiseUpToRange(prev, g, last.relevance_score, 13);
      RaiseUpToReaches(prev, g, last.relevance_score, 13);
      assert AlignmentUpTo(o, bs) == RaiseUpTo(prev, g, last.relevance_score, 13);
      if NoHeuristicFires(o, bs) {
        forall i, j | 0 <= i < |init| && 0 <= j < 13 ensures !BlindspotHeuristic(o, init[i], j).fires {
          assert init[i] == bs[i];
        }
        assert prev == 0.0;
        forall j | 0 <= j < 13 ensures !HeuristicAt(g, last.relevance_score, j).fires {
          assert !BlindspotHeuristic(o, bs[|bs| - 1], j).fires;
        }
        RaiseUpToIdle(prev, g, last.relevance_score, 13);
      }
      forall i, j | 0 <= i < |bs| && 0 <= j < 13 && BlindspotHeuristic(o, bs[i], j).fires
        ensures BlindspotHeuristic(o, bs[i], j).value <= AlignmentUpTo(o, bs)
      {
        if i < |init| {
          assert init[i] == bs[i];
        }
      }
    }
  }

  /**
   * The alignment is at least 0.3 and at most the larger of 0.3 and the top
   * blindspot score; it is exactly 0.3 when no heuristic applies, and it is
   * at least every value an applying heuristic proposes.
   */
  lemma AlignmentBounds(o: Opportunity, bs: seq<Blindspot>)
    ensures 0.3 <= Alignment(o, bs) <= Max(0.3, TopScore(bs))
    ensures NoHeuristicFires(o, bs) ==> Alignment(o, bs) == 0.3
    ensures forall i, j :: 0 <= i < |bs| && 0 <= j < 13 && BlindspotHeuristic(o, bs[i], j).fires
              ==> BlindspotHeuristic(o, bs[i], j).value <= Alignment(o, bs)
  {
    AlignmentUpToBounds(o, bs);
  }

  // ------------------------------------------------------------------ relevance

  function ImpactWeight(i: ImpactLevel): real {
    match i
    case High => 0.3
    case Medium => 0.2
    case Low => 0.1
  }

  function VisibilityWeight(v: VisibilityLevel): real {
    match v
    case Low => 0.2
    case Medium => 0.15
    case High => 0.1
  }

  /** The goal a catalog category serves, if the category is one of the three known ones. */
  function CategoryGoal(category: string): Option<OpportunityGoal> {
    if category == "Scholarship" then Some(Scholarships)
    else if category == "Internship" then Some(Internships)
    else if category == "Program" then Some(Skills)
    else None
  }

  function GoalWeight(category: string, goals: seq<OpportunityGoal>): real {
    var g := CategoryGoal(category);
    if g.Some? && g.value in goals then 0.1 else 0.0
  }

  function Min(a: real, b: real): real {
    if a <= b then a else b
  }

  /** The value `_calculate_relevance` returns. */
  function Relevance(a: ProfileAnalysis, o: Opportunity, alignment: real): real {
    Min(alignment * 0.4 + ImpactWeight(o.impact_level) + VisibilityWeight(o.visibility_level)
        + GoalWeight(o.category, a.priority_goals), 1.0)
  }

  /** `_calculate_relevance`: the weighted sum, capped at 1. */
  method CalculateRelevance(p: StudentProfile, a: ProfileAnalysis, o: Opportunity, alignment: real)
    returns (score: real)
    ensures score == Relevance(a, o, alignment)
  {
    score := 0.0;
    score := score + alignment * 0.4;
    if o.impact_level.Value() == "High" {
      score := score + 0.3;
    } else if o.impact_level.Value() == "Medium" {
      score := score + 0.2;
    } else {
      score := score + 0.1;
    }
    if o.visibility_level == VisibilityLevel.Low {
      score := score + 0.2;
    } else if o.visibility_level == VisibilityLevel.Medium {
      score := score + 0.15;
    } else {
      score := score + 0.1;
    }
    var goal := CategoryGoal(o.category);
    if goal.Some? {
      if goal.value in a.priority_goals {
        score := score + 0.1;
      }
    }
    score := Min(score, 1.0);
  }

  /**
   * For a non-negative alignment the relevance lies in [0.2, 1]; it never
   * falls as the alignment rises, and a less visible opportunity never
   * scores lower than an otherwise identical more visible one.
   */
  lemma RelevanceBounds(a: ProfileAnalysis, o: Opportunity, x: real, y: real, v: VisibilityLevel)
    requires 0.0 <= x <= y
    requires VisibilityRank(v) <= VisibilityRank(o.visibility_level)
    ensures 0.2 <= Relevance(a, o, x) <= 1.0
    ensures Relevance(a, o, x) <= Relevance(a, o, y)
    ensures Relevance(a, o.(visibility_level := v), x) >= Relevance(a, o, x)
  {
  }

  // ------------------------------------------------------------ fit explanation

  function EducationClause(p: StudentProfile): string
    requires p.education_level.Some?
  {
    "You're a " + p.education_level.value.Value() + " student, which matches the eligibility"
  }

  function FieldClause(p: StudentProfile): string {
    "your " + p.field_of_study + " background aligns with the program requirements"
  }

  function BackgroundClause(matching: seq<BackgroundIndicator>): string {
    "your background (" + Join(ProfileAnalyzer.BackgroundValues(matching), ", ")
    + ") makes you eligible for this targeted program"
  }

  const IncomeClause := "this income-based program is designed for students needing financial support"

  const MeritClause := "this merit-based program recognizes academic achievement"

  /** The profile's indicators that the requirements list, in profile order. */
  function MatchingBackgrounds(bg: seq<BackgroundIndicator>, reqs: seq<BackgroundIndicator>): seq<BackgroundIndicator> {
    if bg == [] then []
    else
      var init := MatchingBackgrounds(bg[..|bg| - 1], reqs);
      if bg[|bg| - 1] in reqs then init + [bg[|bg| - 1]] else init
  }

  /** The field clause, when the opportunity restricts fields of study. */
  function FieldClauses(p: StudentProfile, c: EligibilityCriteria): seq<string> {
    if c.fields_of_study.Some? then [FieldClause(p)] else []
  }

  /** The background clause, when some required background is in the profile. */
  function BackgroundClauses(p: StudentProfile, c: EligibilityCriteria): seq<string> {
    if c.background_requirements.None? then []
    else
      var matching := MatchingBackgrounds(p.background_indicators, c.background_requirements.value);
      if matching != [] then [BackgroundClause(matching)] else []
  }

  /** The income clause, for an income-based opportunity and a student needing financial support. */
  function IncomeClauses(p: StudentProfile, c: EligibilityCriteria): seq<string> {
    if c.income_based && FinancialSupport in p.background_indicators then [IncomeClause] else []
  }

  /** The merit clause, for a merit-based opportunity. */
  function MeritClauses(c: EligibilityCriteria): seq<string> {
    if c.merit_based then [MeritClause] else []
  }

  /** The clauses `_generate_fit_explanation` collects, in order. */
  function FitClauses(p: StudentProfile, o: Opportunity): (e: seq<string>)
    requires p.education_level.Some?
    ensures 1 <= |e| <= 5
  {
    var c := o.eligibility_criteria;
    [EducationClause(p)] + FieldClauses(p, c) + BackgroundClauses(p, c) + IncomeClauses(p, c) + MeritClauses(c)
  }

  /** One clause ends in "."; two are joined by ", and "; more are listed with a final ", and ". */
  function JoinClauses(e: seq<string>): string
    requires |e| >= 1
  {
    if |e| == 1 then e[0] + "."
    else if |e| == 2 then e[0] + ", and " + e[1] + "."
    else Join(e[..|e| - 1], ", ") + ", and " + e[|e| - 1] + "."
  }

  function FitExplanation(p: StudentProfile, o: Opportunity): string
    requires p.education_level.Some?
  {
    JoinClauses(FitClauses(p, o))
  }

  /** `_generate_fit_explanation`: collect the clauses, then join them. */
  method GenerateFitExplanation(p: StudentProfile, o: Opportunity) returns (text: string)
    requires p.education_level.Some?
    ensures text == FitExplanation(p, o)
  {
    var explanations := CollectFitClauses(p, o);
    text := JoinExplanations(explanations);
  }

  /** The first half of `_generate_fit_explanation`: one clause per matching aspect. */
  method CollectFitClauses(p: StudentProfile, o: Opportunity) returns (explanations: seq<string>)
    requires p.education_level.Some?
    ensures explanations == FitClauses(p, o)
  {
    var c := o.eligibility_criteria;
    explanations := [];
    explanations := explanations + [EducationClause(p)];
    if c.fields_of_study.Some? {
      explanations := explanations + [FieldClause(p)];
    }
    assert explanations == [EducationClause(p)] + FieldClauses(p, c);
    ghost var stage := explanations;
    if c.background_requirements.Some? {
      var matching := MatchingBackgrounds(p.background_indicators, c.background_requirements.value);
      if matching != [] {
        explanations := explanations + [BackgroundClause(matching)];
      }
    }
    assert explanations == stage + BackgroundClauses(p, c);
    stage := explanations;
    if c.income_based {
      if FinancialSupport in p.background_indicators {
        explanations := explanations + [IncomeClause];
      }
    }
    assert explanations == stage + IncomeClauses(p, c);
    if c.merit_based {
      explanations := explanations + [MeritClause];
    }
  }

  /** The second half of `_generate_fit_explanation`: the clauses as one sentence. */
  method JoinExplanations(explanations: seq<string>) returns (text: string)
    requires |explanations| >= 1
    ensures text == JoinClauses(explanations)
  {
    if |explanations| == 1 {
      text := explanations[0] + ".";
    } else if |explanations| == 2 {
      text := explanations[0] + ", and " + explanations[1] + ".";
    } else {
      text := Join(explanations[..|explanations| - 1], ", ") + ", and "
              + explanations[|explanations| - 1] + ".";
    }
  }

  /** The joined explanation opens with the first clause and ends in ".". */
  lemma JoinClausesEnds(e: seq<string>)
    requires |e| >= 1
    ensures StartsWith(JoinClauses(e), e[0])
    ensures EndsWith(JoinClauses(e), ".")
  {
    var n := |e|;
    if n == 2 {
      assert JoinClauses(e) == e[0] + (", and " + e[1] + ".");
    } else if n > 2 {
      assert JoinClauses(e) == Join(e[..n - 1], ", ") + (", and " + e[n - 1] + ".");
      JoinStartsWith(e[..n - 1], ", ");
      assert e[..n - 1][0] == e[0];
    }
  }

  /** Every clause occurs in the joined explanation. */
  lemma JoinClausesMentions(e: seq<string>, k: nat)
    requires k < |e|
    ensures Contains(JoinClauses(e), e[k])
  {
    if |e| == 1 {
      JoinOneMentions(e);
    } else if |e| == 2 {
      JoinTwoMentions(e, k);
    } else if k < |e| - 1 {
      JoinManyMentionsHead(e, k);
    } else {
      JoinManyMentionsLast(e);
    }
  }

  lemma JoinOneMentions(e: seq<string>)
    requires |e| == 1
    ensures Contains(JoinClauses(e), e[0])
  {
    JoinClausesEnds(e);
    StartsWithContains(JoinClauses(e), e[0]);
  }

  lemma JoinTwoMentions(e: seq<string>, k: nat)
    requires |e| == 2 && k < 2
    ensures Contains(JoinClauses(e), e[k])
  {
    if k == 0 {
      JoinClausesEnds(e);
      StartsWithContains(JoinClauses(e), e[0]);
    } else {
      ContainsPiece(e[0] + ", and ", e[1], ".");
    }
  }

  lemma JoinManyMentionsLast(e: seq<string>)
    requires |e| > 2
    ensures Contains(JoinClauses(e), e[|e| - 1])
  {
    ContainsPiece(Join(e[..|e| - 1], ", ") + ", and ", e[|e| - 1], ".");
  }

  lemma JoinManyMentionsHead(e: seq<string>, k: nat)
    requires |e| > 2 && k < |e| - 1
    ensures Contains(JoinClauses(e), e[k])
  {
    var n := |e|;
    var head, tail := Join(e[..n - 1], ", "), ", and " + e[n - 1] + ".";
    assert JoinClauses(e) == head + ", and " + e[n - 1] + ".";
    assert JoinClauses(e) == "" + head + tail;
    JoinContainsPart(e[..n - 1], ", ", k);
    assert e[..n - 1][k] == e[k];
    ContainsWithin("", head, tail, e[k]);
  }

  /**
   * The explanation opens with the education clause and ends in "."; it
   * mentions the field of study whenever the opportunity restricts fields,
   * and the merit clause whenever the opportunity is merit-based.
   */
  lemma FitExplanationShape(p: StudentProfile, o: Opportunity)
    requires p.education_level.Some?
    ensures StartsWith(FitExplanation(p, o), EducationClause(p))
    ensures EndsWith(FitExplanation(p, o), ".")
    ensures o.eligibility_criteria.fields_of_study.Some? ==> Contains(FitExplanation(p, o), FieldClause(p))
    ensures o.eligibility_criteria.merit_based ==> Contains(FitExplanation(p, o), MeritClause)
  {
    var e := FitClauses(p, o);
    JoinClausesEnds(e);
    if o.eligibility_criteria.fields_of_study.Some? {
      assert e[1] == FieldClause(p);
      JoinClausesMentions(e, 1);
    }
    if o.eligibility_criteria.merit_based {
      assert e[|e| - 1] == MeritClause;
      JoinClausesMentions(e, |e| - 1);
    }
  }

  // ---------------------------------------------------------------- miss reason

  const LowVisibilityReason := "this program has very low visibility and is rarely promoted in colleges"

  const MediumVisibilityReason := "this program is not widely advertised beyond official government portals"

  const LowAwarenessReason := "students with limited opportunity awareness often miss such programs"

  /** The name keywords, in the order they are tried. */
  function NameKeyword(i: nat): string
    requires i < 5
  {
    match i
    case 0 => "AICTE"
    case 1 => "State"
    case 2 => "NPTEL"
    case 3 => "Ministry"
    case _ => "Central Sector"
  }

  /** The reason given for a name containing the `i`-th keyword. */
  function NameReasonAt(i: nat): string
    requires i < 5
  {
    match i
    case 0 => "AICTE programs are often buried in technical documentation"
    case 1 => "state-level programs vary by region and lack centralized promotion"
    case 2 => "students often see NPTEL only as a course platform, not for internships"
    case 3 => "ministry programs are scattered across multiple websites"
    case _ => "many students assume they need high merit for central scholarships"
  }

  /** The if/elif chain over the (case-sensitive) name, from the `k`-th keyword on. */
  function FirstKeywordFrom(name: string, k: nat): (r: Option<nat>)
    requires k <= 5
    ensures r.Some? ==> k <= r.value < 5
    decreases 5 - k
  {
    if k == 5 then None
    else if Contains(name, NameKeyword(k)) then Some(k)
    else FirstKeywordFrom(name, k + 1)
  }

  /** The name-based clause: at most one, chosen by the first keyword the name contains. */
  function NameReasons(name: string): seq<string> {
    var first := FirstKeywordFrom(name, 0);
    if first.Some? then [NameReasonAt(first.value)] else []
  }

  function VisibilityReasons(v: VisibilityLevel): seq<string> {
    if v == VisibilityLevel.Low then [LowVisibilityReason]
    else if v == VisibilityLevel.Medium then [MediumVisibilityReason]
    else []
  }

  function AwarenessReasons(aw: AwarenessLevel): seq<string> {
    if aw == AwarenessLevel.Low then [LowAwarenessReason] else []
  }

  /** The word every miss-reason sentence opens with. */
  const Students := "Students"

  /** The reasons `_generate_miss_reason` collects, in order. */
  function MissReasons(o: Opportunity, aw: AwarenessLevel): (r: seq<string>)
    ensures |r| <= 3
  {
    VisibilityReasons(o.visibility_level) + NameReasons(o.name) + AwarenessReasons(aw)
  }

  /** No reason gives the generic sentence; one or more follow "because", joined by " and ". */
  function MissReasonText(reasons: seq<string>): string {
    if |reasons| == 0 then Students + " often miss this opportunity due to lack of awareness."
    else if |reasons| == 1 then Students + " usually miss this because " + reasons[0] + "."
    else Students + " usually miss this because " + Join(reasons, " and ") + "."
  }

  function MissReason(o: Opportunity, aw: AwarenessLevel): string {
    MissReasonText(MissReasons(o, aw))
  }

  /** `_generate_miss_reason`. */
  method GenerateMissReason(o: Opportunity, aw: AwarenessLevel) returns (text: string)
    ensures text == MissReason(o, aw)
  {
    var reasons := [];
    if o.visibility_level == VisibilityLevel.Low {
      reasons := reasons + [LowVisibilityReason];
    } else if o.visibility_level == VisibilityLevel.Medium {
      reasons := reasons + [MediumVisibilityReason];
    }
    assert reasons == VisibilityReasons(o.visibility_level);
    var first := FirstKeywordFrom(o.name, 0);
    if first.Some? {
      reasons := reasons + [NameReasonAt(first.value)];
    }
    assert reasons == VisibilityReasons(o.visibility_level) + NameReasons(o.name);
    if aw == AwarenessLevel.Low {
      reasons := reasons + [LowAwarenessReason];
    }
    assert reasons == MissReasons(o, aw);
    if |reasons| == 0 {
      text := Students + " often miss this opportunity due to lack of awareness.";
    } else if |reasons| == 1 {
      text := Students + " usually miss this because " + reasons[0] + ".";
    } else {
      text := Students + " usually miss this because " + Join(reasons, " and ") + ".";
    }
  }

  /**
   * First match: the search from keyword `k` on yields `i` exactly when the
   * name contains the `i`-th keyword and none between `k` and `i`, and
   * yields nothing exactly when it contains none of them.
   */
  lemma {:induction false} FirstKeywordExact(name: string, k: nat, i: nat)
    requires k <= i < 5
    ensures FirstKeywordFrom(name, k) == Some(i) <==>
              Contains(name, NameKeyword(i)) && forall j :: k <= j < i ==> !Contains(name, NameKeyword(j))
    ensures FirstKeywordFrom(name, k).None? <==> forall j :: k <= j < 5 ==> !Contains(name, NameKeyword(j))
    decreases 5 - k
  {
    if k < i {
      FirstKeywordExact(name, k + 1, i);
    } else if k < 4 {
      FirstKeywordExact(name, k + 1, k + 1);
    }
  }

  /**
   * The name contributes at most one clause: the one for the first keyword,
   * in the order AICTE, State, NPTEL, Ministry, Central Sector, that it
   * contains, and none when it contains none of them.
   */
  lemma NameReasonFirstMatch(name: string, i: nat)
    requires i < 5
    ensures |NameReasons(name)| <= 1
    ensures Contains(name, NameKeyword(i)) && (forall j :: 0 <= j < i ==> !Contains(name, NameKeyword(j)))
            ==> NameReasons(name) == [NameReasonAt(i)]
    ensures NameReasons(name) == [] <==> forall j :: 0 <= j < 5 ==> !Contains(name, NameKeyword(j))
  {
    FirstKeywordExact(name, 0, i);
  }

  /** Whatever the reasons, the sentence opens with "Students" and ends in ".". */
  lemma MissReasonFrame(reasons: seq<string>)
    ensures StartsWith(MissReasonText(reasons), Students)
    ensures EndsWith(MissReasonText(reasons), ".")
  {
    var t := MissReasonText(reasons);
    if |reasons| == 0 {
      assert t == Students + " often miss this opportunity due to lack of awareness.";
    } else if |reasons| == 1 {
      assert t == Students + (" usually miss this because " + reasons[0] + ".");
    } else {
      assert t == Students + (" usually miss this because " + Join(reasons, " and ") + ".");
    }
  }

  /** Every reason occurs in the sentence. */
  lemma MissReasonMentions(reasons: seq<string>, k: nat)
    requires k < |reasons|
    ensures Contains(MissReasonText(reasons), reasons[k])
  {
    var lead := Students + " usually miss this because ";
    if |reasons| == 1 {
      ContainsPiece(lead, reasons[0], ".");
    } else {
      JoinContainsPart(reasons, " and ", k);
      ContainsWithin(lead, Join(reasons, " and "), ".", reasons[k]);
    }
  }

  /**
   * The miss reason always opens with "Students" and ends in "."; it
   * mentions every collected reason.
   */
  lemma MissReasonShape(o: Opportunity, aw: AwarenessLevel, k: nat)
    requires k < |MissReasons(o, aw)|
    ensures StartsWith(MissReason(o, aw), Students)
    ensures EndsWith(MissReason(o, aw), ".")
    ensures Contains(MissReason(o, aw), MissReasons(o, aw)[k])
  {
    MissReasonFrame(MissReasons(o, aw));
    MissReasonMentions(MissReasons(o, aw), k);
  }

  // ------------------------------------------------------------------- matching

  /** The match built for an eligible opportunity. */
  function MatchFor(p: StudentProfile, a: ProfileAnalysis, bs: seq<Blindspot>, o: Opportunity): OpportunityMatch
    requires p.education_level.Some?
  {
    OpportunityMatch(
      o,
      FitExplanation(p, o),
      MissReason(o, a.awareness_level),
      MissProbabilityFor(o.visibility_level, a.awareness_level),
      Relevance(a, o, Alignment(o, bs)))
  }

  /** The matches for the eligible entries of `catalog`, in catalog order. */
  function EligibleMatches(p: StudentProfile, a: ProfileAnalysis, bs: seq<Blindspot>, catalog: seq<Opportunity>)
    : seq<OpportunityMatch>
  {
    if catalog == [] then []
    else
      var init := EligibleMatches(p, a, bs, catalog[..|catalog| - 1]);
      var o := catalog[|catalog| - 1];
      if IsEligible(p, o.eligibility_criteria) then init + [MatchFor(p, a, bs, o)] else init
  }

  /** How many entries of `catalog` the student is eligible for. */
  function EligibleCount(p: StudentProfile, catalog: seq<Opportunity>): nat {
    if catalog == [] then 0
    else EligibleCount(p, catalog[..|catalog| - 1])
         + (if IsEligible(p, catalog[|catalog| - 1].eligibility_criteria) then 1 else 0)
  }

  function Relevant(m: OpportunityMatch): real {
    m.relevance_score
  }

  /** All eligible matches, most relevant first, ties in catalog order. */
  function Ranking(p: StudentProfile, a: ProfileAnalysis, bs: seq<Blindspot>, catalog: seq<Opportunity>)
    : seq<OpportunityMatch>
  {
    SortDesc(EligibleMatches(p, a, bs, catalog), Relevant)
  }

  /** The list `match_opportunities` returns. */
  function Matches(p: StudentProfile, a: ProfileAnalysis, bs: seq<Blindspot>, catalog: seq<Opportunity>)
    : seq<OpportunityMatch>
  {
    TopThree(Ranking(p, a, bs, catalog))
  }

  /** The head of the ranking that is reported: the whole of a list shorter than two, else at most three. */
  function TopThree(all: seq<OpportunityMatch>): seq<OpportunityMatch> {
    if |all| < 2 then all else Take(all, if 3 < |all| then 3 else |all|)
  }

  /** The reported head is the first min(3, |all|) entries, and keeps the order. */
  lemma TopThreeShape(all: seq<OpportunityMatch>)
    ensures |TopThree(all)| == if |all| < 3 then |all| else 3
    ensures TopThree(all) == all[..|TopThree(all)|]
    ensures SortedDesc(all, Relevant) ==> SortedDesc(TopThree(all), Relevant)
    ensures forall m :: m in TopThree(all) ==> m in all
  {
  }

  /** `match_opportunities`, over the catalog it is given. */
  method MatchOpportunities(p: StudentProfile, a: ProfileAnalysis, bs: seq<Blindspot>, catalog: seq<Opportunity>)
    returns (r: seq<OpportunityMatch>)
    ensures r == Matches(p, a, bs, catalog)
  {
    var all := CollectEligible(p, a, bs, catalog);
    all := SortDesc(all, Relevant);
    if |all| < 2 {
      return all;
    }
    r := Take(all, if 3 < |all| then 3 else |all|);
  }

  /** The loop of `match_opportunities`: a match for every eligible entry, in catalog order. */
  method CollectEligible(p: StudentProfile, a: ProfileAnalysis, bs: seq<Blindspot>, catalog: seq<Opportunity>)
    returns (all: seq<OpportunityMatch>)
    ensures all == EligibleMatches(p, a, bs, catalog)
  {
    all := [];
    var k := 0;
    while k < |catalog|
      invariant 0 <= k <= |catalog|
      invariant all == EligibleMatches(p, a, bs, catalog[..k])
    {
      var o := catalog[k];
      assert catalog[..k + 1][..k] == catalog[..k];
      if IsEligible(p, o.eligibility_criteria) {
        var m := BuildMatch(p, a, bs, o);
        all := all + [m];
      }
      k := k + 1;
    }
    assert catalog[..k] == catalog;
  }

  /** The body of the loop of `match_opportunities` for an eligible entry. */
  method BuildMatch(p: StudentProfile, a: ProfileAnalysis, bs: seq<Blindspot>, o: Opportunity)
    returns (m: OpportunityMatch)
    requires p.education_level.Some?
    ensures m == MatchFor(p, a, bs, o)
  {
    var alignment := CalculateBlindspotAlignment(o, bs);
    var relevance := CalculateRelevance(p, a, o, alignment);
    var fit := GenerateFitExplanation(p, o);
    var missReason := GenerateMissReason(o, a.awareness_level);
    var missProbability := MissProbabilityFor(o.visibility_level, a.awareness_level);
    m := OpportunityMatch(o, fit, missReason, missProbability, relevance);
  }

  /** One match per eligible entry. */
  lemma {:induction false} EligibleMatchesCount(p: StudentProfile, a: ProfileAnalysis, bs: seq<Blindspot>,
                                                catalog: seq<Opportunity>)
    ensures |EligibleMatches(p, a, bs, catalog)| == EligibleCount(p, catalog)
  {
    if catalog != [] {
      EligibleMatchesCount(p, a, bs, catalog[..|catalog| - 1]);
    }
  }

  /** Every match is for an eligible catalog entry and has a relevance in [0.2, 1]. */
  lemma {:induction false} EligibleMatchesSound(p: StudentProfile, a: ProfileAnalysis, bs: seq<Blindspot>,
                                                catalog: seq<Opportunity>)
    ensures forall m :: m in EligibleMatches(p, a, bs, catalog) ==>
              && m.opportunity in catalog && IsEligible(p, m.opportunity.eligibility_criteria)
              && 0.2 <= m.relevance_score <= 1.0
  {
    if catalog != [] {
      var init := catalog[..|catalog| - 1];
      var o := catalog[|catalog| - 1];
      EligibleMatchesSound(p, a, bs, init);
      assert catalog == init + [o];
      if IsEligible(p, o.eligibility_criteria) {
        AlignmentBounds(o, bs);
        RelevanceBounds(a, o, Alignment(o, bs), Alignment(o, bs), o.visibility_level);
      }
    }
  }

  /** Every eligible entry has its match. */
  lemma {:induction false} EligibleMatchesComplete(p: StudentProfile, a: ProfileAnalysis, bs: seq<Blindspot>,
                                                   catalog: seq<Opportunity>)
    ensures forall o :: o in catalog && IsEligible(p, o.eligibility_criteria) ==>
              exists m :: m in EligibleMatches(p, a, bs, catalog) && m.opportunity == o
  {
    if catalog != [] {
      var init := catalog[..|catalog| - 1];
      var last := catalog[|catalog| - 1];
      var ms := EligibleMatches(p, a, bs, catalog);
      EligibleMatchesComplete(p, a, bs, init);
      assert catalog == init + [last];
      forall o | o in catalog && IsEligible(p, o.eligibility_criteria)
        ensures exists m :: m in ms && m.opportunity == o
      {
        if o in init {
          var m :| m in EligibleMatches(p, a, bs, init) && m.opportunity == o;
          assert m in ms;
        } else {
          assert o == last;
          assert MatchFor(p, a, bs, o) in ms;
        }
      }
    }
  }

  /**
   * The result holds min(3, number of eligible entries) matches, each for an
   * eligible catalog entry with a relevance in [0.2, 1], in non-increasing
   * relevance order; it is the head of the full ranking.
   */
  lemma MatchesShape(p: StudentProfile, a: ProfileAnalysis, bs: seq<Blindspot>, catalog: seq<Opportunity>)
    ensures |Matches(p, a, bs, catalog)| == if EligibleCount(p, catalog) < 3 then EligibleCount(p, catalog) else 3
    ensures Matches(p, a, bs, catalog) == Ranking(p, a, bs, catalog)[..|Matches(p, a, bs, catalog)|]
    ensures SortedDesc(Matches(p, a, bs, catalog), Relevant)
    ensures forall m :: m in Matches(p, a, bs, catalog) ==>
              && m.opportunity in catalog && IsEligible(p, m.opportunity.eligibility_criteria)
              && 0.2 <= m.relevance_score <= 1.0
  {
    var all := Ranking(p, a, bs, catalog);
    TopThreeShape(all);
    EligibleMatchesCount(p, a, bs, catalog);
    EligibleMatchesSound(p, a, bs, catalog);
    SortDescSorted(EligibleMatches(p, a, bs, catalog), Relevant);
    forall m | m in all ensures m in EligibleMatches(p, a, bs, catalog) {
      assert m in multiset(all);
    }
  }

  /** Matches with equal relevance keep catalog order in the ranking. */
  lemma RankingStable(p: StudentProfile, a: ProfileAnalysis, bs: seq<Blindspot>, catalog: seq<Opportunity>, v: real)
    ensures WithKey(Ranking(p, a, bs, catalog), Relevant, v) == WithKey(EligibleMatches(p, a, bs, catalog), Relevant, v)
  {
    SortDescStable(EligibleMatches(p, a, bs, catalog), Relevant, v);
  }

  /**
   * With the application's catalog, every student who states an education
   * level gets two or three recommendations.
   */
  lemma CatalogGivesTwoOrThree(p: StudentProfile, a: ProfileAnalysis, bs: seq<Blindspot>)
    requires p.education_level.Some?
    ensures 2 <= |Matches(p, a, bs, KnowledgeBase.Catalog)| <= 3
  {
    var c := KnowledgeBase.Catalog;
    KnowledgeBase.TwoEntriesOpenToAll();
    OpenToAllEligible(p, c[4]);
    OpenToAllEligible(p, c[5]);
    assert c[..6] == c;
    assert c[..5][..4] == c[..4];
    assert c[..5][4] == c[4];
    assert EligibleCount(p, c[..5]) >= 1;
    MatchesShape(p, a, bs, c);
  }
}
