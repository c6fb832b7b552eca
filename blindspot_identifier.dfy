/**
 * `BlindspotIdentifier`: the opportunity categories a student is likely to
 * be unaware of. Eight profile rules each contribute one fixed record; four
 * fallback rules top the list up to three; the list is then sorted by
 * relevance, most relevant first, and cut to at most five.
 */
module BlindspotIdentifier {
  import opened Wrappers
  import opened Text
  import opened Models
  import opened StableSort

  /** Fields counted as STEM for the research rule. */
  const StemFields: seq<string> := [
    "Computer Science", "Engineering", "Mathematics", "Physics",
    "Chemistry", "Biology", "Statistics", "Data Science",
    "Information Technology", "Electronics", "Mechanical",
    "Civil", "Chemical", "Biotechnology"]

  /** `_has_financial_background`. */
  predicate HasFinancialBackground(tags: seq<string>) {
    FinancialSupport.Value() in tags
  }

  /** `_is_stem_field`: some STEM field occurs in the field of study, ignoring case. */
  predicate IsStemField(field: string) {
    exists i :: 0 <= i < |StemFields| && Contains(Lower(field), Lower(StemFields[i]))
  }

  /** `_has_special_category`: a female student, or one with a disability. */
  predicate HasSpecialCategory(gender: Option<string>, tags: seq<string>) {
    (gender.Some? && gender.value != "" && Lower(gender.value) in ["female", "woman", "f"])
    || Disabled.Value() in tags
  }

  const InnovationKeywords: seq<string> := ["innovation", "innovate", "innovative", "startup", "entrepreneur"]

  /** `_mentions_innovation`: the context names one of the keywords, ignoring case. */
  predicate MentionsInnovation(context: Option<string>) {
    && context.Some? && context.value != ""
    && exists i :: 0 <= i < |InnovationKeywords| && Contains(Lower(context.value), InnovationKeywords[i])
  }

  /** Whether a field of study counts as STEM does not depend on its case. */
  lemma StemFieldIgnoresCase(field: string)
    ensures IsStemField(Lower(field)) <==> IsStemField(field)
  {
    LowerIdempotent(field);
  }

  /** A STEM name inside a longer field of study still counts. */
  lemma StemFieldWithin(before: string, k: nat, after: string)
    requires k < |StemFields|
    ensures IsStemField(before + StemFields[k] + after)
  {
    var s := before + StemFields[k] + after;
    LowerConcat(before + StemFields[k], after);
    LowerConcat(before, StemFields[k]);
    ContainsPiece(Lower(before), Lower(StemFields[k]), Lower(after));
    assert Lower(s) == Lower(before) + Lower(StemFields[k]) + Lower(after);
  }

  /** The special category does not depend on how the gender is capitalised. */
  lemma SpecialCategoryIgnoresCase(gender: string, tags: seq<string>)
    ensures HasSpecialCategory(Some(Lower(gender)), tags) <==> HasSpecialCategory(Some(gender), tags)
  {
    LowerIdempotent(gender);
  }

  /** Neither a missing nor an empty context mentions innovation; any keyword, in any case, does. */
  lemma InnovationKeywordsFound(context: Option<string>, before: string, k: nat, after: string)
    requires k < |InnovationKeywords|
    ensures context == None || context == Some("") ==> !MentionsInnovation(context)
    ensures MentionsInnovation(Some(before + InnovationKeywords[k] + after))
  {
    var s := before + InnovationKeywords[k] + after;
    LowerConcat(before + InnovationKeywords[k], after);
    LowerConcat(before, InnovationKeywords[k]);
    assert Lower(InnovationKeywords[k]) == InnovationKeywords[k];
    ContainsPiece(Lower(before), InnovationKeywords[k], Lower(after));
    assert Lower(s) == Lower(before) + InnovationKeywords[k] + Lower(after);
  }

  const IncomeRule := Blindspot(
    "Income-based Central Government Scholarships",
    "Many students don't know about central government scholarships that don't require high merit",
    0.9)

  const StemResearchRule := Blindspot(
    "Research Internships and Programs",
    "STEM students often focus on placements and miss research opportunities from national platforms",
    0.8)

  const StateMeritRule := Blindspot(
    "State-level Merit Scholarships",
    "State scholarships have poor visibility compared to national programs",
    0.7)

  const SpecialCategoryRule := Blindspot(
    "Category-specific Technical Scholarships",
    "Technical scholarships for specific categories are often under-promoted in colleges",
    0.85)

  const InnovationRule := Blindspot(
    "Government Innovation and Skill Programs",
    "Innovation programs are often buried in government websites with poor outreach",
    0.6)

  const InternshipRule := Blindspot(
    "Industry and Government Internships",
    "Many internship programs beyond campus placements remain unknown to students",
    0.65)

  const GovtExamPrepRule := Blindspot(
    "Government Exam Preparation Resources",
    "Free government resources for exam preparation are often overlooked",
    0.55)

  const InterdisciplinaryRule := Blindspot(
    "Interdisciplinary Research Programs",
    "Research opportunities exist beyond traditional STEM fields but are rarely promoted",
    0.58)

  const GeneralScholarshipRule := Blindspot(
    "Merit and Need-based Scholarships",
    "Many scholarship programs exist beyond the well-known ones, but lack awareness",
    0.5)

  const SkillDevelopmentRule := Blindspot(
    "Skill Development and Certification Programs",
    "Free skill development programs from government and institutions often go unnoticed",
    0.45)

  const AcademicEnhancementRule := Blindspot(
    "Academic Enhancement Programs",
    "Programs for academic growth beyond regular curriculum are rarely promoted",
    0.4)

  const CareerGuidanceRule := Blindspot(
    "Career Guidance and Mentorship Programs",
    "Structured career guidance programs from institutions and government are underutilized",
    0.35)

  /** The record of the `k`-th rule, in the order the rules are tried. */
  function RuleRecord(k: nat): Blindspot
    requires k < 12
  {
    match k
    case 0 => IncomeRule
    case 1 => StemResearchRule
    case 2 => StateMeritRule
    case 3 => SpecialCategoryRule
    case 4 => InnovationRule
    case 5 => InternshipRule
    case 6 => GovtExamPrepRule
    case 7 => InterdisciplinaryRule
    case 8 => GeneralScholarshipRule
    case 9 => SkillDevelopmentRule
    case 10 => AcademicEnhancementRule
    case _ => CareerGuidanceRule
  }

  /** What the rules test about a profile and its analysis, computed once. */
  datatype RuleConditions = RuleConditions(
    income: bool, stemResearch: bool, stateMerit: bool, specialCategory: bool,
    innovation: bool, internships: bool, govtExams: bool, interdisciplinary: bool,
    scholarships: bool)

  function ConditionsOf(p: StudentProfile, a: ProfileAnalysis): RuleConditions {
    var goals := a.priority_goals;
    RuleConditions(
      HasFinancialBackground(a.eligibility_tags) && Scholarships in goals,
      IsStemField(p.field_of_study) && (p.education_level == Some(UG) || p.education_level == Some(PG)),
      (p.institution_type == Some(Government) || p.institution_type == Some(Autonomous)) && Scholarships in goals,
      HasSpecialCategory(p.gender, a.eligibility_tags),
      Skills in goals || MentionsInnovation(p.additional_context),
      Internships in goals,
      GovtExams in goals,
      Research in goals && !IsStemField(p.field_of_study),
      Scholarships in goals)
  }

  /**
   * Whether the `k`-th rule adds its record, given the number `count` of
   * records already added. The last four rules only top the list up.
   */
  predicate Fires(c: RuleConditions, k: nat, count: nat)
    requires k < 12
  {
    match k
    case 0 => c.income
    case 1 => c.stemResearch
    case 2 => c.stateMerit
    case 3 => c.specialCategory
    case 4 => c.innovation
    case 5 => c.internships
    case 6 => c.govtExams
    case 7 => c.interdisciplinary
    case 8 => count < 3 && c.scholarships
    case _ => count < 3
  }

  /** The records added by the first `k` rules. */
  function CollectedUpTo(c: RuleConditions, k: nat): seq<Blindspot>
    requires k <= 12
  {
    if k == 0 then []
    else
      var prev := CollectedUpTo(c, k - 1);
      if Fires(c, k - 1, |prev|) then prev + [RuleRecord(k - 1)] else prev
  }

  /** The records of every rule that fired, in rule order. */
  function Collected(p: StudentProfile, a: ProfileAnalysis): seq<Blindspot> {
    CollectedUpTo(ConditionsOf(p, a), 12)
  }

  function Score(b: Blindspot): real {
    b.relevance_score
  }

  function Category(b: Blindspot): string {
    b.category
  }

  /** The blindspots `identify_blindspots` returns. */
  function Blindspots(p: StudentProfile, a: ProfileAnalysis): seq<Blindspot> {
    Take(SortDesc(Collected(p, a), Score), 5)
  }

  /** The fallback rules: top the list up to three records. */
  method TopUp(bs: seq<Blindspot>, seeksScholarships: bool, ghost c: RuleConditions) returns (blindspots: seq<Blindspot>)
    requires bs == CollectedUpTo(c, 8) && seeksScholarships == c.scholarships
    ensures blindspots == CollectedUpTo(c, 12)
  {
    blindspots := bs;
    if |blindspots| < 3 && seeksScholarships {
      blindspots := blindspots + [GeneralScholarshipRule];
    }
    assert blindspots == CollectedUpTo(c, 9);
    if |blindspots| < 3 {
      blindspots := blindspots + [SkillDevelopmentRule];
    }
    assert blindspots == CollectedUpTo(c, 10);
    if |blindspots| < 3 {
      blindspots := blindspots + [AcademicEnhancementRule];
    }
    assert blindspots == CollectedUpTo(c, 11);
    if |blindspots| < 3 {
      blindspots := blindspots + [CareerGuidanceRule];
    }
  }

  /** `BlindspotIdentifier.identify_blindspots`. */
  method IdentifyBlindspots(p: StudentProfile, a: ProfileAnalysis) returns (r: seq<Blindspot>)
    ensures r == Blindspots(p, a)
  {
    ghost var c := ConditionsOf(p, a);
    var blindspots := ProfileRules(p, a);
    blindspots := GoalRules(p, a, blindspots);
    blindspots := TopUp(blindspots, Scholarships in a.priority_goals, c);
    CollectedSize(c);
    blindspots := SortDesc(blindspots, Score);
    if |blindspots| < 3 {
      // The implementation-error branch: the fallbacks make it unreachable.
      assert false;
    }
    r := Take(blindspots, 5);
  }

  /** The first four rules, on income, field of study, institution and special category. */
  method ProfileRules(p: StudentProfile, a: ProfileAnalysis) returns (blindspots: seq<Blindspot>)
    ensures blindspots == CollectedUpTo(ConditionsOf(p, a), 4)
  {
    ghost var c := ConditionsOf(p, a);
    blindspots := [];
    if HasFinancialBackground(a.eligibility_tags) && Scholarships in a.priority_goals {
      blindspots := blindspots + [IncomeRule];
    }
    assert blindspots == CollectedUpTo(c, 1);
    if IsStemField(p.field_of_study) && (p.education_level == Some(UG) || p.education_level == Some(PG)) {
      blindspots := blindspots + [StemResearchRule];
    }
    assert blindspots == CollectedUpTo(c, 2);
    if (p.institution_type == Some(Government) || p.institution_type == Some(Autonomous))
      && Scholarships in a.priority_goals
    {
      blindspots := blindspots + [StateMeritRule];
    }
    assert blindspots == CollectedUpTo(c, 3);
    if HasSpecialCategory(p.gender, a.eligibility_tags) {
      blindspots := blindspots + [SpecialCategoryRule];
    }
  }

  /** The next four rules, on skills, internships, examinations and research. */
  method GoalRules(p: StudentProfile, a: ProfileAnalysis, bs: seq<Blindspot>) returns (blindspots: seq<Blindspot>)
    requires bs == CollectedUpTo(ConditionsOf(p, a), 4)
    ensures blindspots == CollectedUpTo(ConditionsOf(p, a), 8)
  {
    ghost var c := ConditionsOf(p, a);
    blindspots := bs;
    if Skills in a.priority_goals || MentionsInnovation(p.additional_context) {
      blindspots := blindspots + [InnovationRule];
    }
    assert blindspots == CollectedUpTo(c, 5);
    if Internships in a.priority_goals {
      blindspots := blindspots + [InternshipRule];
    }
    assert blindspots == CollectedUpTo(c, 6);
    if GovtExams in a.priority_goals {
      blindspots := blindspots + [GovtExamPrepRule];
    }
    assert blindspots == CollectedUpTo(c, 7);
    if Research in a.priority_goals && !IsStemField(p.field_of_study) {
      blindspots := blindspots + [InterdisciplinaryRule];
    }
  }

  /** The twelve rules add records with pairwise different categories. */
  lemma CategoriesDistinct()
    ensures forall i, j :: 0 <= i < j < 12 ==> RuleRecord(i).category != RuleRecord(j).category
  {
  }

  /** What every rule's record satisfies. */
  predicate WellFormedRecord(b: Blindspot) {
    && b.category != "" && b.reason != ""
    && 0.0 < b.relevance_score <= 1.0
    && (b != IncomeRule ==> b.relevance_score < 0.9)
  }

  lemma RuleRecordWellFormed(k: nat)
    requires k < 12
    ensures WellFormedRecord(RuleRecord(k))
  {
  }

  /**
   * The collected records are well formed, have pairwise different
   * categories, and none has the category of a rule not yet tried.
   */
  lemma {:induction false} CollectedFacts(c: RuleConditions, k: nat)
    requires k <= 12
    ensures |CollectedUpTo(c, k)| <= k
    ensures forall i :: 0 <= i < |CollectedUpTo(c, k)| ==> WellFormedRecord(CollectedUpTo(c, k)[i])
    ensures DistinctBy(CollectedUpTo(c, k), Category)
    ensures forall i, m :: 0 <= i < |CollectedUpTo(c, k)| && k <= m < 12 ==>
              CollectedUpTo(c, k)[i].category != RuleRecord(m).category
  {
    if k > 0 {
      CollectedFacts(c, k - 1);
      CategoriesDistinct();
      RuleRecordWellFormed(k - 1);
    }
  }

  /** A rule's record is collected exactly when that rule fired. */
  lemma {:induction false} RecordPresent(c: RuleConditions, k: nat, j: nat)
    requires k <= 12 && j < 12
    ensures RuleRecord(j) in CollectedUpTo(c, k) <==> j < k && Fires(c, j, |CollectedUpTo(c, j)|)
  {
    if k > 0 {
      RecordPresent(c, k - 1, j);
      var prev := CollectedUpTo(c, k - 1);
      if Fires(c, k - 1, |prev|) {
        assert CollectedUpTo(c, k) == prev + [RuleRecord(k - 1)];
        if j != k - 1 {
          CategoriesDistinct();
          assert RuleRecord(j) != RuleRecord(k - 1);
        }
      } else {
        assert CollectedUpTo(c, k) == prev;
      }
    }
  }

  /** The fallbacks top the list up to exactly three and add nothing beyond that. */
  lemma CollectedSize(c: RuleConditions)
    ensures |CollectedUpTo(c, 12)| == if |CollectedUpTo(c, 8)| < 3 then 3 else |CollectedUpTo(c, 8)|
    ensures |CollectedUpTo(c, 8)| >= 3 ==> CollectedUpTo(c, 12) == CollectedUpTo(c, 8)
  {
    var c8 := CollectedUpTo(c, 8);
    var c9 := CollectedUpTo(c, 9);
    var c10 := CollectedUpTo(c, 10);
    var c11 := CollectedUpTo(c, 11);
    assert |c9| == if |c8| < 3 && c.scholarships then |c8| + 1 else |c8|;
    assert |c10| == if |c9| < 3 then |c9| + 1 else |c9|;
    assert |c11| == if |c10| < 3 then |c10| + 1 else |c10|;
  }

  /** Every blindspot reported is a collected record, in the order of the sorted collection. */
  lemma BlindspotsFromCollected(p: StudentProfile, a: ProfileAnalysis)
    ensures forall i :: 0 <= i < |Blindspots(p, a)| ==>
              Blindspots(p, a)[i] == SortDesc(Collected(p, a), Score)[i]
              && Blindspots(p, a)[i] in Collected(p, a)
  {
    var s := SortDesc(Collected(p, a), Score);
    forall i | 0 <= i < |Blindspots(p, a)|
      ensures Blindspots(p, a)[i] in Collected(p, a)
    {
      assert s[i] in multiset(Collected(p, a));
    }
  }

  /**
   * Between three and five blindspots, most relevant first, with pairwise
   * different categories.
   */
  lemma BlindspotsShape(p: StudentProfile, a: ProfileAnalysis)
    ensures 3 <= |Blindspots(p, a)| <= 5
    ensures SortedDesc(Blindspots(p, a), Score)
    ensures DistinctBy(Blindspots(p, a), Category)
  {
    ReportShape(ConditionsOf(p, a));
  }

  /** The shape of the report, whatever the rules' conditions. */
  lemma ReportShape(c: RuleConditions)
    ensures 3 <= |Take(SortDesc(CollectedUpTo(c, 12), Score), 5)| <= 5
    ensures SortedDesc(Take(SortDesc(CollectedUpTo(c, 12), Score), 5), Score)
    ensures DistinctBy(Take(SortDesc(CollectedUpTo(c, 12), Score), 5), Category)
  {
    var all := CollectedUpTo(c, 12);
    CollectedSize(c);
    CollectedFacts(c, 12);
    SortDescSorted(all, Score);
    SortDescKeepsDistinct(all, Score, Category);
  }

  /** Every blindspot has a non-empty category and reason and a score in (0, 1]. */
  lemma BlindspotsWellFormed(p: StudentProfile, a: ProfileAnalysis)
    ensures forall b :: b in Blindspots(p, a) ==>
              b.category != "" && b.reason != "" && 0.0 < b.relevance_score <= 1.0
  {
    CollectedFacts(ConditionsOf(p, a), 12);
    BlindspotsFromCollected(p, a);
    forall b | b in Blindspots(p, a)
      ensures WellFormedRecord(b)
    {
      var c := Collected(p, a);
      var i :| 0 <= i < |c| && c[i] == b;
    }
  }

  /** The sorted collection starts with the income-based record whenever it holds it. */
  lemma IncomeRecordLeads(c: seq<Blindspot>)
    requires forall i :: 0 <= i < |c| ==> WellFormedRecord(c[i])
    requires IncomeRule in c
    ensures SortDesc(c, Score)[0] == IncomeRule
  {
    var s := SortDesc(c, Score);
    SortDescSorted(c, Score);
    assert IncomeRule in multiset(s);
    var j :| 0 <= j < |s| && s[j] == IncomeRule;
    assert s[0] in multiset(c);
    var i :| 0 <= i < |c| && c[i] == s[0];
    assert Score(s[0]) >= Score(s[j]);
  }

  /**
   * The income-based scholarship blindspot is reported exactly when the
   * student has a financial-support background and seeks scholarships, and
   * then it comes first.
   */
  lemma IncomeScholarshipFirst(p: StudentProfile, a: ProfileAnalysis)
    ensures IncomeRule in Blindspots(p, a) <==>
              HasFinancialBackground(a.eligibility_tags) && Scholarships in a.priority_goals
    ensures IncomeRule in Blindspots(p, a) ==> Blindspots(p, a)[0] == IncomeRule
  {
    var c := Collected(p, a);
    RecordPresent(ConditionsOf(p, a), 12, 0);
    assert CollectedUpTo(ConditionsOf(p, a), 0) == [];
    BlindspotsShape(p, a);
    BlindspotsFromCollected(p, a);
    if IncomeRule in c {
      CollectedFacts(ConditionsOf(p, a), 12);
      IncomeRecordLeads(c);
      assert IncomeRule in Blindspots(p, a);
    }
  }

  /** STEM research and interdisciplinary research are never suggested together. */
  lemma ResearchRulesExclusive(p: StudentProfile, a: ProfileAnalysis)
    ensures !(StemResearchRule in Blindspots(p, a) && InterdisciplinaryRule in Blindspots(p, a))
  {
    RecordPresent(ConditionsOf(p, a), 12, 1);
    RecordPresent(ConditionsOf(p, a), 12, 7);
    BlindspotsFromCollected(p, a);
  }

  /** When three or more profile rules fired, no fallback record is reported. */
  lemma NoFallbackAfterThree(p: StudentProfile, a: ProfileAnalysis)
    requires |CollectedUpTo(ConditionsOf(p, a), 8)| >= 3
    ensures forall b :: b in Blindspots(p, a) ==>
              b != GeneralScholarshipRule && b != SkillDevelopmentRule
              && b != AcademicEnhancementRule && b != CareerGuidanceRule
  {
    NoFallbackRecord(ConditionsOf(p, a));
    BlindspotsFromCollected(p, a);
  }

  /** Once the profile rules collected three records, the fallback rules add none. */
  lemma NoFallbackRecord(c: RuleConditions)
    requires |CollectedUpTo(c, 8)| >= 3
    ensures forall b :: b in CollectedUpTo(c, 12) ==>
              b != GeneralScholarshipRule && b != SkillDevelopmentRule
              && b != AcademicEnhancementRule && b != CareerGuidanceRule
  {
    CollectedSize(c);
    RecordPresent(c, 8, 8);
    RecordPresent(c, 8, 9);
    RecordPresent(c, 8, 10);
    RecordPresent(c, 8, 11);
  }
}
