/**
 * The recommender's data model: the enumerations with their display
 * values, the student profile, opportunities and their eligibility
 * criteria, blindspots, matches and the profile analysis, and the
 * required-field check of a profile (`StudentProfile.validate`).
 */
module Models {
  import opened Wrappers
  import opened Text

  datatype EducationLevel = Diploma | UG | PG | PhD {
    function Value(): string {
      match this
      case Diploma => "Diploma"
      case UG => "UG"
      case PG => "PG"
      case PhD => "PhD"
    }
  }

  datatype InstitutionType = Government | Private | Autonomous | Open {
    function Value(): string {
      match this
      case Government => "Government"
      case Private => "Private"
      case Autonomous => "Autonomous"
      case Open => "Open"
    }
  }

  datatype BackgroundIndicator = Rural | FirstGeneration | FinancialSupport | Disabled | Minority {
    function Value(): string {
      match this
      case Rural => "Rural"
      case FirstGeneration => "First-generation"
      case FinancialSupport => "Financial support"
      case Disabled => "Disabled"
      case Minority => "Minority"
    }
  }

  datatype OpportunityGoal = Scholarships | Internships | Research | Skills | GovtExams {
    function Value(): string {
      match this
      case Scholarships => "Scholarships"
      case Internships => "Internships"
      case Research => "Research"
      case Skills => "Skills"
      case GovtExams => "Govt Exams"
    }
  }

  datatype MissedOpportunityFrequency = YesManyTimes | OnceOrTwice | No {
    function Value(): string {
      match this
      case YesManyTimes => "Yes many times"
      case OnceOrTwice => "Once or twice"
      case No => "No"
    }
  }

  datatype MissProbability = High | Medium | Low

  datatype VisibilityLevel = High | Medium | Low

  datatype ImpactLevel = High | Medium | Low {
    function Value(): string {
      match this
      case High => "High"
      case Medium => "Medium"
      case Low => "Low"
    }
  }

  datatype AwarenessLevel = Low | Medium | High

  /**
   * A student's self-reported profile. The fields Python allows to be
   * `None` are `Option`s; a `None` name, degree or field of study is
   * represented by the empty string, which the checks treat the same way.
   */
  datatype StudentProfile = StudentProfile(
    name: string,
    age: Option<int>,
    education_level: Option<EducationLevel>,
    degree: string,
    field_of_study: string,
    year_of_study: Option<int>,
    institution_type: Option<InstitutionType>,
    background_indicators: seq<BackgroundIndicator>,
    opportunity_goals: seq<OpportunityGoal>,
    missed_opportunities_before: Option<MissedOpportunityFrequency>,
    gender: Option<string>,
    additional_context: Option<string>)
  {
    /**
     * Every value the later stages read through `.value` or format is
     * present; `validate` succeeding guarantees it.
     */
    predicate Complete() {
      education_level.Some? && institution_type.Some? && year_of_study.Some?
      && missed_opportunities_before.Some?
    }
  }

  datatype EligibilityCriteria = EligibilityCriteria(
    education_levels: seq<EducationLevel>,
    fields_of_study: Option<seq<string>>,
    institution_types: Option<seq<InstitutionType>>,
    background_requirements: Option<seq<BackgroundIndicator>>,
    income_based: bool,
    merit_based: bool)

  datatype Opportunity = Opportunity(
    id: string,
    name: string,
    description: string,
    eligibility_criteria: EligibilityCriteria,
    visibility_level: VisibilityLevel,
    impact_level: ImpactLevel,
    category: string)

  datatype Blindspot = Blindspot(category: string, reason: string, relevance_score: real)

  datatype OpportunityMatch = OpportunityMatch(
    opportunity: Opportunity,
    fit_explanation: string,
    miss_reason: string,
    miss_probability: MissProbability,
    relevance_score: real)

  datatype ProfileAnalysis = ProfileAnalysis(
    key_characteristics: seq<string>,
    eligibility_tags: seq<string>,
    awareness_level: AwarenessLevel,
    priority_goals: seq<OpportunityGoal>)

  /** The required fields `validate` can report, in the order it checks them. */
  datatype RequiredField =
    | Name | Age | Education | Degree | FieldOfStudy | Year | Institution | Goals | Missed
  {
    /** The name reported for the field. */
    function Value(): string {
      match this
      case Name => "name"
      case Age => "age"
      case Education => "education_level"
      case Degree => "degree"
      case FieldOfStudy => "field_of_study"
      case Year => "year_of_study"
      case Institution => "institution_type"
      case Goals => "opportunity_goals"
      case Missed => "missed_opportunities_before"
    }

    /** Position of the check in `validate`. */
    function Rank(): nat {
      match this
      case Name => 0
      case Age => 1
      case Education => 2
      case Degree => 3
      case FieldOfStudy => 4
      case Year => 5
      case Institution => 6
      case Goals => 7
      case Missed => 8
    }
  }

  /** The field checked `k`-th by `validate`. */
  function FieldAt(k: nat): (f: RequiredField)
    requires k < 9
    ensures f.Rank() == k
  {
    match k
    case 0 => Name
    case 1 => Age
    case 2 => Education
    case 3 => Degree
    case 4 => FieldOfStudy
    case 5 => Year
    case 6 => Institution
    case 7 => Goals
    case _ => Missed
  }

  predicate NotPositive(n: Option<int>) {
    n.None? || n.value <= 0
  }

  /** The condition under which `validate` reports field `f` as missing. */
  predicate Fails(p: StudentProfile, f: RequiredField) {
    match f
    case Name => IsBlank(p.name)
    case Age => NotPositive(p.age)
    case Education => p.education_level.None?
    case Degree => IsBlank(p.degree)
    case FieldOfStudy => IsBlank(p.field_of_study)
    case Year => NotPositive(p.year_of_study)
    case Institution => p.institution_type.None?
    case Goals => |p.opportunity_goals| == 0
    case Missed => p.missed_opportunities_before.None?
  }

  /** The list `validate` has built after its first `k` checks. */
  function MissingUpTo(p: StudentProfile, k: nat): seq<RequiredField>
    requires k <= 9
  {
    if k == 0 then []
    else if Fails(p, FieldAt(k - 1)) then MissingUpTo(p, k - 1) + [FieldAt(k - 1)]
    else MissingUpTo(p, k - 1)
  }

  /** The missing-field list of `validate`. */
  function MissingFields(p: StudentProfile): seq<RequiredField> {
    MissingUpTo(p, 9)
  }

  /** `StudentProfile.validate`: reports every required field that is absent or blank. */
  method Validate(p: StudentProfile) returns (ok: bool, missing: seq<RequiredField>)
    ensures missing == MissingFields(p)
    ensures ok <==> missing == []
  {
    missing := [];
    if IsBlank(p.name) {
      missing := missing + [Name];
    }
    assert missing == MissingUpTo(p, 1);
    if p.age.None? || p.age.value <= 0 {
      missing := missing + [Age];
    }
    assert missing == MissingUpTo(p, 2);
    if p.education_level.None? {
      missing := missing + [Education];
    }
    assert missing == MissingUpTo(p, 3);
    if IsBlank(p.degree) {
      missing := missing + [Degree];
    }
    assert missing == MissingUpTo(p, 4);
    if IsBlank(p.field_of_study) {
      missing := missing + [FieldOfStudy];
    }
    assert missing == MissingUpTo(p, 5);
    if p.year_of_study.None? || p.year_of_study.value <= 0 {
      missing := missing + [Year];
    }
    assert missing == MissingUpTo(p, 6);
    if p.institution_type.None? {
      missing := missing + [Institution];
    }
    assert missing == MissingUpTo(p, 7);
    // Background indicators are optional and never reported.
    if |p.opportunity_goals| == 0 {
      missing := missing + [Goals];
    }
    assert missing == MissingUpTo(p, 8);
    if p.missed_opportunities_before.None? {
      missing := missing + [Missed];
    }
    assert missing == MissingUpTo(p, 9);
    ok := missing == [];
  }

  /** After `k` checks, exactly the failing fields among the first `k` have been reported. */
  lemma {:induction false} MissingUpToExact(p: StudentProfile, k: nat, f: RequiredField)
    requires k <= 9
    ensures f in MissingUpTo(p, k) <==> f.Rank() < k && Fails(p, f)
  {
    if k > 0 {
      MissingUpToExact(p, k - 1, f);
      if f.Rank() == k - 1 {
        assert f == FieldAt(k - 1) by { FieldAtRank(f); }
      }
    }
  }

  /** Every field sits at its own rank in the check order. */
  lemma FieldAtRank(f: RequiredField)
    ensures FieldAt(f.Rank()) == f
  {
  }

  /** A field is reported exactly when its check fails. */
  lemma MissingFieldsExact(p: StudentProfile, f: RequiredField)
    ensures f in MissingFields(p) <==> Fails(p, f)
  {
    MissingUpToExact(p, 9, f);
  }

  /** Strictly increasing in check order. */
  predicate Ranked(fields: seq<RequiredField>) {
    forall i, j :: 0 <= i < j < |fields| ==> fields[i].Rank() < fields[j].Rank()
  }

  lemma {:induction false} RankedUpTo(p: StudentProfile, k: nat)
    requires k <= 9
    ensures Ranked(MissingUpTo(p, k))
    ensures forall i :: 0 <= i < |MissingUpTo(p, k)| ==> MissingUpTo(p, k)[i].Rank() < k
  {
    if k > 0 {
      RankedUpTo(p, k - 1);
    }
  }

  /** No field is reported twice, and fields are reported in the order the checks run. */
  lemma RankedMissingFields(p: StudentProfile)
    ensures Ranked(MissingFields(p))
  {
    RankedUpTo(p, 9);
  }

  /** Background indicators never decide validity. */
  lemma {:induction false} BackgroundNeverMissing(p: StudentProfile, bg: seq<BackgroundIndicator>, k: nat)
    requires k <= 9
    ensures MissingUpTo(p.(background_indicators := bg), k) == MissingUpTo(p, k)
  {
    if k > 0 {
      BackgroundNeverMissing(p, bg, k - 1);
    }
  }

  /** A profile passing every check reports nothing, and every later stage can read it. */
  lemma NothingMissingIffFilled(p: StudentProfile)
    ensures MissingFields(p) == [] <==>
      && !IsBlank(p.name) && !IsBlank(p.degree) && !IsBlank(p.field_of_study)
      && !NotPositive(p.age) && !NotPositive(p.year_of_study)
      && |p.opportunity_goals| > 0 && p.Complete()
  {
    if MissingFields(p) == [] {
      MissingFieldsExact(p, Name);
      MissingFieldsExact(p, Age);
      MissingFieldsExact(p, Education);
      MissingFieldsExact(p, Degree);
      MissingFieldsExact(p, FieldOfStudy);
      MissingFieldsExact(p, Year);
      MissingFieldsExact(p, Institution);
      MissingFieldsExact(p, Goals);
      MissingFieldsExact(p, Missed);
    } else {
      MissingFieldsExact(p, MissingFields(p)[0]);
    }
  }
}
