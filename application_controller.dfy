/**
 * `ApplicationController`: the form-submission pipeline. A submission is
 * checked for out-of-range values, then for missing fields, then for an
 * empty knowledge base; a profile that passes is analysed, summarised,
 * given its blindspots and matches, and closed with an insight, each
 * stage with a fixed fallback for an empty result.
 */
module ApplicationController {
  import opened Wrappers
  import opened Text
  import opened Models
  import StableSort
  import ProfileAnalyzer
  import BlindspotIdentifier
  import OpportunityMatcher
  import ExplanationGenerator
  import KnowledgeBase

  // -------------------------------------------------------------- field values

  /** The out-of-range values `_validate_field_values` reports, in the order it checks them. */
  datatype FieldIssue = AgeNegative | AgeUnrealistic | YearNegative | YearUnrealistic {
    /** The description reported for the issue. */
    function Message(): string {
      match this
      case AgeNegative => "age (must be positive)"
      case AgeUnrealistic => "age (must be realistic)"
      case YearNegative => "year_of_study (must be positive)"
      case YearUnrealistic => "year_of_study (must be realistic)"
    }
  }

  /** The condition under which issue `f` is reported. */
  predicate Flags(p: StudentProfile, f: FieldIssue) {
    match f
    case AgeNegative => p.age.Some? && p.age.value < 0
    case AgeUnrealistic => p.age.Some? && p.age.value > 150
    case YearNegative => p.year_of_study.Some? && p.year_of_study.value < 0
    case YearUnrealistic => p.year_of_study.Some? && p.year_of_study.value > 10
  }

  /** The issues with the age: negative, then above 150. */
  function AgeIssues(p: StudentProfile): seq<FieldIssue> {
    (if Flags(p, AgeNegative) then [AgeNegative] else [])
    + (if Flags(p, AgeUnrealistic) then [AgeUnrealistic] else [])
  }

  /** The issues with the year of study: negative, then above 10. */
  function YearIssues(p: StudentProfile): seq<FieldIssue> {
    (if Flags(p, YearNegative) then [YearNegative] else [])
    + (if Flags(p, YearUnrealistic) then [YearUnrealistic] else [])
  }

  /** The list `_validate_field_values` returns. */
  function InvalidFields(p: StudentProfile): seq<FieldIssue> {
    AgeIssues(p) + YearIssues(p)
  }

  /** `_validate_field_values`. */
  method ValidateFieldValues(p: StudentProfile) returns (invalid: seq<FieldIssue>)
    ensures invalid == InvalidFields(p)
  {
    invalid := [];
    if p.age.Some? && p.age.value < 0 {
      invalid := invalid + [AgeNegative];
    }
    if p.age.Some? && p.age.value > 150 {
      invalid := invalid + [AgeUnrealistic];
    }
    assert invalid == AgeIssues(p);
    if p.year_of_study.Some? && p.year_of_study.value < 0 {
      invalid := invalid + [YearNegative];
    }
    if p.year_of_study.Some? && p.year_of_study.value > 10 {
      invalid := invalid + [YearUnrealistic];
    }
  }

  /** An issue is reported exactly when its check fails; at most one per field. */
  lemma InvalidFieldsExact(p: StudentProfile, f: FieldIssue)
    ensures f in InvalidFields(p) <==> Flags(p, f)
    ensures |InvalidFields(p)| <= 2
  {
  }

  /**
   * Nothing is reported exactly when any age given lies in [0, 150] and any
   * year given in [0, 10]; zero and absent values pass this check.
   */
  lemma NoInvalidFieldsIffInRange(p: StudentProfile)
    ensures InvalidFields(p) == [] <==>
              (p.age.None? || 0 <= p.age.value <= 150)
              && (p.year_of_study.None? || 0 <= p.year_of_study.value <= 10)
  {
    if InvalidFields(p) == [] {
      InvalidFieldsExact(p, AgeNegative);
      InvalidFieldsExact(p, AgeUnrealistic);
      InvalidFieldsExact(p, YearNegative);
      InvalidFieldsExact(p, YearUnrealistic);
    }
  }

  // ------------------------------------------------------------------ fallbacks

  /** The bullet lines of the fallback summary: background and goals only when non-empty. */
  function FallbackBullets(p: StudentProfile): seq<string>
    requires p.education_level.Some? && p.institution_type.Some?
  {
    [ExplanationGenerator.YearBullet(p), ExplanationGenerator.StudyBullet(p), ExplanationGenerator.InstitutionBullet(p)]
    + (if |p.background_indicators| > 0 then [ExplanationGenerator.BackgroundBullet(p.background_indicators)] else [])
    + (if |p.opportunity_goals| > 0 then [ExplanationGenerator.GoalsBullet(p.opportunity_goals)] else [])
  }

  /** Whether the education level and institution type a template reads are present. */
  predicate Readable(p: StudentProfile) {
    p.education_level.Some? && p.institution_type.Some?
  }

  /** `_generate_fallback_profile_summary`; it raises when a value it reads is absent. */
  function FallbackSummary(p: StudentProfile): Option<string> {
    if Readable(p) then Some(ExplanationGenerator.Greeting(p) + Join(FallbackBullets(p), "")) else None
  }

  /** `_generate_fallback_blindspots`. */
  const FallbackBlindspots: seq<Blindspot> := [
    Blindspot("Government Scholarships",
      "Many students don't know about government scholarships available for their profile", 0.8),
    Blindspot("Research and Internship Programs",
      "Students often focus on placements and miss research opportunities", 0.7),
    Blindspot("Skill Development Programs",
      "Skill programs are often buried in government websites with poor outreach", 0.6)
  ]

  /** `_generate_fallback_final_insight`; it uses neither the profile nor the matches. */
  const FallbackInsight: string :=
    ExplanationGenerator.Opening + "several opportunities that match your background. "
    + ExplanationGenerator.Barrier
    + "Take a moment to explore each recommendation—you're already eligible! "
    + ExplanationGenerator.Closing

  /** The fallback insight opens like the generated one and is not blank. */
  lemma FallbackInsightNotBlank()
    ensures StartsWith(FallbackInsight, ExplanationGenerator.Opening)
    ensures EndsWith(FallbackInsight, ExplanationGenerator.Closing)
    ensures !IsBlank(FallbackInsight)
  {
    ExplanationGenerator.FiveParts(ExplanationGenerator.Opening, "several opportunities that match your background. ",
      ExplanationGenerator.Barrier, "Take a moment to explore each recommendation—you're already eligible! ",
      ExplanationGenerator.Closing);
    ExplanationGenerator.OpeningStartsWithLetter();
    OpeningNotBlank(FallbackInsight, ExplanationGenerator.Opening);
  }

  /** The fallback summary greets the student by name and is never blank. */
  lemma FallbackSummaryShape(p: StudentProfile)
    requires Readable(p)
    ensures StartsWith(FallbackSummary(p).value, ExplanationGenerator.Greeting(p))
    ensures Contains(FallbackSummary(p).value, p.name)
    ensures !IsBlank(FallbackSummary(p).value)
  {
    var greeting := ExplanationGenerator.Greeting(p);
    StartsWithPrefix(greeting, Join(FallbackBullets(p), ""));
    ExplanationGenerator.GreetingNamesStudent(p);
    StartsWithContains(FallbackSummary(p).value, greeting);
    ContainsTransitive(FallbackSummary(p).value, greeting, p.name);
    OpeningNotBlank(FallbackSummary(p).value, greeting);
  }

  /** Three fallback blindspots with scores 0.8, 0.7 and 0.6, already in ranking order. */
  lemma FallbackBlindspotsShape()
    ensures |FallbackBlindspots| == 3
    ensures FallbackBlindspots[0].relevance_score == 0.8
    ensures FallbackBlindspots[1].relevance_score == 0.7
    ensures FallbackBlindspots[2].relevance_score == 0.6
    ensures StableSort.SortedDesc(FallbackBlindspots, BlindspotIdentifier.Score)
  {
  }

  /** `_generate_no_matches_insight`: a greeting by name, then a fixed message. */
  function NoMatchesInsight(p: StudentProfile): string {
    "Hi " + p.name + NoMatchesMessage
  }

  const NoMatchesMessage :=
    ", based on your current profile, we don't have specific opportunities "
    + "in our knowledge base that match your eligibility criteria right now. "
    + "This doesn't mean opportunities don't exist—it means our current database is limited. "
    + "We recommend checking back later as we continuously update our opportunity database. "
    + "In the meantime, explore the blindspot categories we identified—they can guide your own research!"

  /** The no-matches message greets the student by name. */
  lemma NoMatchesInsightNamesStudent(p: StudentProfile)
    ensures StartsWith(NoMatchesInsight(p), "Hi " + p.name)
    ensures Contains(NoMatchesInsight(p), p.name)
  {
    StartsWithPrefix("Hi " + p.name, NoMatchesMessage);
    ContainsPiece("Hi ", p.name, NoMatchesMessage);
  }

  // ----------------------------------------------------------------- submission

  const KnowledgeBaseUnavailable :=
    "System Error: Opportunity knowledge base is currently unavailable. Please try again later."

  const UnexpectedError := "An unexpected error occurred while processing your profile. Please try again."

  /** The dictionary `handle_form_submission` returns, one variant per way it can end. */
  datatype SubmissionResult =
    | InvalidValues(invalid_fields: seq<FieldIssue>)
    | MissingValues(missing_fields: seq<RequiredField>)
    | SystemError(error: string)
    | NoMatches(profile_summary: string, blindspots: seq<Blindspot>, final_insight: string)
    | Recommendations(profile_summary: string, blindspots: seq<Blindspot>,
                      matches: seq<OpportunityMatch>, final_insight: string)
  {
    /** The `valid` entry of the dictionary. */
    predicate Valid() {
      NoMatches? || Recommendations?
    }
  }

  /**
   * The components the controller holds. Each yields `None` where the
   * component raises an exception.
   */
  datatype Components = Components(
    analyze: StudentProfile -> Option<ProfileAnalysis>,
    summarize: StudentProfile -> Option<string>,
    identify: (StudentProfile, ProfileAnalysis) -> Option<seq<Blindspot>>,
    matchAll: (StudentProfile, ProfileAnalysis, seq<Blindspot>, seq<Opportunity>) -> Option<seq<OpportunityMatch>>,
    conclude: (StudentProfile, seq<Blindspot>, seq<OpportunityMatch>) -> Option<string>)

  /** `ProfileAnalyzer.analyze`, which reads the education level and institution type. */
  function RealAnalyze(p: StudentProfile): Option<ProfileAnalysis> {
    if Readable(p) then Some(ProfileAnalyzer.Analysis(p)) else None
  }

  /** `ExplanationGenerator.generate_profile_summary`, which reads the same two values. */
  function RealSummarize(p: StudentProfile): Option<string> {
    if Readable(p) then Some(ExplanationGenerator.ProfileSummary(p)) else None
  }

  /** `BlindspotIdentifier.identify_blindspots`. */
  function RealIdentify(p: StudentProfile, a: ProfileAnalysis): Option<seq<Blindspot>> {
    Some(BlindspotIdentifier.Blindspots(p, a))
  }

  /** `OpportunityMatcher.match_opportunities` over the given catalog. */
  function RealMatch(p: StudentProfile, a: ProfileAnalysis, bs: seq<Blindspot>, catalog: seq<Opportunity>)
    : Option<seq<OpportunityMatch>>
  {
    Some(OpportunityMatcher.Matches(p, a, bs, catalog))
  }

  /** `ExplanationGenerator.generate_final_insight`. */
  function RealConclude(p: StudentProfile, bs: seq<Blindspot>, ms: seq<OpportunityMatch>): Option<string> {
    Some(ExplanationGenerator.FinalInsight(p, bs, ms))
  }

  /**
   * The application's own components. The analyser and the summary raise
   * on a profile without an education level or institution type; the
   * others never raise.
   */
  const Real: Components := Components(RealAnalyze, RealSummarize, RealIdentify, RealMatch, RealConclude)

  /** The summary shown: the generated one, or the fallback when that is blank. */
  function SummaryStage(p: StudentProfile, c: Components): Option<string> {
    var generated := c.summarize(p);
    if generated.None? then None
    else if IsBlank(generated.value) then FallbackSummary(p)
    else generated
  }

  /** The blindspots shown: the identified ones, or the fallback three when there are none. */
  function BlindspotStage(p: StudentProfile, a: ProfileAnalysis, c: Components): Option<seq<Blindspot>> {
    var identified := c.identify(p, a);
    if identified.None? then None
    else if identified.value == [] then Some(FallbackBlindspots)
    else identified
  }

  /**
   * The `try` block: analysis, summary, blindspots, matches and insight;
   * an exception in any of them ends in the generic error.
   */
  function Pipeline(p: StudentProfile, catalog: seq<Opportunity>, c: Components): SubmissionResult {
    var analysis := c.analyze(p);
    if analysis.None? then SystemError(UnexpectedError)
    else
      var summary := SummaryStage(p, c);
      if summary.None? then SystemError(UnexpectedError)
      else
        var blindspots := BlindspotStage(p, analysis.value, c);
        if blindspots.None? then SystemError(UnexpectedError)
        else
          var matches := c.matchAll(p, analysis.value, blindspots.value, catalog);
          if matches.None? then SystemError(UnexpectedError)
          else if matches.value == [] then NoMatches(summary.value, blindspots.value, NoMatchesInsight(p))
          else
            var insight := c.conclude(p, blindspots.value, matches.value);
            if insight.None? then SystemError(UnexpectedError)
            else
              Recommendations(summary.value, blindspots.value, matches.value,
                              if IsBlank(insight.value) then FallbackInsight else insight.value)
  }

  /** `handle_form_submission`, over the catalog `get_all_opportunities` hands it and the given components. */
  function HandleFormSubmission(p: StudentProfile, catalog: seq<Opportunity>, c: Components): SubmissionResult {
    var invalid := InvalidFields(p);
    if invalid != [] then InvalidValues(invalid)
    else
      var missing := MissingFields(p);
      if missing != [] then MissingValues(missing)
      else if catalog == [] then SystemError(KnowledgeBaseUnavailable)
      else Pipeline(p, catalog, c)
  }

  /** Out-of-range values are reported alone, before any missing field. */
  lemma InvalidValuesFirst(p: StudentProfile, catalog: seq<Opportunity>, c: Components)
    requires InvalidFields(p) != []
    ensures HandleFormSubmission(p, catalog, c) == InvalidValues(InvalidFields(p))
    ensures !HandleFormSubmission(p, catalog, c).Valid()
  {
  }

  /** A profile with values in range but missing fields gets exactly the missing-field list. */
  lemma MissingValuesNext(p: StudentProfile, catalog: seq<Opportunity>, c: Components)
    requires InvalidFields(p) == [] && MissingFields(p) != []
    ensures HandleFormSubmission(p, catalog, c) == MissingValues(MissingFields(p))
    ensures !HandleFormSubmission(p, catalog, c).Valid()
  {
  }

  /** A complete profile against an empty knowledge base gets the unavailability error, and no stage runs. */
  lemma EmptyCatalogUnavailable(p: StudentProfile, c: Components)
    requires InvalidFields(p) == [] && MissingFields(p) == []
    ensures HandleFormSubmission(p, [], c) == SystemError(KnowledgeBaseUnavailable)
  {
  }

  /**
   * Nothing escapes: once both checks pass against a non-empty knowledge
   * base, the result is valid or the generic error, whatever the components
   * do; and a valid result means both checks passed.
   */
  lemma NothingEscapes(p: StudentProfile, catalog: seq<Opportunity>, c: Components)
    ensures InvalidFields(p) == [] && MissingFields(p) == [] && catalog != [] ==>
              HandleFormSubmission(p, catalog, c).Valid()
              || HandleFormSubmission(p, catalog, c) == SystemError(UnexpectedError)
    ensures HandleFormSubmission(p, catalog, c).Valid() ==>
              InvalidFields(p) == [] && MissingFields(p) == [] && catalog != []
  {
  }

  /**
   * Components that do not raise on the profile give a valid result once
   * both checks pass against a non-empty knowledge base.
   */
  lemma ValidWhenNothingRaises(p: StudentProfile, catalog: seq<Opportunity>, c: Components)
    requires InvalidFields(p) == [] && MissingFields(p) == [] && catalog != [] && Readable(p)
    requires c.analyze(p).Some? && c.summarize(p).Some?
    requires forall a :: c.identify(p, a).Some?
    requires forall a, bs :: c.matchAll(p, a, bs, catalog).Some?
    requires forall bs, ms :: c.conclude(p, bs, ms).Some?
    ensures HandleFormSubmission(p, catalog, c).Valid()
  {
  }

  /**
   * A valid result shows what the components produced, except that a blank
   * summary or an empty list of blindspots is replaced by its fallback.
   */
  lemma ValidShowsGenerated(p: StudentProfile, catalog: seq<Opportunity>, c: Components)
    requires HandleFormSubmission(p, catalog, c).Valid()
    ensures c.analyze(p).Some? && c.summarize(p).Some?
    ensures var r := HandleFormSubmission(p, catalog, c);
            var generated := c.summarize(p).value;
            r.profile_summary == if IsBlank(generated) then FallbackSummary(p).value else generated
    ensures var r := HandleFormSubmission(p, catalog, c);
            var identified := c.identify(p, c.analyze(p).value);
            identified.Some?
            && r.blindspots == if identified.value == [] then FallbackBlindspots else identified.value
  {
  }

  /** When the generated summary is blank, a valid result shows the fallback, which names the student. */
  lemma BlankSummaryFallsBack(p: StudentProfile, catalog: seq<Opportunity>, c: Components)
    requires HandleFormSubmission(p, catalog, c).Valid()
    requires c.summarize(p).Some? && IsBlank(c.summarize(p).value)
    ensures Readable(p)
    ensures HandleFormSubmission(p, catalog, c).profile_summary == FallbackSummary(p).value
    ensures Contains(HandleFormSubmission(p, catalog, c).profile_summary, p.name)
  {
    FallbackSummaryShape(p);
  }

  /** Every valid result has a summary that is not blank. */
  lemma SummaryNeverBlankWhenValid(p: StudentProfile, catalog: seq<Opportunity>, c: Components)
    requires HandleFormSubmission(p, catalog, c).Valid()
    ensures !IsBlank(HandleFormSubmission(p, catalog, c).profile_summary)
  {
    if IsBlank(c.summarize(p).value) {
      FallbackSummaryShape(p);
    }
  }

  /**
   * Without matches the result is valid, holds no matches and carries the
   * no-matches message, which names the student.
   */
  lemma NoMatchesOutcome(p: StudentProfile, catalog: seq<Opportunity>, c: Components)
    requires HandleFormSubmission(p, catalog, c).NoMatches?
    ensures HandleFormSubmission(p, catalog, c).Valid()
    ensures var a := c.analyze(p).value;
            var r := HandleFormSubmission(p, catalog, c);
            c.matchAll(p, a, r.blindspots, catalog) == Some([])
    ensures HandleFormSubmission(p, catalog, c).final_insight == NoMatchesInsight(p)
    ensures Contains(HandleFormSubmission(p, catalog, c).final_insight, p.name)
  {
    NoMatchesInsightNamesStudent(p);
  }

  /** With matches the insight is the generated one, or the fixed fallback when that is blank. */
  lemma RecommendationsOutcome(p: StudentProfile, catalog: seq<Opportunity>, c: Components)
    requires HandleFormSubmission(p, catalog, c).Recommendations?
    ensures var a := c.analyze(p).value;
            var r := HandleFormSubmission(p, catalog, c);
            var generated := c.conclude(p, r.blindspots, r.matches);
            c.matchAll(p, a, r.blindspots, catalog) == Some(r.matches)
            && r.matches != [] && generated.Some?
            && r.final_insight == (if IsBlank(generated.value) then FallbackInsight else generated.value)
  {
  }

  /** Every valid result has a final insight that is not blank. */
  lemma InsightNeverBlankWhenValid(p: StudentProfile, catalog: seq<Opportunity>, c: Components)
    requires HandleFormSubmission(p, catalog, c).Valid()
    ensures !IsBlank(HandleFormSubmission(p, catalog, c).final_insight)
  {
    var r := HandleFormSubmission(p, catalog, c);
    if r.NoMatches? {
      NoMatchesOutcome(p, catalog, c);
      NoMatchesInsightNamesStudent(p);
      OpeningNotBlank(r.final_insight, "Hi " + p.name);
    } else {
      RecommendationsOutcome(p, catalog, c);
      FallbackInsightNotBlank();
    }
  }

  // ----------------------------------------------- with the application's components

  /** The generated summary is never blank. */
  lemma SummaryNeverBlank(p: StudentProfile)
    requires Readable(p)
    ensures !IsBlank(ExplanationGenerator.ProfileSummary(p))
  {
    ExplanationGenerator.SummaryShape(p);
    OpeningNotBlank(ExplanationGenerator.ProfileSummary(p), ExplanationGenerator.Greeting(p));
  }

  /** The generated insight is never blank. */
  lemma InsightNeverBlank(p: StudentProfile, bs: seq<Blindspot>, ms: seq<OpportunityMatch>)
    ensures !IsBlank(ExplanationGenerator.FinalInsight(p, bs, ms))
  {
    ExplanationGenerator.InsightShape(p, bs, ms);
    ExplanationGenerator.OpeningStartsWithLetter();
    OpeningNotBlank(ExplanationGenerator.FinalInsight(p, bs, ms), ExplanationGenerator.Opening);
  }

  /**
   * With the application's components the generic error never occurs: a
   * submission passing both checks against a non-empty knowledge base is
   * valid.
   */
  lemma RealComponentsNeverFail(p: StudentProfile, catalog: seq<Opportunity>)
    requires InvalidFields(p) == [] && MissingFields(p) == [] && catalog != []
    ensures Readable(p)
    ensures HandleFormSubmission(p, catalog, Real).Valid()
  {
    NothingMissingIffFilled(p);
    ValidWhenNothingRaises(p, catalog, Real);
  }

  /**
   * With the application's components a valid result shows the generated
   * summary and three to five identified blindspots, not the fallbacks.
   */
  lemma RealStagesShown(p: StudentProfile, catalog: seq<Opportunity>)
    requires HandleFormSubmission(p, catalog, Real).Valid()
    ensures Readable(p)
    ensures HandleFormSubmission(p, catalog, Real).profile_summary == ExplanationGenerator.ProfileSummary(p)
    ensures HandleFormSubmission(p, catalog, Real).blindspots
            == BlindspotIdentifier.Blindspots(p, ProfileAnalyzer.Analysis(p))
    ensures 3 <= |HandleFormSubmission(p, catalog, Real).blindspots| <= 5
  {
    ValidShowsGenerated(p, catalog, Real);
    SummaryNeverBlank(p);
    BlindspotIdentifier.BlindspotsShape(p, ProfileAnalyzer.Analysis(p));
  }

  /** With the application's components, recommendations close with the generated insight. */
  lemma RealInsightUsed(p: StudentProfile, catalog: seq<Opportunity>)
    requires HandleFormSubmission(p, catalog, Real).Recommendations?
    ensures var r := HandleFormSubmission(p, catalog, Real);
            r.final_insight == ExplanationGenerator.FinalInsight(p, r.blindspots, r.matches)
  {
    var r := HandleFormSubmission(p, catalog, Real);
    RecommendationsOutcome(p, catalog, Real);
    InsightNeverBlank(p, r.blindspots, r.matches);
  }

  /**
   * With the application's components and catalog, every submission that
   * passes both checks ends in two or three recommendations.
   */
  lemma CatalogAlwaysRecommends(p: StudentProfile)
    requires InvalidFields(p) == [] && MissingFields(p) == []
    ensures HandleFormSubmission(p, KnowledgeBase.Catalog, Real).Recommendations?
    ensures 2 <= |HandleFormSubmission(p, KnowledgeBase.Catalog, Real).matches| <= 3
  {
    RealComponentsNeverFail(p, KnowledgeBase.Catalog);
    RealStagesShown(p, KnowledgeBase.Catalog);
    var a := ProfileAnalyzer.Analysis(p);
    OpportunityMatcher.CatalogGivesTwoOrThree(p, a, BlindspotIdentifier.Blindspots(p, a));
  }
}
