/**
 * `ExplanationGenerator`: the bullet-point profile summary shown before the
 * recommendations and the closing insight shown after them.
 */
module ExplanationGenerator {
  import opened Wrappers
  import opened Text
  import opened Models
  import ProfileAnalyzer

  // ------------------------------------------------------------ profile summary

  /** The display values of the goals, in input order. */
  function GoalValues(goals: seq<OpportunityGoal>): (r: seq<string>)
    ensures |r| == |goals|
    ensures forall i :: 0 <= i < |goals| ==> r[i] == goals[i].Value()
  {
    seq(|goals|, i requires 0 <= i < |goals| => goals[i].Value())
  }

  /** `str(n)` for an optional year: Python formats a missing one as "None". */
  function YearText(year: Option<int>): string {
    if year.Some? then IntToString(year.value) else "None"
  }

  function Greeting(p: StudentProfile): string {
    "Hi " + p.name + "! I've understood your profile:\n\n"
  }
  /** The greeting names the student and opens with a letter. */
  lemma GreetingNamesStudent(p: StudentProfile)
    ensures Contains(Greeting(p), p.name)
    ensures Greeting(p) != [] && !Text.IsSpace(Greeting(p)[0])
  {
    ContainsPiece("Hi ", p.name, "! I've understood your profile:\n\n");
  }


  function YearBullet(p: StudentProfile): string
    requires p.education_level.Some?
  {
    "• You're a " + YearText(p.year_of_study) + "-year " + p.education_level.value.Value() + " student\n"
  }

  function StudyBullet(p: StudentProfile): string {
    "• Studying " + p.degree + " in " + p.field_of_study + "\n"
  }

  function InstitutionBullet(p: StudentProfile): string
    requires p.institution_type.Some?
  {
    "• At a " + p.institution_type.value.Value() + " institution\n"
  }

  function BackgroundBullet(bg: seq<BackgroundIndicator>): string {
    "• Background: " + Join(ProfileAnalyzer.BackgroundValues(bg), ", ") + "\n"
  }

  function GoalsBullet(goals: seq<OpportunityGoal>): string {
    "• Looking for: " + Join(GoalValues(goals), ", ") + "\n"
  }

  /** The bullet lines of the summary; the background line only for a non-empty background. */
  function SummaryBullets(p: StudentProfile): seq<string>
    requires p.education_level.Some? && p.institution_type.Some?
  {
    [YearBullet(p), StudyBullet(p), InstitutionBullet(p)]
    + (if |p.background_indicators| > 0 then [BackgroundBullet(p.background_indicators)] else [])
    + [GoalsBullet(p.opportunity_goals)]
  }

  /** `generate_profile_summary`: the greeting followed by the bullet lines. */
  function ProfileSummary(p: StudentProfile): string
    requires p.education_level.Some? && p.institution_type.Some?
  {
    Greeting(p) + Join(SummaryBullets(p), "")
  }

  /**
   * The summary opens with the greeting; it has four bullet lines, five when
   * the background is non-empty, each opening with "• " and closing with a
   * line break; the background line is there exactly when the background is
   * non-empty.
   */
  lemma SummaryShape(p: StudentProfile)
    requires p.education_level.Some? && p.institution_type.Some?
    ensures StartsWith(ProfileSummary(p), Greeting(p))
    ensures |SummaryBullets(p)| == if |p.background_indicators| > 0 then 5 else 4
    ensures forall k :: 0 <= k < |SummaryBullets(p)| ==>
              StartsWith(SummaryBullets(p)[k], "• ") && EndsWith(SummaryBullets(p)[k], "\n")
    ensures BackgroundBullet(p.background_indicators) in SummaryBullets(p) <==> |p.background_indicators| > 0
  {
    StartsWithPrefix(Greeting(p), Join(SummaryBullets(p), ""));
    var b := SummaryBullets(p);
    forall k | 0 <= k < |b| ensures StartsWith(b[k], "• ") && EndsWith(b[k], "\n") {
      BulletFrame(p, k);
    }
    if |p.background_indicators| == 0 {
      BackgroundBulletDiffers(p);
    }
  }

  /** Each bullet opens with "• " and closes with a line break. */
  lemma BulletFrame(p: StudentProfile, k: nat)
    requires p.education_level.Some? && p.institution_type.Some?
    requires k < |SummaryBullets(p)|
    ensures StartsWith(SummaryBullets(p)[k], "• ") && EndsWith(SummaryBullets(p)[k], "\n")
  {
    var line := SummaryBullets(p)[k];
    assert line[..2] == "• ";
    EndsWithSuffix(line[..|line| - 1], "\n");
    assert line == line[..|line| - 1] + "\n";
  }

  /** The background line differs from the four lines that are always there. */
  lemma BackgroundBulletDiffers(p: StudentProfile)
    requires p.education_level.Some? && p.institution_type.Some?
    ensures BackgroundBullet(p.background_indicators) != YearBullet(p)
    ensures BackgroundBullet(p.background_indicators) != StudyBullet(p)
    ensures BackgroundBullet(p.background_indicators) != InstitutionBullet(p)
    ensures BackgroundBullet(p.background_indicators) != GoalsBullet(p.opportunity_goals)
  {
    assert BackgroundBullet(p.background_indicators)[2] == 'B';
    assert YearBullet(p)[2] == 'Y';
    assert StudyBullet(p)[2] == 'S';
    assert InstitutionBullet(p)[2] == 'A';
    assert GoalsBullet(p.opportunity_goals)[2] == 'L';
  }

  /** Whatever a bullet line holds, the summary holds. */
  lemma SummaryContainsBullet(p: StudentProfile, k: nat, t: string)
    requires p.education_level.Some? && p.institution_type.Some?
    requires k < |SummaryBullets(p)| && Contains(SummaryBullets(p)[k], t)
    ensures Contains(ProfileSummary(p), t)
  {
    JoinContainsPart(SummaryBullets(p), "", k);
    ContainsTransitive(Join(SummaryBullets(p), ""), SummaryBullets(p)[k], t);
    ContainsWithin(Greeting(p), Join(SummaryBullets(p), ""), "", t);
    assert Greeting(p) + Join(SummaryBullets(p), "") + "" == ProfileSummary(p);
  }

  /** The summary names the student and states education, degree, field and institution. */
  lemma SummaryMentionsProfile(p: StudentProfile)
    requires p.education_level.Some? && p.institution_type.Some?
    ensures Contains(ProfileSummary(p), p.name)
    ensures Contains(ProfileSummary(p), p.education_level.value.Value())
    ensures Contains(ProfileSummary(p), p.degree)
    ensures Contains(ProfileSummary(p), p.field_of_study)
    ensures Contains(ProfileSummary(p), p.institution_type.value.Value())
  {
    var b := SummaryBullets(p);
    ContainsPiece("Hi ", p.name, "! I've understood your profile:\n\n" + Join(b, ""));
    assert "Hi " + p.name + ("! I've understood your profile:\n\n" + Join(b, "")) == ProfileSummary(p);
    ContainsPiece("• You're a " + YearText(p.year_of_study) + "-year ", p.education_level.value.Value(), " student\n");
    SummaryContainsBullet(p, 0, p.education_level.value.Value());
    ContainsPiece("• Studying ", p.degree, " in " + p.field_of_study + "\n");
    assert "• Studying " + p.degree + (" in " + p.field_of_study + "\n") == b[1];
    SummaryContainsBullet(p, 1, p.degree);
    ContainsPiece("• Studying " + p.degree + " in ", p.field_of_study, "\n");
    SummaryContainsBullet(p, 1, p.field_of_study);
    ContainsPiece("• At a ", p.institution_type.value.Value(), " institution\n");
    SummaryContainsBullet(p, 2, p.institution_type.value.Value());
  }

  /** The summary lists every goal. */
  lemma SummaryMentionsGoals(p: StudentProfile, i: nat)
    requires p.education_level.Some? && p.institution_type.Some?
    requires i < |p.opportunity_goals|
    ensures Contains(ProfileSummary(p), p.opportunity_goals[i].Value())
  {
    var b := SummaryBullets(p);
    var values := GoalValues(p.opportunity_goals);
    JoinContainsPart(values, ", ", i);
    ContainsWithin("• Looking for: ", Join(values, ", "), "\n", values[i]);
    SummaryContainsBullet(p, |b| - 1, values[i]);
  }

  /** The summary lists every background indicator. */
  lemma SummaryMentionsBackground(p: StudentProfile, i: nat)
    requires p.education_level.Some? && p.institution_type.Some?
    requires i < |p.background_indicators|
    ensures Contains(ProfileSummary(p), p.background_indicators[i].Value())
  {
    var values := ProfileAnalyzer.BackgroundValues(p.background_indicators);
    ProfileAnalyzer.BackgroundValuesAt(p.background_indicators);
    JoinContainsPart(values, ", ", i);
    ContainsWithin("• Background: ", Join(values, ", "), "\n", values[i]);
    SummaryContainsBullet(p, 3, values[i]);
  }

  // -------------------------------------------------------------- final insight

  /** The kind of opportunity the insight says the student is missing. */
  datatype Theme = ScholarshipTheme | ResearchTheme | GenericTheme

  /** The blindspot categories, in order. */
  function Categories(bs: seq<Blindspot>): (r: seq<string>)
    ensures |r| == |bs|
    ensures forall i :: 0 <= i < |bs| ==> r[i] == bs[i].category
  {
    seq(|bs|, i requires 0 <= i < |bs| => bs[i].category)
  }

  /** `' '.join(categories).lower()`. */
  function CategoryText(bs: seq<Blindspot>): string {
    Lower(Join(Categories(bs), " "))
  }

  /** The theme test: scholarships first, then research or internships, else generic. */
  function ThemeOf(bs: seq<Blindspot>): Theme {
    var text := CategoryText(bs);
    if Contains(text, "scholarship") then ScholarshipTheme
    else if Contains(text, "research") || Contains(text, "internship") then ResearchTheme
    else GenericTheme
  }

  const ScholarshipClause := "several scholarship opportunities that match your background. "
  const ResearchClause := "opportunities in research, internships, and programs beyond the classroom. "
  const GenericClause := "valuable opportunities that align with your goals and background. "

  function ThemeClause(t: Theme): string {
    match t
    case ScholarshipTheme => ScholarshipClause
    case ResearchTheme => ResearchClause
    case GenericTheme => GenericClause
  }

  const Opening := "Based on your profile, " + "you're likely missing out on "

  /** The opening starts with a letter. */
  lemma OpeningStartsWithLetter()
    ensures Opening != [] && Opening[0] == 'B'
  {
  }

  /** The phrase that names not knowing about an opportunity as the barrier. */
  const Unaware := "not knowing these exist"

  const Barrier := "The main barrier isn't your eligibility—it's simply " + Unaware + ". "

  /** The words each suggestion is recognised by. */
  const Alerts := "alerts"
  const AlreadyEligible := "already eligible"
  const AlreadyQualified := "already qualified"

  /** The suggestion for how often opportunities were missed; a missing answer falls to the last branch. */
  function Suggestion(missed: Option<MissedOpportunityFrequency>): string {
    if missed == Some(YesManyTimes) then
      "Start by exploring the recommendations above, and consider setting up " + Alerts + " for similar programs. "
    else if missed == Some(OnceOrTwice) then
      "Take a moment to explore each recommendation—you're " + AlreadyEligible + "! "
    else
      "Now that you're aware, take action on these opportunities—you're " + AlreadyQualified + "! "
  }

  const Closing := "Awareness is the first step to opportunity."

  /** `generate_final_insight`; the matches are accepted and not used. */
  function FinalInsight(p: StudentProfile, bs: seq<Blindspot>, matches: seq<OpportunityMatch>): string {
    Opening + ThemeClause(ThemeOf(bs)) + Barrier + Suggestion(p.missed_opportunities_before) + Closing
  }

  /** A text built from five parts opens with the first, holds the middle three, and closes with the last. */
  lemma FiveParts(a: string, b: string, c: string, d: string, e: string)
    ensures StartsWith(a + b + c + d + e, a)
    ensures Contains(a + b + c + d + e, b)
    ensures Contains(a + b + c + d + e, c)
    ensures Contains(a + b + c + d + e, d)
    ensures EndsWith(a + b + c + d + e, e)
  {
    StartsWithPrefix(a, b + c + d + e);
    assert a + (b + c + d + e) == a + b + c + d + e;
    ContainsPiece(a, b, c + d + e);
    assert a + b + (c + d + e) == a + b + c + d + e;
    ContainsPiece(a + b, c, d + e);
    assert a + b + c + (d + e) == a + b + c + d + e;
    ContainsPiece(a + b + c, d, e);
    EndsWithSuffix(a + b + c + d, e);
  }

  /**
   * The insight opens with the fixed opening, names not knowing about the
   * opportunities as the barrier, carries the theme clause and the
   * suggestion, and ends with the closing sentence.
   */
  lemma InsightShape(p: StudentProfile, bs: seq<Blindspot>, matches: seq<OpportunityMatch>)
    ensures StartsWith(FinalInsight(p, bs, matches), Opening)
    ensures Contains(FinalInsight(p, bs, matches), ThemeClause(ThemeOf(bs)))
    ensures Contains(FinalInsight(p, bs, matches), Unaware)
    ensures Contains(FinalInsight(p, bs, matches), Suggestion(p.missed_opportunities_before))
    ensures EndsWith(FinalInsight(p, bs, matches), Closing)
  {
    FiveParts(Opening, ThemeClause(ThemeOf(bs)), Barrier, Suggestion(p.missed_opportunities_before), Closing);
    BarrierNamesUnaware();
    ContainsTransitive(FinalInsight(p, bs, matches), Barrier, Unaware);
  }

  /** The four sentences of the insight: theme, barrier, suggestion and closing. */
  function InsightSentences(p: StudentProfile, bs: seq<Blindspot>): (r: seq<string>)
    ensures |r| == 4
  {
    [Opening + ThemeClause(ThemeOf(bs)), Barrier, Suggestion(p.missed_opportunities_before), Closing]
  }

  /** Every theme clause and the closing end a sentence with a full stop. */
  lemma ClausesEnd()
    ensures EndsWith(ScholarshipClause, ". ")
    ensures EndsWith(ResearchClause, ". ")
    ensures EndsWith(GenericClause, ". ")
    ensures EndsWith(Closing, ".")
  {
  }

  /** The suggestion ends in ". " for "many times", and in "! " otherwise. */
  lemma SuggestionEnds(missed: Option<MissedOpportunityFrequency>)
    ensures EndsWith(Suggestion(missed), ". ") <==> missed == Some(YesManyTimes)
    ensures EndsWith(Suggestion(missed), "! ") <==> missed != Some(YesManyTimes)
  {
    if missed == Some(YesManyTimes) {
      AlertsSuggestionEnds();
      EndsWithOther(Suggestion(missed), ". ", "! ");
    } else {
      ExclaimedSuggestionEnds(missed);
      EndsWithOther(Suggestion(missed), "! ", ". ");
    }
  }

  lemma AlertsSuggestionEnds()
    ensures EndsWith(Suggestion(Some(YesManyTimes)), ". ")
  {
    var before := "Start by exploring the recommendations above, and consider setting up " + Alerts;
    EndsWithSuffix(before, " for similar programs. ");
    assert EndsWith(" for similar programs. ", ". ");
    EndsWithTransitive(before + " for similar programs. ", " for similar programs. ", ". ");
  }

  lemma ExclaimedSuggestionEnds(missed: Option<MissedOpportunityFrequency>)
    requires missed != Some(YesManyTimes)
    ensures EndsWith(Suggestion(missed), "! ")
  {
    if missed == Some(OnceOrTwice) {
      EndsWithSuffix("Take a moment to explore each recommendation—you're " + AlreadyEligible, "! ");
    } else {
      EndsWithSuffix("Now that you're aware, take action on these opportunities—you're " + AlreadyQualified, "! ");
    }
  }

  /** The opening and theme clause make one sentence, ending in ". ". */
  lemma ThemeSentenceEnds(t: Theme)
    ensures EndsWith(Opening + ThemeClause(t), ". ")
  {
    ClausesEnd();
    EndsWithSuffix(Opening, ThemeClause(t));
    EndsWithTransitive(Opening + ThemeClause(t), ThemeClause(t), ". ");
  }

  /** Four texts joined with no separator are the four run together. */
  lemma JoinFour(a: string, b: string, c: string, d: string)
    ensures Join([a, b, c, d], "") == a + b + c + d
  {
    assert [c, d][1..] == [d];
    assert Join([c, d], "") == c + d;
    assert [b, c, d][1..] == [c, d];
    assert Join([b, c, d], "") == b + (c + d);
    assert [a, b, c, d][1..] == [b, c, d];
  }

  /**
   * The insight is its four sentences run together. The theme and barrier
   * sentences and the closing end in a full stop; the suggestion ends in
   * one only when opportunities were missed many times, and in "!"
   * otherwise, so the insight has four full stops or three.
   */
  lemma InsightFourSentences(p: StudentProfile, bs: seq<Blindspot>, matches: seq<OpportunityMatch>)
    ensures FinalInsight(p, bs, matches) == Join(InsightSentences(p, bs), "")
    ensures EndsWith(InsightSentences(p, bs)[0], ". ") && EndsWith(InsightSentences(p, bs)[1], ". ")
    ensures EndsWith(InsightSentences(p, bs)[2], ". ") <==> p.missed_opportunities_before == Some(YesManyTimes)
    ensures EndsWith(InsightSentences(p, bs)[2], "! ") <==> p.missed_opportunities_before != Some(YesManyTimes)
    ensures EndsWith(InsightSentences(p, bs)[3], ".")
  {
    var t := ThemeOf(bs);
    JoinFour(Opening + ThemeClause(t), Barrier, Suggestion(p.missed_opportunities_before), Closing);
    ThemeSentenceEnds(t);
    EndsWithSuffix("The main barrier isn't your eligibility—it's simply " + Unaware, ". ");
    SuggestionEnds(p.missed_opportunities_before);
    ClausesEnd();
  }

  /**
   * The suggestion follows the missed-opportunity answer: alerts for
   * "many times", "already eligible" for "once or twice", "already
   * qualified" otherwise.
   */
  lemma SuggestionByFrequency(missed: Option<MissedOpportunityFrequency>)
    ensures missed == Some(YesManyTimes) ==> Contains(Suggestion(missed), Alerts)
    ensures missed == Some(OnceOrTwice) ==> Contains(Suggestion(missed), AlreadyEligible)
    ensures missed != Some(YesManyTimes) && missed != Some(OnceOrTwice) ==>
              Contains(Suggestion(missed), AlreadyQualified)
  {
    if missed == Some(YesManyTimes) {
      SuggestionAlerts();
    } else if missed == Some(OnceOrTwice) {
      SuggestionEligible();
    } else {
      SuggestionQualified(missed);
    }
  }

  /** The barrier sentence names not knowing about the opportunities. */
  lemma BarrierNamesUnaware()
    ensures Contains(Barrier, Unaware)
  {
    ContainsPiece("The main barrier isn't your eligibility—it's simply ", Unaware, ". ");
  }

  lemma SuggestionAlerts()
    ensures Contains(Suggestion(Some(YesManyTimes)), Alerts)
  {
    ContainsPiece("Start by exploring the recommendations above, and consider setting up ", Alerts, " for similar programs. ");
  }

  lemma SuggestionEligible()
    ensures Contains(Suggestion(Some(OnceOrTwice)), AlreadyEligible)
  {
    ContainsPiece("Take a moment to explore each recommendation—you're ", AlreadyEligible, "! ");
  }

  lemma SuggestionQualified(missed: Option<MissedOpportunityFrequency>)
    requires missed != Some(YesManyTimes) && missed != Some(OnceOrTwice)
    ensures Contains(Suggestion(missed), AlreadyQualified)
  {
    ContainsPiece("Now that you're aware, take action on these opportunities—you're ", AlreadyQualified, "! ");
  }

  /**
   * The insight depends on nothing but the theme of the blindspots and the
   * missed-opportunity answer: not on the matches, not on any other field.
   */
  lemma InsightDependsOnThemeAndFrequency(p1: StudentProfile, bs1: seq<Blindspot>, ms1: seq<OpportunityMatch>,
                                          p2: StudentProfile, bs2: seq<Blindspot>, ms2: seq<OpportunityMatch>)
    requires ThemeOf(bs1) == ThemeOf(bs2)
    requires p1.missed_opportunities_before == p2.missed_opportunities_before
    ensures FinalInsight(p1, bs1, ms1) == FinalInsight(p2, bs2, ms2)
  {
  }

  /** A blindspot whose category mentions scholarships, in any case, makes the theme scholarships. */
  lemma ScholarshipCategoryWins(bs: seq<Blindspot>, i: nat)
    requires i < |bs| && Contains(Lower(bs[i].category), "scholarship")
    ensures ThemeOf(bs) == ScholarshipTheme
  {
    CategoryTextHolds(bs, i, "scholarship");
  }

  /**
   * Without a scholarship mention, a blindspot whose category mentions
   * research or internships makes the theme research.
   */
  lemma ResearchCategoryNext(bs: seq<Blindspot>, i: nat)
    requires i < |bs|
    requires Contains(Lower(bs[i].category), "research") || Contains(Lower(bs[i].category), "internship")
    requires !Contains(CategoryText(bs), "scholarship")
    ensures ThemeOf(bs) == ResearchTheme
  {
    if Contains(Lower(bs[i].category), "research") {
      CategoryTextHolds(bs, i, "research");
    } else {
      CategoryTextHolds(bs, i, "internship");
    }
  }

  /** What a lower-cased category contains, the lower-cased category text contains. */
  lemma CategoryTextHolds(bs: seq<Blindspot>, i: nat, w: string)
    requires i < |bs| && Contains(Lower(bs[i].category), w)
    ensures Contains(CategoryText(bs), w)
  {
    var cats := Categories(bs);
    JoinContainsPart(cats, " ", i);
    LowerKeepsContains(Join(cats, " "), cats[i]);
    ContainsTransitive(CategoryText(bs), Lower(cats[i]), w);
  }
}
