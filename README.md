# Saarthi-AI recommender core in Dafny

This project models the decision logic of Saarthi-AI, a rule-based recommender that
tells a student which opportunities (scholarships, internships, research and skill
programmes) they are likely to be missing. It covers the steps between a submitted
profile and the screens the application shows:

- **Validation.** Required fields are checked (`StudentProfile.validate`), and age and
  year are range-checked (`_validate_field_values`).
- **Profile analysis.** Characteristics, eligibility tags, awareness level and goals.
- **Blindspot identification.** Twelve ordered rules, the "top up to three" fallbacks,
  the stable descending sort and the cut to five.
- **Opportunity matching.** The eligibility filter, the miss-probability table, the
  blindspot alignment, the relevance score, the fit and miss-reason texts, the stable
  sort and the cut to three.
- **The static catalog** and its lookup and filter functions.
- **The JSON-record matcher.** An all-criteria eligibility test, a score from 0 to 7,
  and a stable sort of the scored copies.
- **The explanation templates.** The profile summary and the final insight.
- **The orchestrator `handle_form_submission`.** It is a function that returns a
  result datatype: invalid values, missing fields, system error, no matches or
  recommendations. The fallbacks for a blank summary, an empty blindspot list and a
  blank insight are part of it.
- **The three mapping helpers of `app.py`.** The year label, field normalisation and
  primary background.

## How it is modelled

- One module per source file. `Wrappers` holds `Option`.
- `Text` holds ASCII `lower`, `strip`, substring `in`, `startswith`/`endswith`,
  `join` and `str(int)`.
- `StableSort` holds the stable descending insertion sort. It stands in for the three
  `list.sort(key=..., reverse=True)` calls.
- **Imperative code becomes methods.** Code that builds lists with `append` or
  accumulates a score in a loop is a method with loop invariants. Each such method
  `ensures` that its result equals a specification function. The properties are lemmas
  about those functions.
- **Pure branching and templates become functions.**
- **Scores are `real`.** They are exact rationals, not floats.
- **Python `None` becomes `Option`.** This covers the nullable enum fields, age and
  year of a profile. A name, degree or field of `None` is the empty string, which
  `validate` treats the same way.
- **Pipeline components are parameters.** The orchestrator takes the catalog and a
  record of its five components (`Components`). Each component returns `None` where
  the Python call would raise, and the `except` branch turns that into the generic
  error. `Real` is the record of the modelled components.
- **JSON records** are `map<string, JValue>`. This keeps `dict.get(k, 'Any')` distinct
  from `dict.get(k)`.

Where the code and the tests disagree, the model follows the code:

- An empty background-indicator list never makes a profile invalid
  (`saarthi_ai/models.py:126`), although five test assertions expect
  `background_indicators` among the missing fields: `tests/test_integration_e2e.py:250`,
  `tests/test_error_handling.py:43`, `tests/test_application_controller.py:119`,
  `tests/test_form_ui.py:406` and `tests/test_form_ui.py:702`.
- Age 0 or year 0 is not flagged by `_validate_field_values`. Only negative values and
  values above 150 (age) or 10 (year) are flagged. The zero is then reported as missing
  by `validate`.

`_normalize_field_of_study` maps "Computer Science" to "Science": the science terms
are tested before the computing terms. `AppHelpers.ComputerScienceIsScience` states
this.

## Model

| member | source | states |
|---|---|---|
| Text.BlankIffStripEmpty | saarthi_ai/models.py:105 | `not s or not s.strip()` holds exactly for empty or white-space-only text |
| Text.StripLower | app.py:184 | lower-casing then stripping equals stripping then lower-casing |
| Models.Validate | saarthi_ai/models.py:95-134 | the returned list is the missing-field list of the nine checks in order, and `ok` holds exactly when it is empty |
| Models.MissingUpToExact | saarthi_ai/models.py:102-132 | after the first k checks the list holds exactly the failing fields among those k |
| Models.MissingFieldsExact | saarthi_ai/models.py:105-132 | a field is reported iff its check fails: blank name, degree or field; age or year absent or not positive; an absent enum; empty goals |
| Models.RankedMissingFields | saarthi_ai/models.py:102-132 | reported fields are pairwise distinct and appear in the order the checks run |
| Models.BackgroundNeverMissing | saarthi_ai/models.py:126 | replacing the background indicators (even by none) never changes the missing list |
| Models.NothingMissingIffFilled | saarthi_ai/models.py:102-134 | nothing is missing iff the text fields are non-blank, age and year positive, goals non-empty and every enum present |
| ProfileAnalyzer.BackgroundValuesAt | saarthi_ai/profile_analyzer.py:58-59 | the value list has one entry per indicator, the i-th being the i-th indicator's value |
| ProfileAnalyzer.ExtractEligibilityTags | saarthi_ai/profile_analyzer.py:54-61 | the loop yields the background values in input order, duplicates kept |
| ProfileAnalyzer.ExtractCharacteristics | saarthi_ai/profile_analyzer.py:39-52 | the loop yields education value, field and institution value followed by the background values |
| ProfileAnalyzer.AwarenessMonotone | saarthi_ai/profile_analyzer.py:63-81 | the mapping reverses the order of miss frequency and is one-to-one, which fixes it to many→Low, once or twice→Medium, no→High |
| ProfileAnalyzer.AwarenessCases | saarthi_ai/profile_analyzer.py:63-81 | many misses give Low, once or twice Medium and no High; a missing answer (`None`) falls to the last branch and gives High |
| ProfileAnalyzer.Analyze | saarthi_ai/profile_analyzer.py:16-37 | the analysis is built for every profile with both enums present, with no failure branch |
| ProfileAnalyzer.AnalysisShape | saarthi_ai/profile_analyzer.py:16-61 | characteristics have three entries more than there are background indicators, start with the three profile values and end with the tags; the tags are the background values in order; the goals are the profile's goals |
| ProfileAnalyzer.TagsMembership | saarthi_ai/profile_analyzer.py:54-61 | a tag is present iff some background indicator has that value |
| StableSort.Insert | saarthi_ai/blindspot_identifier.py:144 | one insertion step adds exactly the new element |
| StableSort.SortDesc | saarthi_ai/blindspot_identifier.py:144 | the sort is a permutation of its input |
| StableSort.InsertKeepsSorted | saarthi_ai/blindspot_identifier.py:144 | inserting into a non-increasing list keeps it non-increasing |
| StableSort.SortDescSorted | saarthi_ai/blindspot_identifier.py:144 | the sorted list is non-increasing in its key |
| StableSort.SortDescStable | saarthi_ai/opportunity_matcher.py:72 | for every key value, the elements with that key keep their input order |
| StableSort.SortDescKeepsDistinct | saarthi_ai/blindspot_identifier.py:144 | sorting keeps a list free of duplicate categories |
| BlindspotIdentifier.StemFieldIgnoresCase | saarthi_ai/blindspot_identifier.py:158-161 | the STEM test gives the same answer on the lower-cased field |
| BlindspotIdentifier.StemFieldWithin | saarthi_ai/blindspot_identifier.py:18-23 | any field text containing one of the STEM names is a STEM field |
| BlindspotIdentifier.SpecialCategoryIgnoresCase | saarthi_ai/blindspot_identifier.py:163-177 | the special-category test ignores the case of the gender |
| BlindspotIdentifier.InnovationKeywordsFound | saarthi_ai/blindspot_identifier.py:179-186 | no or empty context never mentions innovation; any context containing a keyword does |
| BlindspotIdentifier.ProfileRules | saarthi_ai/blindspot_identifier.py:40-75 | the appends of rules 1-4 give the records those rules collect |
| BlindspotIdentifier.GoalRules | saarthi_ai/blindspot_identifier.py:77-108 | the appends of rules 5-8 extend that to the records rules 1-8 collect |
| BlindspotIdentifier.TopUp | saarthi_ai/blindspot_identifier.py:110-141 | the fallback rules 9-12 extend it to the records all twelve rules collect |
| BlindspotIdentifier.IdentifyBlindspots | saarthi_ai/blindspot_identifier.py:25-152 | the result is the first five of the stable descending sort of the collected records |
| BlindspotIdentifier.CategoriesDistinct | saarthi_ai/blindspot_identifier.py:43-141 | the twelve rule records have pairwise distinct categories |
| BlindspotIdentifier.RuleRecordWellFormed | saarthi_ai/blindspot_identifier.py:43-141 | every rule record has a category, a reason and a score in (0, 1], below 0.9 except the income record |
| BlindspotIdentifier.CollectedFacts | saarthi_ai/blindspot_identifier.py:43-141 | after k rules there are at most k records, all well formed, with distinct categories none of which a later rule uses |
| BlindspotIdentifier.RecordPresent | saarthi_ai/blindspot_identifier.py:43-141 | rule j's record is collected iff rule j has run and its condition held on the count collected before it |
| BlindspotIdentifier.CollectedSize | saarthi_ai/blindspot_identifier.py:110-141 | the fallbacks bring fewer than three records up to exactly three and leave three or more unchanged |
| BlindspotIdentifier.BlindspotsFromCollected | saarthi_ai/blindspot_identifier.py:143-152 | each reported blindspot is the sorted record at its index and one of the collected records |
| BlindspotIdentifier.ReportShape | saarthi_ai/blindspot_identifier.py:143-152 | for any rule outcome the report has 3 to 5 entries, non-increasing scores and distinct categories |
| BlindspotIdentifier.BlindspotsShape | saarthi_ai/blindspot_identifier.py:143-152 | every profile gets 3 to 5 blindspots, sorted by score, with distinct categories, so the error branch is unreachable |
| BlindspotIdentifier.BlindspotsWellFormed | saarthi_ai/blindspot_identifier.py:43-152 | every reported blindspot has a non-empty category and reason and a score in (0, 1] |
| BlindspotIdentifier.IncomeRecordLeads | saarthi_ai/blindspot_identifier.py:144 | the 0.9 income record is first after sorting whenever it is present |
| BlindspotIdentifier.IncomeScholarshipFirst | saarthi_ai/blindspot_identifier.py:43-49 | the income record is reported iff the tags hold "Financial support" and the goals hold Scholarships, and then it is first |
| BlindspotIdentifier.ResearchRulesExclusive | saarthi_ai/blindspot_identifier.py:51-108 | the STEM research record and the interdisciplinary research record are never both reported |
| BlindspotIdentifier.NoFallbackRecord | saarthi_ai/blindspot_identifier.py:110-141 | when rules 1-8 collect three or more records, no fallback record is collected |
| BlindspotIdentifier.NoFallbackAfterThree | saarthi_ai/blindspot_identifier.py:110-152 | in that case no fallback category is reported |
| OpportunityMatcher.EligibleIffAll | saarthi_ai/opportunity_matcher.py:82-117 | eligibility holds iff the level is listed and each set field, institution and background constraint is met; an empty set list rejects every profile |
| OpportunityMatcher.OpenToAllEligible | saarthi_ai/opportunity_matcher.py:97-117 | an entry open to all levels with no other restriction admits every profile with a level |
| OpportunityMatcher.MissProbabilityMonotone | saarthi_ai/opportunity_matcher.py:119-151 | lower visibility or lower awareness never lowers the miss probability; low visibility is always High, high visibility never High |
| OpportunityMatcher.AlignWithBlindspot | saarthi_ai/opportunity_matcher.py:171-217 | the thirteen tests for one blindspot raise the running maximum as the heuristic table says |
| OpportunityMatcher.CalculateBlindspotAlignment | saarthi_ai/opportunity_matcher.py:153-221 | the loop over blindspots computes the alignment, floored at 0.3 |
| OpportunityMatcher.RaiseUpToRange | saarthi_ai/opportunity_matcher.py:171-217 | raising never lowers the maximum and never exceeds the blindspot's score |
| OpportunityMatcher.AlignmentUpToBounds | saarthi_ai/opportunity_matcher.py:168-217 | the running maximum lies in [0, top blindspot score], is 0 when no test fires, and is at least every firing test's value |
| OpportunityMatcher.AlignmentBounds | saarthi_ai/opportunity_matcher.py:168-221 | the alignment lies in [0.3, max(0.3, top score)], is 0.3 when no test fires, and is at least every firing test's value |
| OpportunityMatcher.CalculateRelevance | saarthi_ai/opportunity_matcher.py:223-275 | the accumulated score equals min(1, 0.4·alignment + impact + visibility + goal weight) |
| OpportunityMatcher.RelevanceBounds | saarthi_ai/opportunity_matcher.py:242-275 | relevance lies in [0.2, 1], never falls as alignment grows, and never falls as visibility lowers |
| OpportunityMatcher.FitClauses | saarthi_ai/opportunity_matcher.py:292-328 | the explanation has one to five clauses |
| OpportunityMatcher.CollectFitClauses | saarthi_ai/opportunity_matcher.py:292-328 | the appends give the education clause, then the field, background, income and merit clauses when they apply |
| OpportunityMatcher.JoinExplanations | saarthi_ai/opportunity_matcher.py:330-336 | the three join branches give the clause text |
| OpportunityMatcher.JoinClausesEnds | saarthi_ai/opportunity_matcher.py:330-336 | the joined text starts with the first clause and ends with "." |
| OpportunityMatcher.JoinClausesMentions | saarthi_ai/opportunity_matcher.py:330-336 | every clause occurs in the joined text |
| OpportunityMatcher.GenerateFitExplanation | saarthi_ai/opportunity_matcher.py:277-336 | the method builds the fit explanation |
| OpportunityMatcher.FitExplanationShape | saarthi_ai/opportunity_matcher.py:294-336 | the explanation starts with the education clause, ends with ".", and includes the field clause and the merit clause when they apply |
| OpportunityMatcher.FirstKeywordFrom | saarthi_ai/opportunity_matcher.py:362-371 | a found keyword index lies in the range searched |
| OpportunityMatcher.FirstKeywordExact | saarthi_ai/opportunity_matcher.py:362-371 | the chosen keyword is the first of AICTE, State, NPTEL, Ministry, Central Sector that the name contains, and none is chosen iff the name contains none |
| OpportunityMatcher.NameReasonFirstMatch | saarthi_ai/opportunity_matcher.py:362-371 | at most one name clause is added, the one for the first matching keyword |
| OpportunityMatcher.MissReasons | saarthi_ai/opportunity_matcher.py:353-375 | there are at most three reasons |
| OpportunityMatcher.MissReasonFrame | saarthi_ai/opportunity_matcher.py:377-383 | every miss-reason text starts with "Students" and ends with "." |
| OpportunityMatcher.MissReasonMentions | saarthi_ai/opportunity_matcher.py:377-383 | every reason occurs in the text |
| OpportunityMatcher.GenerateMissReason | saarthi_ai/opportunity_matcher.py:338-383 | the method builds the miss-reason text |
| OpportunityMatcher.MissReasonShape | saarthi_ai/opportunity_matcher.py:353-383 | the miss reason of an opportunity starts with "Students", ends with "." and contains each of its reasons |
| OpportunityMatcher.BuildMatch | saarthi_ai/opportunity_matcher.py:48-69 | the match built for an eligible entry carries its alignment-based relevance and both texts |
| OpportunityMatcher.CollectEligible | saarthi_ai/opportunity_matcher.py:40-69 | the loop yields one match per eligible entry, in catalog order |
| OpportunityMatcher.MatchOpportunities | saarthi_ai/opportunity_matcher.py:22-80 | the method returns the top three of the stable ranking of those matches |
| OpportunityMatcher.TopThreeShape | saarthi_ai/opportunity_matcher.py:74-80 | both branches return the first min(3, n) entries, keep sortedness and add nothing |
| OpportunityMatcher.EligibleMatchesCount | saarthi_ai/opportunity_matcher.py:43-69 | there are as many matches as eligible catalog entries |
| OpportunityMatcher.EligibleMatchesSound | saarthi_ai/opportunity_matcher.py:43-69 | every match is for an eligible catalog entry and has relevance in [0.2, 1] |
| OpportunityMatcher.EligibleMatchesComplete | saarthi_ai/opportunity_matcher.py:43-69 | every eligible catalog entry has a match |
| OpportunityMatcher.MatchesShape | saarthi_ai/opportunity_matcher.py:22-80 | the result has min(3, eligible count) entries, is a prefix of the ranking, is sorted by relevance, and holds only eligible catalog entries |
| OpportunityMatcher.RankingStable | saarthi_ai/opportunity_matcher.py:71-72 | matches with equal relevance keep catalog order |
| OpportunityMatcher.CatalogGivesTwoOrThree | saarthi_ai/opportunity_matcher.py:74-80 | against the real catalog every profile with a level gets 2 or 3 matches |
| KnowledgeBase.FirstWithId | saarthi_ai/knowledge_base.py:135-148 | a result is the first entry with that id, and there is none iff no entry has it |
| KnowledgeBase.Filter | saarthi_ai/knowledge_base.py:151-177 | the filter keeps exactly the entries satisfying the predicate |
| KnowledgeBase.FilterConcat | saarthi_ai/knowledge_base.py:151-177 | filtering distributes over concatenation, so it preserves order |
| KnowledgeBase.OpportunitiesByCategory | saarthi_ai/knowledge_base.py:151-161 | an entry is returned iff it is in the catalog with that category |
| KnowledgeBase.OpportunitiesByEducationLevel | saarthi_ai/knowledge_base.py:164-177 | an entry is returned iff it is in the catalog and lists that level |
| KnowledgeBase.CatalogWellFormed | saarthi_ai/knowledge_base.py:15-122 | every entry lists a level, and ids are pairwise distinct |
| KnowledgeBase.EveryEntryFoundById | saarthi_ai/knowledge_base.py:135-148 | looking up any entry's id returns that entry |
| KnowledgeBase.TwoEntriesOpenToAll | saarthi_ai/knowledge_base.py:81-121 | the catalog has six entries, and the state merit scholarship and the ministry programme are open to every level |
| JsonMatcher.EligibleIffAllAdmit | saarthi_ai/json_matcher.py:39-83 | eligibility holds iff each of the five criteria is absent, "Any", or equal to the student's value |
| JsonMatcher.UnrestrictedAdmitsAll | saarthi_ai/json_matcher.py:58-83 | an opportunity with every criterion "Any" admits every student |
| JsonMatcher.CalculateScore | saarthi_ai/json_matcher.py:85-137 | the accumulated score is the sum of the seven points |
| JsonMatcher.ScoreUpToBound | saarthi_ai/json_matcher.py:107-137 | after j tests the score is at most j |
| JsonMatcher.ScoreRange | saarthi_ai/json_matcher.py:107-137 | the score lies in [0, 7] |
| JsonMatcher.ExactPointsCountRestrictions | saarthi_ai/json_matcher.py:107-128 | for an eligible opportunity each exact-match point is earned iff that criterion is restricted |
| JsonMatcher.EligibleScore | saarthi_ai/json_matcher.py:58-137 | for an eligible opportunity the score is the number of non-"Any" criteria plus the low-awareness and high-miss boosts |
| JsonMatcher.WithScoreCopies | saarthi_ai/json_matcher.py:162-164 | the copy keeps every original key and value and adds `matching_score` equal to the score |
| JsonMatcher.MatchOpportunities | saarthi_ai/json_matcher.py:139-170 | the loop and sort give the stable ranking of the scored eligible copies |
| JsonMatcher.ScoredCount | saarthi_ai/json_matcher.py:157-165 | there are as many scored copies as eligible inputs, at most the input length |
| JsonMatcher.ScoredSound | saarthi_ai/json_matcher.py:157-165 | every result is the scored copy of an eligible input |
| JsonMatcher.ScoredComplete | saarthi_ai/json_matcher.py:157-165 | every eligible input's scored copy is in the result |
| JsonMatcher.ScoredMembers | saarthi_ai/json_matcher.py:157-165 | a record is a result iff it is the scored copy of an eligible input |
| JsonMatcher.MatchesShape | saarthi_ai/json_matcher.py:139-170 | the result is a permutation of the scored copies, of length at most the input, sorted by score in [0, 7] |
| JsonMatcher.MatchesStable | saarthi_ai/json_matcher.py:168 | records with equal scores keep input order |
| ExplanationGenerator.GreetingNamesStudent | saarthi_ai/explanation_generator.py:18 | the greeting contains the name and opens with a non-space character |
| ExplanationGenerator.SummaryShape | saarthi_ai/explanation_generator.py:18-30 | the summary starts with the greeting and has 5 bullet lines with a background or 4 without, each starting with "• " and ending with a newline |
| ExplanationGenerator.BulletFrame | saarthi_ai/explanation_generator.py:19-28 | every bullet starts with "• " and ends with a newline |
| ExplanationGenerator.BackgroundBulletDiffers | saarthi_ai/explanation_generator.py:23-25 | the background bullet differs from every other bullet |
| ExplanationGenerator.SummaryMentionsProfile | saarthi_ai/explanation_generator.py:18-21 | the summary contains the name, education value, degree, field and institution value |
| ExplanationGenerator.SummaryMentionsGoals | saarthi_ai/explanation_generator.py:27-28 | the summary contains every goal value |
| ExplanationGenerator.SummaryMentionsBackground | saarthi_ai/explanation_generator.py:23-25 | the summary contains every background value |
| ExplanationGenerator.InsightShape | saarthi_ai/explanation_generator.py:51-79 | the insight opens with the fixed opening, contains the theme clause, "not knowing these exist" and the suggestion, and ends with the closing sentence |
| ExplanationGenerator.InsightFourSentences | saarthi_ai/explanation_generator.py:51-79 | the insight is its four sentences run together (theme, barrier, suggestion, closing); the theme and barrier sentences and the closing end in a full stop; the suggestion ends in ". " for "many times" and in "! " for the other answers |
| ExplanationGenerator.SuggestionByFrequency | saarthi_ai/explanation_generator.py:68-74 | many misses mention "alerts", once or twice "already eligible", otherwise "already qualified" |
| ExplanationGenerator.SuggestionEnds | saarthi_ai/explanation_generator.py:68-74 | the suggestion ends in ". " exactly when opportunities were missed many times, and in "! " exactly otherwise |
| ExplanationGenerator.InsightDependsOnThemeAndFrequency | saarthi_ai/explanation_generator.py:32-79 | two calls with the same theme and miss frequency give the same insight, whatever the matches and other fields |
| ExplanationGenerator.ScholarshipCategoryWins | saarthi_ai/explanation_generator.py:54-59 | any category mentioning "scholarship" selects the scholarship theme |
| ExplanationGenerator.ResearchCategoryNext | saarthi_ai/explanation_generator.py:54-61 | without "scholarship", a category mentioning research or internship selects the research theme |
| ExplanationGenerator.CategoryTextHolds | saarthi_ai/explanation_generator.py:54-55 | a word in one lower-cased category occurs in the joined category text |
| ApplicationController.ValidateFieldValues | saarthi_ai/application_controller.py:141-167 | the appends give the invalid-value list |
| ApplicationController.InvalidFieldsExact | saarthi_ai/application_controller.py:151-167 | an issue is reported iff age < 0, age > 150, year < 0 or year > 10 respectively, and at most two are reported |
| ApplicationController.NoInvalidFieldsIffInRange | saarthi_ai/application_controller.py:151-167 | no issue iff age and year are absent or within [0, 150] and [0, 10] |
| ApplicationController.FallbackSummaryShape | saarthi_ai/application_controller.py:169-192 | the fallback summary starts with the greeting, contains the name and is not blank |
| ApplicationController.FallbackBlindspotsShape | saarthi_ai/application_controller.py:194-224 | three fallback blindspots scored 0.8, 0.7 and 0.6, in ranking order |
| ApplicationController.FallbackInsightNotBlank | saarthi_ai/application_controller.py:226-242 | the fallback insight opens and closes like the generated one and is not blank |
| ApplicationController.NoMatchesInsightNamesStudent | saarthi_ai/application_controller.py:244-260 | the no-matches message starts with "Hi " and the name |
| ApplicationController.InvalidValuesFirst | saarthi_ai/application_controller.py:61-67 | invalid values are returned alone, before any missing-field check |
| ApplicationController.MissingValuesNext | saarthi_ai/application_controller.py:69-76 | otherwise a failing `validate` returns exactly its missing list |
| ApplicationController.EmptyCatalogUnavailable | saarthi_ai/application_controller.py:78-84 | a valid profile against an empty catalog gets the knowledge-base-unavailable error |
| ApplicationController.NothingEscapes | saarthi_ai/application_controller.py:86-139 | past the checks every submission is valid or the generic error, and a valid result implies all checks passed |
| ApplicationController.ValidWhenNothingRaises | saarthi_ai/application_controller.py:86-131 | when no component fails, the result is valid |
| ApplicationController.ValidShowsGenerated | saarthi_ai/application_controller.py:88-100 | a valid result shows the generated summary unless blank and the identified blindspots unless empty |
| ApplicationController.BlankSummaryFallsBack | saarthi_ai/application_controller.py:89-93 | a blank generated summary is replaced by the fallback summary, which names the student |
| ApplicationController.SummaryNeverBlankWhenValid | saarthi_ai/application_controller.py:89-93 | every valid result has a non-blank summary |
| ApplicationController.NoMatchesOutcome | saarthi_ai/application_controller.py:105-114 | no matches gives a valid result with the no-matches message naming the student |
| ApplicationController.RecommendationsOutcome | saarthi_ai/application_controller.py:116-131 | with matches the insight is the generated one, or the fallback when that is blank |
| ApplicationController.InsightNeverBlankWhenValid | saarthi_ai/application_controller.py:105-131 | every valid result has a non-blank final insight |
| ApplicationController.SummaryNeverBlank | saarthi_ai/explanation_generator.py:18-30 | the generated summary is never blank |
| ApplicationController.InsightNeverBlank | saarthi_ai/explanation_generator.py:51-79 | the generated insight is never blank |
| ApplicationController.RealComponentsNeverFail | saarthi_ai/application_controller.py:86-139 | with the real components a profile that passes the checks against a non-empty catalog never hits the generic error |
| ApplicationController.RealStagesShown | saarthi_ai/application_controller.py:86-100 | with the real components a valid result shows the generated summary and the 3 to 5 identified blindspots, never a fallback |
| ApplicationController.RealInsightUsed | saarthi_ai/application_controller.py:116-131 | with the real components a recommendation shows the generated insight |
| ApplicationController.CatalogAlwaysRecommends | saarthi_ai/application_controller.py:78-131 | with the real catalog and components every profile that passes the checks gets recommendations with 2 or 3 matches |
| AppHelpers.YearLabelRoundTrip | app.py:165-176 | years 1, 2 and 3 map to labels that read back as the year, 4 and up to "Final", which reads back as 4, and 0 or below to "Any" |
| AppHelpers.FieldKey | app.py:184 | the key is the stripped, lower-cased field |
| AppHelpers.NormalizeFieldRange | app.py:179-203 | the result is Engineering, Science, Commerce or the field itself, and, for a field other than the three category names, the field itself exactly when no term list matches |
| AppHelpers.ComputerScienceIsScience | app.py:190-200 | "Computer Science" contains a computing term yet normalises to Science |
| AppHelpers.CategoriesFixed | app.py:186-196 | Engineering, Science and Commerce normalise to themselves |
| AppHelpers.NormalizeIdempotent | app.py:179-203 | normalising twice equals normalising once |
| AppHelpers.FirstMappedExact | app.py:222-238 | the result is "Any" iff every indicator maps to "Any", and otherwise the mapping of the first indicator not mapping to "Any" |
| AppHelpers.FirstMappedSkipsAny | app.py:231-238 | leading indicators that map to "Any" do not affect the result |
| AppHelpers.PrimaryBackgroundCases | app.py:206-238 | a gender lower-casing to "female" gives "Women"; otherwise the first-mapped rule applies (with no indicators "Any"); the result is always Women, Financial Need, Rural or Any |

## Left out

- The Flask routes, request handling and templates in `app.py`, `main.py`, `web_app.py`
  and the scripts: web and console I/O.
- `JSONOpportunityMatcher.__init__` and `_load_opportunities`: file I/O. The
  opportunity records are a parameter.
- `start` and every `display_*` screen builder of the controller: they print and
  return UI text.
- `get_all_opportunities` is the catalog constant `KnowledgeBase.Catalog`. Returning a
  copy has no observable effect on immutable values. Its raising is not modelled: the
  orchestrator takes the catalog as a parameter, and an empty one stands for an
  unavailable knowledge base.
- **Floating point.** Scores are exact reals. Ties in the sorts are decided on exact
  values, not on Python floats.
- **Unicode.** `lower` and `strip` are modelled for ASCII only, with Python's ASCII
  white-space set.
- **Exceptions.** The `print` in the `except` branch is left out. Only the failures
  the modelled components can raise are represented: `None.value` on an absent enum
  in the analyser and the summary templates. Each component of `Components` may
  return `None`, and that becomes the generic error.
- `_generate_fallback_final_insight` is a constant. It reads neither the profile nor
  the matches.
- **JSON values** are limited to null, integers, strings and lists. Booleans, floats
  and nested objects in the records are not represented.
- OpportunityMatcher.AlignWithBlindspot: the thirteen inline `if` tests are a table of
  heuristics applied in order, not thirteen statements.
- StableSort.SortDesc: Python's sort is replaced by a stable insertion sort. The model
  proves the properties the program relies on (sorted, permutation, stable), not the
  identity with Timsort's intermediate steps.
- ExplanationGenerator.InsightFourSentences: states how each of the four sentences
  ends, not that no other "." occurs inside them. Read off the literals at
  `saarthi_ai/explanation_generator.py:58-77`, the insight has three ". " breaks and
  four "." for "many times", and two ". " breaks and three "." for the other answers:
  their suggestions end in "! ", and the closing has no trailing space. A character
  count over the long fixed clauses is beyond what the verifier settles at reasonable
  cost, so the count itself is not proved.
- AppHelpers.YearLabel: takes an integer. A missing year (`None`) would raise in
  Python, and that is not modelled.
- MissProbabilityFor has no row of its own. `OpportunityMatcher.MissProbabilityMonotone`
  states the order it follows, not the nine table entries one by one.
