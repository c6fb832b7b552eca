/**
 * `ProfileAnalyzer`: turns a student profile into the characteristics,
 * eligibility tags, awareness level and priority goals the later stages
 * match against.
 */
module ProfileAnalyzer {
  import opened Wrappers
  import opened Models

  /** The display values of the background indicators, in input order. */
  function BackgroundValues(bg: seq<BackgroundIndicator>): seq<string> {
    if bg == [] then [] else BackgroundValues(bg[..|bg| - 1]) + [bg[|bg| - 1].Value()]
  }

  /** One value per indicator, position by position, duplicates kept. */
  lemma {:induction false} BackgroundValuesAt(bg: seq<BackgroundIndicator>)
    ensures |BackgroundValues(bg)| == |bg|
    ensures forall i :: 0 <= i < |bg| ==> BackgroundValues(bg)[i] == bg[i].Value()
  {
    if bg != [] {
      BackgroundValuesAt(bg[..|bg| - 1]);
    }
  }

  /** `_extract_eligibility_tags`: one tag per background indicator. */
  method ExtractEligibilityTags(p: StudentProfile) returns (tags: seq<string>)
    ensures tags == BackgroundValues(p.background_indicators)
  {
    var bg := p.background_indicators;
    tags := [];
    var k := 0;
    while k < |bg|
      invariant 0 <= k <= |bg|
      invariant tags == BackgroundValues(bg[..k])
    {
      assert bg[..k + 1][..k] == bg[..k];
      tags := tags + [bg[k].Value()];
      k := k + 1;
    }
    assert bg[..k] == bg;
  }

  /** The education value, the field of study, the institution value, then every tag. */
  function Characteristics(p: StudentProfile): seq<string>
    requires p.education_level.Some? && p.institution_type.Some?
  {
    [p.education_level.value.Value(), p.field_of_study, p.institution_type.value.Value()]
    + BackgroundValues(p.background_indicators)
  }

  /** `_extract_characteristics`. */
  method ExtractCharacteristics(p: StudentProfile) returns (chars: seq<string>)
    requires p.education_level.Some? && p.institution_type.Some?
    ensures chars == Characteristics(p)
  {
    chars := [];
    chars := chars + [p.education_level.value.Value()];
    chars := chars + [p.field_of_study];
    chars := chars + [p.institution_type.value.Value()];
    ghost var head := chars;
    var bg := p.background_indicators;
    var k := 0;
    while k < |bg|
      invariant 0 <= k <= |bg|
      invariant chars == head + BackgroundValues(bg[..k])
    {
      assert bg[..k + 1][..k] == bg[..k];
      chars := chars + [bg[k].Value()];
      k := k + 1;
    }
    assert bg[..k] == bg;
  }

  /**
   * `_map_awareness_level`: missing opportunities often means low awareness.
   * Anything other than the two "yes" answers, `None` included, falls to
   * the final branch.
   */
  function AwarenessFor(missed: Option<MissedOpportunityFrequency>): AwarenessLevel {
    if missed == Some(YesManyTimes) then AwarenessLevel.Low
    else if missed == Some(OnceOrTwice) then AwarenessLevel.Medium
    else AwarenessLevel.High
  }

  /** Awareness in increasing order. */
  function AwarenessRank(a: AwarenessLevel): nat {
    match a
    case Low => 0
    case Medium => 1
    case High => 2
  }

  /** How often opportunities were missed, most often first. */
  function MissedRank(m: MissedOpportunityFrequency): nat {
    match m
    case YesManyTimes => 0
    case OnceOrTwice => 1
    case No => 2
  }

  /**
   * The mapping is one-to-one on the answers and order-preserving: having
   * missed opportunities more often never yields a higher awareness level.
   */
  lemma AwarenessMonotone(a: MissedOpportunityFrequency, b: MissedOpportunityFrequency)
    ensures MissedRank(a) <= MissedRank(b) <==> AwarenessRank(AwarenessFor(Some(a))) <= AwarenessRank(AwarenessFor(Some(b)))
    ensures AwarenessFor(Some(a)) == AwarenessFor(Some(b)) ==> a == b
  {
  }

  /**
   * The three answers map to low, medium and high awareness; no answer at
   * all falls to the last branch and counts as high.
   */
  lemma AwarenessCases()
    ensures AwarenessFor(Some(YesManyTimes)) == AwarenessLevel.Low
    ensures AwarenessFor(Some(OnceOrTwice)) == AwarenessLevel.Medium
    ensures AwarenessFor(Some(No)) == AwarenessLevel.High
    ensures AwarenessFor(None) == AwarenessLevel.High
  {
  }

  /** The analysis `analyze` returns. */
  function Analysis(p: StudentProfile): ProfileAnalysis
    requires p.education_level.Some? && p.institution_type.Some?
  {
    ProfileAnalysis(
      Characteristics(p),
      BackgroundValues(p.background_indicators),
      AwarenessFor(p.missed_opportunities_before),
      p.opportunity_goals)
  }

  /** `ProfileAnalyzer.analyze`. */
  method Analyze(p: StudentProfile) returns (a: ProfileAnalysis)
    requires p.education_level.Some? && p.institution_type.Some?
    ensures a == Analysis(p)
  {
    var key := ExtractCharacteristics(p);
    var tags := ExtractEligibilityTags(p);
    var awareness := AwarenessFor(p.missed_opportunities_before);
    a := ProfileAnalysis(key, tags, awareness, p.opportunity_goals);
  }

  /**
   * The shape of an analysis: three profile values, then the tags; the tags
   * are the background values in input order; the goals are the profile's.
   */
  lemma AnalysisShape(p: StudentProfile)
    requires p.education_level.Some? && p.institution_type.Some?
    ensures |Analysis(p).key_characteristics| == 3 + |p.background_indicators|
    ensures Analysis(p).key_characteristics[..3]
         == [p.education_level.value.Value(), p.field_of_study, p.institution_type.value.Value()]
    ensures Analysis(p).key_characteristics[3..] == Analysis(p).eligibility_tags
    ensures |Analysis(p).eligibility_tags| == |p.background_indicators|
    ensures forall i :: 0 <= i < |p.background_indicators| ==>
              Analysis(p).eligibility_tags[i] == p.background_indicators[i].Value()
    ensures Analysis(p).priority_goals == p.opportunity_goals
  {
    BackgroundValuesAt(p.background_indicators);
  }

  /** A tag is present exactly when some indicator has that value. */
  lemma TagsMembership(p: StudentProfile, t: string)
    requires p.education_level.Some? && p.institution_type.Some?
    ensures t in Analysis(p).eligibility_tags <==>
              exists i :: 0 <= i < |p.background_indicators| && p.background_indicators[i].Value() == t
  {
    BackgroundValuesAt(p.background_indicators);
    var tags := Analysis(p).eligibility_tags;
    if t in tags {
      var j :| 0 <= j < |tags| && tags[j] == t;
      assert p.background_indicators[j].Value() == t;
    }
  }
}
