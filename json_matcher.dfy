/**
 * `JsonMatcher`: the matcher over opportunity records loaded from a JSON
 * dataset. A record is a dictionary; a criterion that is absent or "Any"
 * admits every student, any other value must equal the student's value.
 * Eligible records are copied with a `matching_score` entry and ranked by
 * that score, highest first.
 */
module JsonMatcher {
  import opened StableSort

  /** The JSON values the records hold: `null`, integers, strings and lists. */
  datatype JValue = JNull | JInt(i: int) | JStr(s: string) | JList(items: seq<JValue>)

  /** A decoded JSON object (a Python `dict`). */
  type Record = map<string, JValue>

  const Any: JValue := JStr("Any")

  /** `d.get(key)`: the stored value, or `None` when the key is absent. */
  function Get(d: Record, key: string): JValue {
    if key in d then d[key] else JNull
  }

  /** `d.get(key, default)`. */
  function GetOr(d: Record, key: string, default: JValue): JValue {
    if key in d then d[key] else default
  }

  /** The opportunity key of the `j`-th criterion, in the order the checks run. */
  function CriterionKey(j: nat): string
    requires j < 5
  {
    match j
    case 0 => "education_level"
    case 1 => "eligible_fields"
    case 2 => "target_year"
    case 3 => "institution_type"
    case _ => "background_priority"
  }

  /** The student key the `j`-th criterion is compared with. */
  function StudentKey(j: nat): string
    requires j < 5
  {
    match j
    case 0 => "education_level"
    case 1 => "field"
    case 2 => "year"
    case 3 => "institution_type"
    case _ => "background"
  }

  /** The opportunity's value for criterion `j`, "Any" when the key is absent. */
  function Required(o: Record, j: nat): JValue
    requires j < 5
  {
    GetOr(o, CriterionKey(j), Any)
  }

  /** Criterion `j` does not exclude the student. */
  predicate Admits(student: Record, o: Record, j: nat)
    requires j < 5
  {
    Required(o, j) == Any || Required(o, j) == Get(student, StudentKey(j))
  }

  /** `is_eligible`: the five checks in order, the first failing one rejecting. */
  predicate IsEligible(student: Record, o: Record) {
    if !Admits(student, o, 0) then false
    else if !Admits(student, o, 1) then false
    else if !Admits(student, o, 2) then false
    else if !Admits(student, o, 3) then false
    else if !Admits(student, o, 4) then false
    else true
  }

  /** Eligible exactly when every criterion is absent, "Any", or the student's value. */
  lemma EligibleIffAllAdmit(student: Record, o: Record)
    ensures IsEligible(student, o) <==> forall j :: 0 <= j < 5 ==> Admits(student, o, j)
  {
    if IsEligible(student, o) {
      forall j | 0 <= j < 5 ensures Admits(student, o, j) {
        if j == 0 {} else if j == 1 {} else if j == 2 {} else if j == 3 {} else {}
      }
    }
  }

  /** A record whose criteria are all absent or "Any" admits every student. */
  lemma UnrestrictedAdmitsAll(student: Record, o: Record)
    requires forall j :: 0 <= j < 5 ==> Required(o, j) == Any
    ensures IsEligible(student, o)
  {
    EligibleIffAllAdmit(student, o);
  }

  // --------------------------------------------------------------------- score

  /** Criterion `j` is set to something other than "Any". */
  predicate Restricts(o: Record, j: nat)
    requires j < 5
  {
    Required(o, j) != Any
  }

  /** The point the `j`-th step of `calculate_score` adds: five exact matches, then the two boosts. */
  function Point(student: Record, o: Record, j: nat): nat
    requires j < 7
  {
    if j < 5 then (if Restricts(o, j) && Required(o, j) == Get(student, StudentKey(j)) then 1 else 0)
    else if j == 5 then (if Get(o, "awareness_level") == JStr("Low") then 1 else 0)
    else (if Get(o, "miss_probability") == JStr("High") then 1 else 0)
  }

  /** The score after the first `j` steps. */
  function ScoreUpTo(student: Record, o: Record, j: nat): nat
    requires j <= 7
  {
    if j == 0 then 0 else ScoreUpTo(student, o, j - 1) + Point(student, o, j - 1)
  }

  /** The value `calculate_score` returns. */
  function Score(student: Record, o: Record): nat {
    ScoreUpTo(student, o, 7)
  }

  /** `calculate_score`. */
  method CalculateScore(student: Record, o: Record) returns (score: int)
    ensures score == Score(student, o)
  {
    score := 0;
    var oppEdu := GetOr(o, "education_level", Any);
    if oppEdu != Any && oppEdu == Get(student, "education_level") {
      score := score + 1;
    }
    assert score == ScoreUpTo(student, o, 1);
    var oppField := GetOr(o, "eligible_fields", Any);
    if oppField != Any && oppField == Get(student, "field") {
      score := score + 1;
    }
    assert score == ScoreUpTo(student, o, 2);
    var oppYear := GetOr(o, "target_year", Any);
    if oppYear != Any && oppYear == Get(student, "year") {
      score := score + 1;
    }
    assert score == ScoreUpTo(student, o, 3);
    var oppInst := GetOr(o, "institution_type", Any);
    if oppInst != Any && oppInst == Get(student, "institution_type") {
      score := score + 1;
    }
    assert score == ScoreUpTo(student, o, 4);
    var oppBg := GetOr(o, "background_priority", Any);
    if oppBg != Any && oppBg == Get(student, "background") {
      score := score + 1;
    }
    assert score == ScoreUpTo(student, o, 5);
    if Get(o, "awareness_level") == JStr("Low") {
      score := score + 1;
    }
    assert score == ScoreUpTo(student, o, 6);
    if Get(o, "miss_probability") == JStr("High") {
      score := score + 1;
    }
  }

  /** Each step adds at most one point. */
  lemma {:induction false} ScoreUpToBound(student: Record, o: Record, j: nat)
    requires j <= 7
    ensures ScoreUpTo(student, o, j) <= j
  {
    if j > 0 {
      ScoreUpToBound(student, o, j - 1);
    }
  }

  /** The score lies in [0, 7]. */
  lemma ScoreRange(student: Record, o: Record)
    ensures 0 <= Score(student, o) <= 7
  {
    ScoreUpToBound(student, o, 7);
  }

  /** How many of the first `j` criteria are set to something other than "Any". */
  function RestrictedUpTo(o: Record, j: nat): nat
    requires j <= 5
  {
    if j == 0 then 0 else RestrictedUpTo(o, j - 1) + (if Restricts(o, j - 1) then 1 else 0)
  }

  /** For an admitted student, the exact-match points count the restricting criteria. */
  lemma {:induction false} ExactPointsCountRestrictions(student: Record, o: Record, j: nat)
    requires j <= 5
    requires forall i :: 0 <= i < 5 ==> Admits(student, o, i)
    ensures ScoreUpTo(student, o, j) == RestrictedUpTo(o, j)
  {
    if j > 0 {
      ExactPointsCountRestrictions(student, o, j - 1);
      assert Admits(student, o, j - 1);
    }
  }

  /**
   * For an eligible record, the score is the number of criteria other than
   * "Any", plus one for low awareness, plus one for a high miss probability.
   */
  lemma EligibleScore(student: Record, o: Record)
    requires IsEligible(student, o)
    ensures Score(student, o) == RestrictedUpTo(o, 5)
              + (if Get(o, "awareness_level") == JStr("Low") then 1 else 0)
              + (if Get(o, "miss_probability") == JStr("High") then 1 else 0)
  {
    EligibleIffAllAdmit(student, o);
    ExactPointsCountRestrictions(student, o, 5);
    assert ScoreUpTo(student, o, 6) == ScoreUpTo(student, o, 5) + Point(student, o, 5);
    assert Score(student, o) == ScoreUpTo(student, o, 6) + Point(student, o, 6);
  }

  // ------------------------------------------------------------------- matching

  const ScoreKey := "matching_score"

  /** The copy of `o` that carries its score. */
  function WithScore(student: Record, o: Record): Record {
    o[ScoreKey := JInt(Score(student, o))]
  }

  /** The sort key `x['matching_score']`. */
  function MatchingScore(r: Record): real {
    match Get(r, ScoreKey)
    case JInt(i) => i as real
    case _ => 0.0
  }

  /** The copy holds every entry of the original and, under `matching_score`, the score. */
  lemma WithScoreCopies(student: Record, o: Record)
    ensures WithScore(student, o).Keys == o.Keys + {ScoreKey}
    ensures forall k :: k in o && k != ScoreKey ==> WithScore(student, o)[k] == o[k]
    ensures MatchingScore(WithScore(student, o)) == Score(student, o) as real
  {
  }

  /** The scored copies of the eligible records of `ops`, in input order. */
  function Scored(student: Record, ops: seq<Record>): seq<Record> {
    if ops == [] then []
    else
      var init := Scored(student, ops[..|ops| - 1]);
      var o := ops[|ops| - 1];
      if IsEligible(student, o) then init + [WithScore(student, o)] else init
  }

  /** How many records of `ops` the student is eligible for. */
  function EligibleCount(student: Record, ops: seq<Record>): nat {
    if ops == [] then 0
    else EligibleCount(student, ops[..|ops| - 1]) + (if IsEligible(student, ops[|ops| - 1]) then 1 else 0)
  }

  /** The list `match_opportunities` returns. */
  function Matches(student: Record, ops: seq<Record>): seq<Record> {
    SortDesc(Scored(student, ops), MatchingScore)
  }

  /** `match_opportunities`, over the records it is given. */
  method MatchOpportunities(student: Record, ops: seq<Record>) returns (r: seq<Record>)
    ensures r == Matches(student, ops)
  {
    var eligible := [];
    var k := 0;
    while k < |ops|
      invariant 0 <= k <= |ops|
      invariant eligible == Scored(student, ops[..k])
    {
      var o := ops[k];
      assert ops[..k + 1][..k] == ops[..k];
      if IsEligible(student, o) {
        var score := CalculateScore(student, o);
        var withScore := o[ScoreKey := JInt(score)];
        eligible := eligible + [withScore];
      }
      k := k + 1;
    }
    assert ops[..k] == ops;
    r := SortDesc(eligible, MatchingScore);
  }

  /** One scored copy per eligible record, so never more than there are records. */
  lemma {:induction false} ScoredCount(student: Record, ops: seq<Record>)
    ensures |Scored(student, ops)| == EligibleCount(student, ops) <= |ops|
  {
    if ops != [] {
      ScoredCount(student, ops[..|ops| - 1]);
    }
  }

  /** Every scored copy comes from an eligible input record. */
  lemma {:induction false} ScoredSound(student: Record, ops: seq<Record>, x: Record)
    requires x in Scored(student, ops)
    ensures exists i :: 0 <= i < |ops| && IsEligible(student, ops[i]) && x == WithScore(student, ops[i])
  {
    var init := ops[..|ops| - 1];
    if x in Scored(student, init) {
      ScoredSound(student, init, x);
      var i :| 0 <= i < |init| && IsEligible(student, init[i]) && x == WithScore(student, init[i]);
      assert ops[i] == init[i];
    } else {
      assert x == WithScore(student, ops[|ops| - 1]);
    }
  }

  /** Every eligible input record has its scored copy in the list. */
  lemma {:induction false} ScoredComplete(student: Record, ops: seq<Record>, i: nat)
    requires i < |ops| && IsEligible(student, ops[i])
    ensures WithScore(student, ops[i]) in Scored(student, ops)
  {
    var init := ops[..|ops| - 1];
    if i < |init| {
      ScoredComplete(student, init, i);
      assert init[i] == ops[i];
    }
  }

  /** A record is in the scored list exactly when it is the scored copy of an eligible input record. */
  lemma ScoredMembers(student: Record, ops: seq<Record>, x: Record)
    ensures x in Scored(student, ops) <==>
              exists i :: 0 <= i < |ops| && IsEligible(student, ops[i]) && x == WithScore(student, ops[i])
  {
    if x in Scored(student, ops) {
      ScoredSound(student, ops, x);
    }
    if exists i :: 0 <= i < |ops| && IsEligible(student, ops[i]) && x == WithScore(student, ops[i]) {
      var i :| 0 <= i < |ops| && IsEligible(student, ops[i]) && x == WithScore(student, ops[i]);
      ScoredComplete(student, ops, i);
    }
  }

  /**
   * The result holds exactly the scored copies of the eligible records, as
   * many as there are, sorted by score, highest first; every score is in
   * [0, 7].
   */
  lemma MatchesShape(student: Record, ops: seq<Record>)
    ensures multiset(Matches(student, ops)) == multiset(Scored(student, ops))
    ensures |Matches(student, ops)| == EligibleCount(student, ops) <= |ops|
    ensures SortedDesc(Matches(student, ops), MatchingScore)
    ensures forall x :: x in Matches(student, ops) ==> 0.0 <= MatchingScore(x) <= 7.0
  {
    ScoredCount(student, ops);
    SortDescSorted(Scored(student, ops), MatchingScore);
    forall x | x in Matches(student, ops) ensures 0.0 <= MatchingScore(x) <= 7.0 {
      assert x in multiset(Scored(student, ops));
      ScoredSound(student, ops, x);
      var i :| 0 <= i < |ops| && IsEligible(student, ops[i]) && x == WithScore(student, ops[i]);
      ScoreRange(student, ops[i]);
    }
  }

  /** Records with equal scores keep their input order. */
  lemma MatchesStable(student: Record, ops: seq<Record>, v: real)
    ensures WithKey(Matches(student, ops), MatchingScore, v) == WithKey(Scored(student, ops), MatchingScore, v)
  {
    SortDescStable(Scored(student, ops), MatchingScore, v);
  }
}
