/**
 * `AppHelpers`: the three helpers the web application uses to turn a
 * student profile into the flat record the JSON matcher compares: the
 * year label, the normalised field of study and the primary background.
 */
module AppHelpers {
  import opened Wrappers
  import opened Text
  import opened Models

  // ---------------------------------------------------------------- year label

  /** `_convert_year_to_string`. */
  function YearLabel(year: int): string {
    if year == 1 then "1st"
    else if year == 2 then "2nd"
    else if year == 3 then "3rd"
    else if year >= 4 then "Final"
    else "Any"
  }

  /** The year a label stands for; final year is read as 4. */
  function LabelYear(text: string): Option<int> {
    if text == "1st" then Some(1)
    else if text == "2nd" then Some(2)
    else if text == "3rd" then Some(3)
    else if text == "Final" then Some(4)
    else None
  }

  /**
   * The label of a positive year reads back as that year, capped at 4;
   * a year of zero or below gets the wildcard "Any", which reads back as
   * no year at all.
   */
  lemma YearLabelRoundTrip(year: int)
    ensures year >= 1 ==> LabelYear(YearLabel(year)) == Some(if year >= 4 then 4 else year)
    ensures year <= 0 ==> YearLabel(year) == "Any" && LabelYear(YearLabel(year)).None?
  {
  }

  // ---------------------------------------------------------------- field of study

  const EngineeringTerms: seq<string> := ["engineering", "engineer", "tech", "b.tech", "btech"]
  const ScienceTerms: seq<string> := ["science", "physics", "chemistry", "biology", "bsc", "b.sc"]
  const CommerceTerms: seq<string> := ["commerce", "bcom", "b.com", "accounting", "finance"]
  const ComputerTerms: seq<string> := ["computer", "cs", "it", "information technology"]

  /** `any(term in key for term in terms)`. */
  predicate AnyIn(key: string, terms: seq<string>) {
    exists j :: 0 <= j < |terms| && Contains(key, terms[j])
  }

  /** The lower-cased, stripped text the terms are looked for in. */
  function FieldKey(field: string): (key: string)
    ensures key == Lower(Strip(field))
  {
    StripLower(field);
    Strip(Lower(field))
  }

  /**
   * `_normalize_field_of_study`: the first of engineering, science,
   * commerce and computing whose terms occur in the key decides the
   * category; computing counts as engineering; otherwise the field is
   * returned as given.
   */
  function NormalizeField(field: string): string {
    var key := FieldKey(field);
    if AnyIn(key, EngineeringTerms) then Engineering
    else if AnyIn(key, ScienceTerms) then Science
    else if AnyIn(key, CommerceTerms) then Commerce
    else if AnyIn(key, ComputerTerms) then Engineering
    else field
  }

  /** The categories of the opportunity records. */
  const Engineering := "Engineering"
  const Science := "Science"
  const Commerce := "Commerce"

  /**
   * The result is one of the three categories or the field unchanged, and
   * it is the field unchanged exactly when no term of any list occurs.
   */
  lemma NormalizeFieldRange(field: string)
    ensures NormalizeField(field) in {Engineering, Science, Commerce, field}
    ensures NormalizeField(field) == field
            <== !AnyIn(FieldKey(field), EngineeringTerms) && !AnyIn(FieldKey(field), ScienceTerms)
                && !AnyIn(FieldKey(field), CommerceTerms) && !AnyIn(FieldKey(field), ComputerTerms)
    ensures field !in {Engineering, Science, Commerce} && NormalizeField(field) == field ==>
              !AnyIn(FieldKey(field), EngineeringTerms) && !AnyIn(FieldKey(field), ScienceTerms)
              && !AnyIn(FieldKey(field), CommerceTerms) && !AnyIn(FieldKey(field), ComputerTerms)
  {
  }

  /** A text none of whose characters is `t[k]` does not contain `t`. */
  lemma AbsentCharNotContained(s: string, t: string, k: nat)
    requires k < |t|
    requires forall i :: 0 <= i < |s| ==> s[i] != t[k]
    ensures !Contains(s, t)
  {
    forall i | 0 <= i <= |s|
      ensures !OccursAt(s, t, i)
    {
      if i + |t| <= |s| {
        assert s[i..i + |t|][k] == s[i + k];
      }
    }
  }

  /** A key without 'g', 'h' or 'b' contains no engineering term. */
  lemma NoEngineeringTerm(key: string)
    requires forall i :: 0 <= i < |key| ==> key[i] != 'g' && key[i] != 'h' && key[i] != 'b'
    ensures !AnyIn(key, EngineeringTerms)
  {
    forall j | 0 <= j < |EngineeringTerms|
      ensures !Contains(key, EngineeringTerms[j])
    {
      if j <= 1 {
        assert EngineeringTerms[j][2] == 'g';
        AbsentCharNotContained(key, EngineeringTerms[j], 2);
      } else if j == 2 {
        assert EngineeringTerms[j][3] == 'h';
        AbsentCharNotContained(key, EngineeringTerms[j], 3);
      } else {
        assert EngineeringTerms[j][0] == 'b';
        AbsentCharNotContained(key, EngineeringTerms[j], 0);
      }
    }
  }

  const ComputerScience := "Computer Science"
  const ComputerScienceKey := "computer science"
  const EngineeringKey := "engineering"
  const ScienceKey := "science"
  const CommerceKey := "commerce"

  /**
   * A word that neither starts nor ends with white space is its own strip,
   * so its key is the word lower-cased.
   */
  lemma WordKey(w: string, key: string)
    requires w != [] && !IsSpace(w[0]) && !IsSpace(w[|w| - 1])
    requires Lower(w) == key
    ensures FieldKey(w) == key
  {
  }

  /** "computer science" holds a science term and a computing term but no engineering term. */
  lemma ComputerScienceKeyTerms()
    ensures !AnyIn(ComputerScienceKey, EngineeringTerms)
    ensures AnyIn(ComputerScienceKey, ScienceTerms)
    ensures AnyIn(ComputerScienceKey, ComputerTerms)
  {
    NoEngineeringTerm(ComputerScienceKey);
    ContainsPiece("computer ", "science", "");
    assert "computer " + "science" + "" == ComputerScienceKey;
    assert Contains(ComputerScienceKey, ScienceTerms[0]);
    ContainsPiece("", "computer", " science");
    assert "" + "computer" + " science" == ComputerScienceKey;
    assert Contains(ComputerScienceKey, ComputerTerms[0]);
  }

  /**
   * "Computer Science" is normalised to "Science", not "Engineering",
   * although it holds a computing term: the science terms are tried first.
   */
  lemma ComputerScienceIsScience()
    ensures AnyIn(FieldKey(ComputerScience), ComputerTerms)
    ensures NormalizeField(ComputerScience) == Science
  {
    WordKey(ComputerScience, ComputerScienceKey);
    ComputerScienceKeyTerms();
  }

  /** A key without 's' or 'b' contains no science term. */
  lemma NoScienceTerm(key: string)
    requires forall i :: 0 <= i < |key| ==> key[i] != 's' && key[i] != 'b'
    ensures !AnyIn(key, ScienceTerms)
  {
    forall j | 0 <= j < |ScienceTerms|
      ensures !Contains(key, ScienceTerms[j])
    {
      if j == 0 {
        assert ScienceTerms[j][0] == 's';
        AbsentCharNotContained(key, ScienceTerms[j], 0);
      } else if j == 1 {
        assert ScienceTerms[j][6] == 's';
        AbsentCharNotContained(key, ScienceTerms[j], 6);
      } else if j == 2 {
        assert ScienceTerms[j][5] == 's';
        AbsentCharNotContained(key, ScienceTerms[j], 5);
      } else {
        assert ScienceTerms[j][0] == 'b';
        AbsentCharNotContained(key, ScienceTerms[j], 0);
      }
    }
  }

  /** "engineering" holds an engineering term. */
  lemma EngineeringKeyTerms()
    ensures AnyIn(EngineeringKey, EngineeringTerms)
  {
    ContainsPiece("", EngineeringKey, "");
    assert "" + EngineeringKey + "" == EngineeringKey;
    assert Contains(EngineeringKey, EngineeringTerms[0]);
  }

  /** "science" holds a science term and no engineering term. */
  lemma ScienceKeyTerms()
    ensures !AnyIn(ScienceKey, EngineeringTerms)
    ensures AnyIn(ScienceKey, ScienceTerms)
  {
    NoEngineeringTerm(ScienceKey);
    ContainsPiece("", ScienceKey, "");
    assert "" + ScienceKey + "" == ScienceKey;
    assert Contains(ScienceKey, ScienceTerms[0]);
  }

  /** "commerce" holds a commerce term and no engineering or science term. */
  lemma CommerceKeyTerms()
    ensures !AnyIn(CommerceKey, EngineeringTerms)
    ensures !AnyIn(CommerceKey, ScienceTerms)
    ensures AnyIn(CommerceKey, CommerceTerms)
  {
    NoEngineeringTerm(CommerceKey);
    NoScienceTerm(CommerceKey);
    ContainsPiece("", CommerceKey, "");
    assert "" + CommerceKey + "" == CommerceKey;
    assert Contains(CommerceKey, CommerceTerms[0]);
  }

  lemma EngineeringFixed()
    ensures NormalizeField(Engineering) == Engineering
  {
    WordKey(Engineering, EngineeringKey);
    EngineeringKeyTerms();
  }

  lemma ScienceFixed()
    ensures NormalizeField(Science) == Science
  {
    WordKey(Science, ScienceKey);
    ScienceKeyTerms();
  }

  lemma CommerceFixed()
    ensures NormalizeField(Commerce) == Commerce
  {
    WordKey(Commerce, CommerceKey);
    CommerceKeyTerms();
  }

  /** Each category normalises to itself. */
  lemma CategoriesFixed()
    ensures NormalizeField(Engineering) == Engineering
    ensures NormalizeField(Science) == Science
    ensures NormalizeField(Commerce) == Commerce
  {
    EngineeringFixed();
    ScienceFixed();
    CommerceFixed();
  }

  /** Normalising twice is normalising once. */
  lemma NormalizeIdempotent(field: string)
    ensures NormalizeField(NormalizeField(field)) == NormalizeField(field)
  {
    NormalizeFieldRange(field);
    CategoriesFixed();
  }

  // ---------------------------------------------------------------- background

  /** The entry of `priority_map` for an indicator. */
  function Mapped(b: BackgroundIndicator): string {
    match b
    case FinancialSupport => "Financial Need"
    case FirstGeneration => "Financial Need"
    case Rural => "Rural"
    case Disabled => "Any"
    case Minority => "Any"
  }

  /** The loop over the indicators: the first mapping other than "Any", else "Any". */
  function FirstMapped(indicators: seq<BackgroundIndicator>): string {
    if indicators == [] then "Any"
    else if Mapped(indicators[0]) != "Any" then Mapped(indicators[0])
    else FirstMapped(indicators[1..])
  }

  /** `_get_primary_background`. */
  function PrimaryBackground(indicators: seq<BackgroundIndicator>, gender: Option<string>): string {
    if gender.Some? && gender.value != "" && Lower(gender.value) == "female" then "Women"
    else if indicators == [] then "Any"
    else FirstMapped(indicators)
  }

  /**
   * The loop's result is "Any" exactly when every indicator maps to "Any";
   * otherwise it is the mapping of the first indicator that does not.
   */
  lemma {:induction false} FirstMappedExact(indicators: seq<BackgroundIndicator>)
    ensures FirstMapped(indicators) == "Any" <==>
              forall i :: 0 <= i < |indicators| ==> Mapped(indicators[i]) == "Any"
    ensures FirstMapped(indicators) != "Any" ==>
              exists i :: 0 <= i < |indicators| && FirstMapped(indicators) == Mapped(indicators[i])
                && forall j :: 0 <= j < i ==> Mapped(indicators[j]) == "Any"
    decreases |indicators|
  {
    if indicators != [] && Mapped(indicators[0]) == "Any" {
      var rest := indicators[1..];
      FirstMappedExact(rest);
      if FirstMapped(rest) != "Any" {
        var i :| 0 <= i < |rest| && FirstMapped(rest) == Mapped(rest[i])
                 && forall j :: 0 <= j < i ==> Mapped(rest[j]) == "Any";
        assert forall j :: 0 <= j < i + 1 ==> Mapped(indicators[j]) == "Any" by {
          forall j | 0 <= j < i + 1
            ensures Mapped(indicators[j]) == "Any"
          {
            if j > 0 {
              assert indicators[j] == rest[j - 1];
            }
          }
        }
        assert FirstMapped(indicators) == Mapped(indicators[i + 1]);
      } else {
        forall i | 0 <= i < |indicators|
          ensures Mapped(indicators[i]) == "Any"
        {
          if i > 0 {
            assert indicators[i] == rest[i - 1];
          }
        }
      }
    } else if indicators != [] {
      assert FirstMapped(indicators) == Mapped(indicators[0]);
    }
  }

  /**
   * A female gender gives "Women" whatever the indicators; otherwise no
   * indicators give "Any", and some give the first mapping other than
   * "Any", or "Any" when there is none. The result is always one of the
   * four values the opportunity records use.
   */
  lemma PrimaryBackgroundCases(indicators: seq<BackgroundIndicator>, gender: Option<string>)
    ensures gender.Some? && Lower(gender.value) == "female" ==>
              PrimaryBackground(indicators, gender) == "Women"
    ensures !(gender.Some? && Lower(gender.value) == "female") ==>
              PrimaryBackground(indicators, gender) == FirstMapped(indicators)
    ensures PrimaryBackground(indicators, gender) in {"Women", "Financial Need", "Rural", "Any"}
  {
    FirstMappedExact(indicators);
    if FirstMapped(indicators) != "Any" {
      var i :| 0 <= i < |indicators| && FirstMapped(indicators) == Mapped(indicators[i]);
    }
  }

  /** Indicators that map to "Any" ahead of the others do not change the result. */
  lemma {:induction false} FirstMappedSkipsAny(prefix: seq<BackgroundIndicator>, rest: seq<BackgroundIndicator>)
    requires forall i :: 0 <= i < |prefix| ==> Mapped(prefix[i]) == "Any"
    ensures FirstMapped(prefix + rest) == FirstMapped(rest)
    decreases |prefix|
  {
    if prefix != [] {
      assert (prefix + rest)[1..] == prefix[1..] + rest;
      FirstMappedSkipsAny(prefix[1..], rest);
    } else {
      assert prefix + rest == rest;
    }
  }
}
