/**
 * `KnowledgeBase`: the static catalog of opportunities and its lookup and
 * filter functions. `get_all_opportunities` hands out a copy of the
 * catalog; as a value that copy is `Catalog` itself.
 */
module KnowledgeBase {
  import opened Wrappers
  import opened Models

  const AllLevels: seq<EducationLevel> := [Diploma, UG, PG, PhD]

  const CentralSectorScholarship := Opportunity(
    "central-sector-scholarship",
    "Central Sector Scholarship",
    "Central government scholarship for undergraduate students from families with income below threshold",
    EligibilityCriteria([UG], None, None, None, true, false),
    VisibilityLevel.Medium, ImpactLevel.High, "Scholarship")

  const AictePragati := Opportunity(
    "aicte-pragati",
    "AICTE Pragati",
    "AICTE scholarship for female engineering students",
    EligibilityCriteria([UG], Some(["Engineering"]), None, None, false, false),
    VisibilityLevel.Low, ImpactLevel.High, "Scholarship")

  const AicteSaksham := Opportunity(
    "aicte-saksham",
    "AICTE Saksham",
    "AICTE scholarship for disabled engineering students",
    EligibilityCriteria([UG], Some(["Engineering"]), None, Some([Disabled]), false, false),
    VisibilityLevel.Low, ImpactLevel.High, "Scholarship")

  const NptelResearchInternship := Opportunity(
    "nptel-research-internship",
    "NPTEL Research Internship",
    "Research internship program for STEM students",
    EligibilityCriteria([UG, PG], Some(["Engineering", "Science", "Mathematics", "Computer Science"]),
      None, None, false, false),
    VisibilityLevel.Medium, ImpactLevel.Medium, "Internship")

  const StateMeritScholarship := Opportunity(
    "state-govt-merit-scholarship",
    "State Government Merit Scholarships",
    "Merit-based scholarships offered by state governments",
    EligibilityCriteria(AllLevels, None, None, None, false, true),
    VisibilityLevel.Low, ImpactLevel.Medium, "Scholarship")

  const MoeInnovationPrograms := Opportunity(
    "moe-innovation-programs",
    "Ministry of Education Innovation Programs",
    "Innovation and skill development programs by Ministry of Education",
    EligibilityCriteria(AllLevels, None, None, None, false, false),
    VisibilityLevel.Low, ImpactLevel.Medium, "Program")

  /** `OPPORTUNITIES`, in catalog order. */
  const Catalog: seq<Opportunity> := [
    CentralSectorScholarship, AictePragati, AicteSaksham,
    NptelResearchInternship, StateMeritScholarship, MoeInnovationPrograms
  ]

  /** The search loop of `get_opportunity_by_id`: the first entry of `s` carrying `id`. */
  function FirstWithId(s: seq<Opportunity>, id: string): (r: Option<Opportunity>)
    ensures r.Some? ==> exists i :: 0 <= i < |s| && s[i] == r.value
                          && forall j :: 0 <= j < i ==> s[j].id != id
    ensures r.Some? ==> r.value.id == id
    ensures r.None? <==> forall i :: 0 <= i < |s| ==> s[i].id != id
  {
    if s == [] then None
    else if s[0].id == id then Some(s[0])
    else
      var r := FirstWithId(s[1..], id);
      assert r.Some? ==> exists i :: 1 <= i < |s| && s[i] == r.value
                           && forall j :: 1 <= j < i ==> s[j].id != id
      by {
        if r.Some? {
          var i :| 0 <= i < |s[1..]| && s[1..][i] == r.value
                   && forall j :: 0 <= j < i ==> s[1..][j].id != id;
          assert s[i + 1] == r.value;
          forall j | 1 <= j < i + 1 ensures s[j].id != id {
            assert s[j] == s[1..][j - 1];
          }
        }
      }
      r
  }

  /** `get_opportunity_by_id`. */
  function OpportunityById(id: string): Option<Opportunity> {
    FirstWithId(Catalog, id)
  }

  /** A list comprehension `[o for o in s if f(o)]`. */
  function Filter(s: seq<Opportunity>, f: Opportunity -> bool): (r: seq<Opportunity>)
    ensures |r| <= |s|
    ensures forall x :: x in r <==> x in s && f(x)
  {
    if s == [] then []
    else
      assert s == [s[0]] + s[1..];
      (if f(s[0]) then [s[0]] else []) + Filter(s[1..], f)
  }

  /** Filtering keeps the relative order of what it keeps. */
  lemma {:induction false} FilterConcat(a: seq<Opportunity>, b: seq<Opportunity>, f: Opportunity -> bool)
    ensures Filter(a + b, f) == Filter(a, f) + Filter(b, f)
  {
    if a == [] {
      assert a + b == b;
    } else {
      assert (a + b)[0] == a[0];
      assert (a + b)[1..] == a[1..] + b;
      FilterConcat(a[1..], b, f);
    }
  }

  /** `get_opportunities_by_category`. */
  function OpportunitiesByCategory(category: string): (r: seq<Opportunity>)
    ensures forall o :: o in r <==> o in Catalog && o.category == category
  {
    Filter(Catalog, (o: Opportunity) => o.category == category)
  }

  /** `get_opportunities_by_education_level`. */
  function OpportunitiesByEducationLevel(level: EducationLevel): (r: seq<Opportunity>)
    ensures forall o :: o in r <==> o in Catalog && level in o.eligibility_criteria.education_levels
  {
    Filter(Catalog, (o: Opportunity) => level in o.eligibility_criteria.education_levels)
  }

  /** Accepts every education level and sets no other restriction. */
  predicate OpenToAll(o: Opportunity) {
    && (forall l: EducationLevel :: l in o.eligibility_criteria.education_levels)
    && o.eligibility_criteria.fields_of_study.None?
    && o.eligibility_criteria.institution_types.None?
    && o.eligibility_criteria.background_requirements.None?
  }

  /** Every entry names at least one education level and ids are pairwise distinct. */
  lemma CatalogWellFormed()
    ensures forall o :: o in Catalog ==> |o.eligibility_criteria.education_levels| > 0
    ensures forall i, j :: 0 <= i < j < |Catalog| ==> Catalog[i].id != Catalog[j].id
  {
  }

  /** Looking up the id of any entry yields that entry. */
  lemma EveryEntryFoundById()
    ensures forall i :: 0 <= i < |Catalog| ==> OpportunityById(Catalog[i].id) == Some(Catalog[i])
  {
    CatalogWellFormed();
    forall i | 0 <= i < |Catalog|
      ensures OpportunityById(Catalog[i].id) == Some(Catalog[i])
    {
      var r := FirstWithId(Catalog, Catalog[i].id);
      var k :| 0 <= k < |Catalog| && Catalog[k] == r.value
               && forall j :: 0 <= j < k ==> Catalog[j].id != Catalog[i].id;
      assert k == i;
    }
  }

  /** The two state and ministry entries are open to every student. */
  lemma TwoEntriesOpenToAll()
    ensures |Catalog| == 6
    ensures OpenToAll(Catalog[4]) && OpenToAll(Catalog[5])
  {
    forall l: EducationLevel ensures l in AllLevels {
      match l
      case Diploma => assert AllLevels[0] == l;
      case UG => assert AllLevels[1] == l;
      case PG => assert AllLevels[2] == l;
      case PhD => assert AllLevels[3] == l;
    }
  }
}
