/**
 * `search_employees` of backend/main.py: an exact filter over the dataset. A filter that is
 * absent (None, an empty skill list, an empty availability string) does not apply.
 */
module Search {
  import opened Wrappers
  import opened Seqs
  import opened Text
  import opened Roster

  /** `{s.lower() for s in skill}` is a subset of the record's lower-cased skills. */
  predicate HasSkills(e: Employee, wanted: seq<string>)
  {
    SkillWords(wanted) <= SkillWords(e.skills)
  }

  /** The record passes every filter that is supplied. */
  predicate MatchesFilters(e: Employee, skill: Option<seq<string>>, minExperience: Option<int>,
                           availability: Option<string>)
  {
    && (skill.None? || skill.value == [] || HasSkills(e, skill.value))
    && (minExperience.None? || e.experienceYears >= minExperience.value)
    && (availability.None? || availability.value == "" || Lower(e.availability) == Lower(availability.value))
  }

  /**
   * The three comprehensions, applied in the source's order. The result holds exactly the
   * records that pass every filter, each as often as it occurs in the dataset, in dataset order.
   */
  function SearchEmployees(db: seq<Employee>, skill: Option<seq<string>>, minExperience: Option<int>,
                           availability: Option<string>): (r: seq<Employee>)
    ensures IsSubsequence(r, db)
    ensures forall e :: multiset(r)[e] == if MatchesFilters(e, skill, minExperience, availability)
                                          then multiset(db)[e] else 0
    ensures ((skill.None? || skill.value == []) && minExperience.None?
             && (availability.None? || availability.value == "")) ==> r == db
  {
    var bySkill: seq<Employee> :=
      if skill.Some? && skill.value != [] then Filter(db, (e: Employee) => HasSkills(e, skill.value)) else db;
    var byExperience :=
      if minExperience.Some? then Filter(bySkill, (e: Employee) => e.experienceYears >= minExperience.value) else bySkill;
    var byAvailability :=
      if availability.Some? && availability.value != ""
      then Filter(byExperience, (e: Employee) => Lower(e.availability) == Lower(availability.value))
      else byExperience;
    SubsequenceReflexive(db);
    SubsequenceReflexive(bySkill);
    SubsequenceReflexive(byExperience);
    SubsequenceTransitive(byExperience, bySkill, db);
    SubsequenceTransitive(byAvailability, byExperience, db);
    byAvailability
  }
}
