/** The employee records the core reads (the `employees` list of the dataset). */
module Roster {
  import opened Text

  /**
   * One record. A record lacking `skills` or `projects` is modelled with an empty
   * sequence, one lacking `experience_years` with 0, one lacking `availability`
   * with "", which are the defaults the source's `e.get(...)` calls supply.
   */
  datatype Employee = Employee(
    name: string,
    skills: seq<string>,
    projects: seq<string>,
    experienceYears: int,
    availability: string)

  /** `{s.lower() for s in skills}` */
  function SkillWords(skills: seq<string>): set<string>
  {
    set s | s in skills :: Lower(s)
  }
}
