/**
 * The relevance scores of backend/main.py, in tenths of a point so that the arithmetic is
 * exact: 1.0 is 10, 1.2 is 12, 0.8 is 8, 0.5 is 5 and 0.1 is 1.
 * `score_employee` is the primary score; the keyword count inside `chat` is the fallback score.
 */
module Scoring {
  import opened Text
  import opened Roster
  import opened HintExtractor

  // ---------------------------------------------------------- primary score

  /** 1.0 per hint skill the record lists (compared lower-cased). */
  function SkillPoints(e: Employee, h: QueryHints): nat
  {
    10 * |SkillWords(e.skills) * h.skills|
  }

  /** The number of projects whose lower-cased text contains `d`. */
  function ProjectsMentioning(projects: seq<string>, d: string): (n: nat)
    ensures n <= |projects|
    ensures n == 0 <==> forall k :: 0 <= k < |projects| ==> !Contains(Lower(projects[k]), d)
    ensures n == |projects| <==> forall k :: 0 <= k < |projects| ==> Contains(Lower(projects[k]), d)
    decreases |projects|
  {
    if projects == [] then 0
    else
      var last := projects[|projects| - 1];
      ProjectsMentioning(projects[..|projects| - 1], d) + (if Contains(Lower(last), d) then 1 else 0)
  }

  /** 1.2 for every project that mentions the hint domain: the loop has no `break`. */
  function DomainPoints(e: Employee, h: QueryHints): nat
  {
    if h.domain.Some? then 12 * ProjectsMentioning(e.projects, h.domain.value) else 0
  }

  /** 0.8 when a minimum experience is requested and met. */
  function ExperiencePoints(e: Employee, h: QueryHints): nat
  {
    if h.minExp.Some? && e.experienceYears >= h.minExp.value then 8 else 0
  }

  /** 0.5 when the requested availability equals the record's, lower-cased. */
  function AvailabilityPoints(e: Employee, h: QueryHints): nat
  {
    if h.availability.Some? && Lower(e.availability) == h.availability.value then 5 else 0
  }

  /** The fields whose text is looked for in the query: the literal "name", then skills, then projects. */
  function EchoFields(e: Employee): seq<string>
  {
    ["name"] + e.skills + e.projects
  }

  /** The number of fields whose lower-cased text occurs in `ql`. */
  function FieldsEchoed(fields: seq<string>, ql: string): (n: nat)
    ensures n <= |fields|
    ensures n == 0 <==> forall k :: 0 <= k < |fields| ==> !Contains(ql, Lower(fields[k]))
    decreases |fields|
  {
    if fields == [] then 0
    else
      var last := fields[|fields| - 1];
      FieldsEchoed(fields[..|fields| - 1], ql) + (if Contains(ql, Lower(last)) then 1 else 0)
  }

  /** `score_employee(e, hints, query)`, in tenths. */
  function Score(e: Employee, h: QueryHints, query: string): nat
  {
    SkillPoints(e, h) + DomainPoints(e, h) + ExperiencePoints(e, h) + AvailabilityPoints(e, h)
      + FieldsEchoed(EchoFields(e), Lower(query))
  }

  /** The loop over the projects: 1.2 for every project that mentions `d`. */
  method DomainBonus(projects: seq<string>, d: string) returns (bonus: nat)
    ensures bonus == 12 * ProjectsMentioning(projects, d)
  {
    bonus := 0;
    for i := 0 to |projects|
      invariant bonus == 12 * ProjectsMentioning(projects[..i], d)
    {
      assert projects[..i + 1][..i] == projects[..i];
      if Contains(Lower(projects[i]), d) {
        bonus := bonus + 12;
      }
    }
    assert projects[..|projects|] == projects;
  }

  /** The echo loop: 0.1 for every field whose lower-cased text occurs in `ql`. */
  method EchoBonus(fields: seq<string>, ql: string) returns (bonus: nat)
    ensures bonus == FieldsEchoed(fields, ql)
  {
    bonus := 0;
    for i := 0 to |fields|
      invariant bonus == FieldsEchoed(fields[..i], ql)
    {
      assert fields[..i + 1][..i] == fields[..i];
      if Contains(ql, Lower(fields[i])) {
        bonus := bonus + 1;
      }
    }
    assert fields[..|fields|] == fields;
  }

  method ScoreEmployee(e: Employee, h: QueryHints, query: string) returns (score: nat)
    ensures score == Score(e, h, query)
  {
    score := 0;
    var ql := Lower(query);
    var skills := SkillWords(e.skills);
    var overlap := |skills * h.skills|;
    score := score + 10 * overlap;
    if h.domain.Some? {
      var bonus := DomainBonus(e.projects, h.domain.value);
      score := score + bonus;
    }
    if h.minExp.Some? && e.experienceYears >= h.minExp.value {
      score := score + 8;
    }
    if h.availability.Some? && Lower(e.availability) == h.availability.value {
      score := score + 5;
    }
    var echoed := EchoBonus(["name"] + e.skills + e.projects, ql);
    score := score + echoed;
  }

  lemma {:induction false} FieldsEchoedAppend(a: seq<string>, b: seq<string>, ql: string)
    ensures FieldsEchoed(a + b, ql) == FieldsEchoed(a, ql) + FieldsEchoed(b, ql)
    decreases |b|
  {
    if b == [] {
      assert a + b == a;
    } else {
      assert (a + b)[..|a + b| - 1] == a + b[..|b| - 1];
      FieldsEchoedAppend(a, b[..|b| - 1], ql);
    }
  }

  lemma SkillWordsSnoc(skills: seq<string>, s: string)
    ensures SkillWords(skills + [s]) == SkillWords(skills) + {Lower(s)}
  {
    assert forall x :: x in skills + [s] <==> x in skills || x == s;
  }

  /** Adding a skill adds one field to the echo list and so cannot lower the echo count. */
  lemma EchoGrowsWithSkill(e: Employee, s: string, ql: string)
    ensures FieldsEchoed(EchoFields(e.(skills := e.skills + [s])), ql) >= FieldsEchoed(EchoFields(e), ql)
  {
    var front := ["name"] + e.skills;
    assert EchoFields(e.(skills := e.skills + [s])) == (front + [s]) + e.projects;
    assert EchoFields(e) == front + e.projects;
    FieldsEchoedAppend(front + [s], e.projects, ql);
    FieldsEchoedAppend(front, [s], ql);
    FieldsEchoedAppend(front, e.projects, ql);
  }

  /**
   * A record that additionally lists a hint skill it did not have scores at least 1.0 more:
   * the overlap grows by one and no other part shrinks.
   */
  lemma AddedHintSkillAddsAtLeastOnePoint(e: Employee, h: QueryHints, query: string, s: string)
    requires Lower(s) in h.skills && Lower(s) !in SkillWords(e.skills)
    ensures Score(e.(skills := e.skills + [s]), h, query) >= Score(e, h, query) + 10
  {
    var e' := e.(skills := e.skills + [s]);
    SkillWordsSnoc(e.skills, s);
    assert SkillWords(e'.skills) * h.skills == (SkillWords(e.skills) * h.skills) + {Lower(s)};
    assert SkillPoints(e', h) == SkillPoints(e, h) + 10;
    EchoGrowsWithSkill(e, s, Lower(query));
  }

  /**
   * A further project that mentions the hint domain adds at least 1.2: the domain bonus is
   * paid per matching project, not once per record.
   */
  lemma MatchingProjectAddsDomainBonus(e: Employee, h: QueryHints, query: string, p: string)
    requires h.domain.Some? && Contains(Lower(p), h.domain.value)
    ensures Score(e.(projects := e.projects + [p]), h, query) >= Score(e, h, query) + 12
  {
    var e' := e.(projects := e.projects + [p]);
    var d := h.domain.value;
    assert (e.projects + [p])[..|e.projects|] == e.projects;
    assert EchoFields(e') == EchoFields(e) + [p];
    FieldsEchoedAppend(EchoFields(e), [p], Lower(query));
  }

  /**
   * The echo test looks for the literal word "name", not for the record's name, so the
   * primary score does not depend on the name at all.
   */
  lemma ScoreIgnoresName(e: Employee, h: QueryHints, query: string, name: string)
    ensures Score(e.(name := name), h, query) == Score(e, h, query)
  {
  }

  // --------------------------------------------------------- fallback score

  /** `any(word in str(v).lower() for v in skills + projects + [name])` */
  predicate MentionsWord(e: Employee, w: string)
  {
    exists v :: v in e.skills + e.projects + [e.name] && Contains(Lower(v), w)
  }

  /** The distinct words of the query that some field of the record mentions. */
  function MatchedWords(e: Employee, ql: string): set<string>
  {
    set w | w in Tokens(ql) && MentionsWord(e, w)
  }

  /** The fallback score: 0.5 per distinct query word that the record mentions. */
  function KeywordPoints(e: Employee, query: string): nat
  {
    5 * |MatchedWords(e, Lower(query))|
  }

  /** The fallback score is positive exactly when the record mentions some word of the query. */
  lemma KeywordPointsPositive(e: Employee, query: string)
    ensures KeywordPoints(e, query) > 0 <==> exists w :: w in Tokens(Lower(query)) && MentionsWord(e, w)
  {
    if exists w :: w in Tokens(Lower(query)) && MentionsWord(e, w) {
      var w :| w in Tokens(Lower(query)) && MentionsWord(e, w);
      assert w in MatchedWords(e, Lower(query));
    }
  }

  /** The keyword loop of `chat`, which visits the query's distinct words in any order. */
  method KeywordScore(e: Employee, query: string) returns (s: nat)
    ensures s == KeywordPoints(e, query)
  {
    s := 0;
    var ql := Lower(query);
    var words := set w | w in Tokens(ql);
    var rest := words;
    while rest != {}
      invariant rest <= words
      invariant s == 5 * |set w | w in words - rest && MentionsWord(e, w)|
      decreases |rest|
    {
      var w :| w in rest;
      ghost var done := set x | x in words - rest && MentionsWord(e, x);
      if MentionsWord(e, w) {
        s := s + 5;
      }
      rest := rest - {w};
      assert (set x | x in words - rest && MentionsWord(e, x))
        == if MentionsWord(e, w) then done + {w} else done;
    }
    assert words - rest == words;
    assert (set x | x in words && MentionsWord(e, x)) == MatchedWords(e, ql);
  }
}
