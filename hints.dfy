/**
 * The hint extractor: `parse_hints` of backend/main.py turns a free-text query into
 * the skills, minimum experience, domain and availability the scorer looks for.
 */
module HintExtractor {
  import opened Wrappers
  import opened Text
  import opened Roster

  datatype QueryHints = QueryHints(
    skills: set<string>,
    minExp: Option<nat>,
    domain: Option<string>,
    availability: Option<string>)

  /** The hints of a query in which nothing was recognised. */
  const NoHints := QueryHints({}, None, None, None)

  /** The domain keywords, in the order in which they are tried. */
  const Domains: seq<string> :=
    ["healthcare", "fintech", "e-commerce", "edtech", "retail", "logistics", "ai", "cv", "nlp", "ml"]

  // ---------------------------------------------------------------- skills

  /** `known_skills`: every skill of every record, lower-cased. */
  function Vocabulary(db: seq<Employee>): set<string>
    decreases |db|
  {
    if db == [] then {} else Vocabulary(db[..|db| - 1]) + SkillWords(db[|db| - 1].skills)
  }

  /** A word is in the vocabulary exactly when some record lists a skill that lower-cases to it. */
  lemma {:induction false} VocabularyMembership(db: seq<Employee>, w: string)
    ensures w in Vocabulary(db) <==>
      exists i, k :: 0 <= i < |db| && 0 <= k < |db[i].skills| && Lower(db[i].skills[k]) == w
    decreases |db|
  {
    if db != [] {
      var init, last := db[..|db| - 1], db[|db| - 1];
      VocabularyMembership(init, w);
      if w in SkillWords(last.skills) {
        var s :| s in last.skills && Lower(s) == w;
        var k :| 0 <= k < |last.skills| && last.skills[k] == s;
        assert Lower(db[|db| - 1].skills[k]) == w;
      }
      if exists i, k :: 0 <= i < |db| && 0 <= k < |db[i].skills| && Lower(db[i].skills[k]) == w {
        var i, k :| 0 <= i < |db| && 0 <= k < |db[i].skills| && Lower(db[i].skills[k]) == w;
        if i < |db| - 1 {
          assert init[i] == db[i];
        } else {
          assert last.skills[k] in last.skills;
        }
      }
    }
  }

  // ------------------------------------------------------- minimum experience

  /**
   * The pattern `(\d+)\+?\s*(years|yrs|year)` matches at position `i`: a greedy digit run,
   * an optional `+`, any whitespace, then `year` (which covers `years`) or `yrs`.
   * Backtracking never helps this pattern, so the greedy reading is the only one.
   */
  predicate ExperienceAt(ql: string, i: nat)
  {
    i < |ql| && IsDigit(ql[i]) &&
    var j := SpanEnd(ql, i, IsDigit);
    var k := if j < |ql| && ql[j] == '+' then j + 1 else j;
    var m := SpanEnd(ql, k, IsSpace);
    StartsWith(ql[m..], "year") || StartsWith(ql[m..], "yrs")
  }

  /** `int(m.group(1))` for a match at position `i`. */
  function ExperienceValue(ql: string, i: nat): nat
    requires i <= |ql|
  {
    var j := SpanEnd(ql, i, IsDigit);
    assert AllDigits(ql[i..j]);
    DigitsValue(ql[i..j])
  }

  /** `re.search` for the experience pattern, trying positions from `i` on. */
  function ExperienceFrom(ql: string, i: nat): Option<nat>
    requires i <= |ql|
    decreases |ql| - i
  {
    if i == |ql| then None
    else if ExperienceAt(ql, i) then Some(ExperienceValue(ql, i))
    else ExperienceFrom(ql, i + 1)
  }

  function ExperienceBound(ql: string): Option<nat>
  {
    ExperienceFrom(ql, 0)
  }

  /** `i` is the leftmost position at which the experience pattern matches. */
  predicate FirstExperienceAt(ql: string, i: nat)
  {
    i < |ql| && ExperienceAt(ql, i) && forall i' :: 0 <= i' < i ==> !ExperienceAt(ql, i')
  }

  lemma {:induction false} ExperienceFromIsFirstMatch(ql: string, k: nat)
    requires k <= |ql|
    requires forall i :: 0 <= i < k ==> !ExperienceAt(ql, i)
    ensures ExperienceFrom(ql, k).None? <==> forall i :: 0 <= i < |ql| ==> !ExperienceAt(ql, i)
    ensures ExperienceFrom(ql, k).Some? ==>
      exists i: nat :: FirstExperienceAt(ql, i) && ExperienceFrom(ql, k).value == ExperienceValue(ql, i)
    decreases |ql| - k
  {
    if k < |ql| {
      if ExperienceAt(ql, k) {
        assert FirstExperienceAt(ql, k);
      } else {
        ExperienceFromIsFirstMatch(ql, k + 1);
      }
    }
  }

  /** The leftmost match starts a maximal digit run: a match cannot begin inside a number. */
  lemma FirstMatchStartsDigitRun(ql: string, i: nat)
    requires FirstExperienceAt(ql, i)
    ensures i == 0 || !IsDigit(ql[i - 1])
  {
    if i > 0 && IsDigit(ql[i - 1]) {
      assert SpanEnd(ql, i - 1, IsDigit) == SpanEnd(ql, i, IsDigit);
      assert ExperienceAt(ql, i - 1);
    }
  }

  /**
   * `min_exp` is unset exactly when the pattern matches nowhere, and otherwise is the
   * value of the digit run of the leftmost match, which begins a maximal digit run.
   */
  lemma ExperienceBoundIsFirstMatch(ql: string)
    ensures ExperienceBound(ql).None? <==> forall i :: 0 <= i < |ql| ==> !ExperienceAt(ql, i)
    ensures ExperienceBound(ql).Some? ==>
      exists i: nat :: FirstExperienceAt(ql, i) && ExperienceBound(ql).value == ExperienceValue(ql, i)
        && (i == 0 || !IsDigit(ql[i - 1]))
  {
    ExperienceFromIsFirstMatch(ql, 0);
    if ExperienceBound(ql).Some? {
      var i: nat :| FirstExperienceAt(ql, i) && ExperienceBound(ql).value == ExperienceValue(ql, i);
      FirstMatchStartsDigitRun(ql, i);
    }
  }

  /** A number written before ` years` is read back as the minimum experience. */
  lemma ExperienceOfYearsPhrase(n: nat)
    ensures ExperienceBound(NatText(n) + " years") == Some(n)
  {
    var d := NatText(n);
    var ql := d + " years";
    assert ql[..|d|] == d;
    assert ql[|d|] == ' ';
    SpanEndUnique(ql, 0, |d|, IsDigit);
    SpanEndUnique(ql, |d|, |d| + 1, IsSpace);
    assert ql[|d| + 1..] == "years";
    assert ExperienceAt(ql, 0);
    assert ql[0..|d|] == d;
    NatTextRoundTrip(n);
  }

  /** `\s` also matches the ASCII separators U+001C to U+001F between the number and the unit. */
  lemma ExperienceAcrossSeparator()
    ensures ExperienceBound("3\U{1F}years") == Some(3)
  {
    var ql := "3\U{1F}years";
    SpanEndUnique(ql, 0, 1, IsDigit);
    SpanEndUnique(ql, 1, 2, IsSpace);
    assert ql[2..] == "years";
    assert ExperienceAt(ql, 0);
    assert ql[0..1] == "3" == NatText(3);
    NatTextRoundTrip(3);
  }

  // ------------------------------------------------------------------- domain

  /** The first of `ds`, in list order, that occurs in `ql`. */
  function FirstContained(ql: string, ds: seq<string>): Option<string>
    decreases |ds|
  {
    if ds == [] then None
    else if Contains(ql, ds[0]) then Some(ds[0])
    else FirstContained(ql, ds[1..])
  }

  /**
   * The domain is unset exactly when no keyword occurs; otherwise it is the keyword with the
   * smallest index in the list that occurs, wherever it stands in the query.
   */
  lemma {:induction false} FirstContainedIsFirstInList(ql: string, ds: seq<string>)
    ensures FirstContained(ql, ds).None? <==> forall j :: 0 <= j < |ds| ==> !Contains(ql, ds[j])
    ensures FirstContained(ql, ds).Some? ==>
      exists j :: 0 <= j < |ds| && ds[j] == FirstContained(ql, ds).value && Contains(ql, ds[j])
        && forall j' :: 0 <= j' < j ==> !Contains(ql, ds[j'])
    decreases |ds|
  {
    if ds != [] && !Contains(ql, ds[0]) {
      FirstContainedIsFirstInList(ql, ds[1..]);
      if FirstContained(ql, ds[1..]).Some? {
        var j :| 0 <= j < |ds[1..]| && ds[1..][j] == FirstContained(ql, ds[1..]).value && Contains(ql, ds[1..][j])
          && forall j' :: 0 <= j' < j ==> !Contains(ql, ds[1..][j']);
        assert ds[j + 1] == FirstContained(ql, ds).value;
      }
    }
  }

  /**
   * `ai` is a keyword and a substring of `available`: a query that names none of the six
   * keywords listed before `ai` but contains `available` gets the domain `ai`.
   */
  lemma AvailableGivesAiDomain(ql: string)
    requires Contains(ql, "available")
    requires forall j :: 0 <= j < 6 ==> !Contains(ql, Domains[j])
    ensures FirstContained(ql, Domains) == Some("ai")
  {
    var i :| 0 <= i <= |ql| && OccursAt(ql, "available", i);
    assert ql[i..i + 9] == "available";
    assert ql[i + 2..i + 4] == ql[i..i + 9][2..4];
    assert "available"[2..4] == "ai";
    assert OccursAt(ql, "ai", i + 2);
    assert Domains[6..][0] == "ai";
    assert FirstContained(ql, Domains) == FirstContained(ql, Domains[6..]) by {
      assert !Contains(ql, Domains[0]) && !Contains(ql, Domains[1]) && !Contains(ql, Domains[2]);
      assert !Contains(ql, Domains[3]) && !Contains(ql, Domains[4]) && !Contains(ql, Domains[5]);
      assert Domains[1..][1..][1..][1..][1..][1..] == Domains[6..];
    }
  }

  // ------------------------------------------------------------- availability

  /** Three unconditional overwrites in the order available, busy, notice: the last that occurs wins. */
  function AvailabilityOf(ql: string): Option<string>
  {
    if Contains(ql, "notice") then Some("notice")
    else if Contains(ql, "busy") then Some("busy")
    else if Contains(ql, "available") then Some("available")
    else None
  }

  // ------------------------------------------------------------------- parse

  /** What `parse_hints(q)` returns when the dataset is `db`. */
  function HintsOf(q: string, db: seq<Employee>): QueryHints
  {
    var ql := Lower(q);
    QueryHints(
      (set t | t in Tokens(ql) && t in Vocabulary(db)),
      ExperienceBound(ql),
      FirstContained(ql, Domains),
      AvailabilityOf(ql))
  }

  /**
   * A hint skill is exactly a word that is both a maximal `[a-zA-Z+#]` run of the lower-cased
   * query and the lower-cased form of some skill some record lists.
   */
  lemma HintSkillsAreQueryTokensInVocabulary(q: string, db: seq<Employee>, t: string)
    ensures t in HintsOf(q, db).skills <==>
      (exists i, j :: MaximalRun(Lower(q), i, j) && Lower(q)[i..j] == t) &&
      (exists i, k :: 0 <= i < |db| && 0 <= k < |db[i].skills| && Lower(db[i].skills[k]) == t)
  {
    var ql := Lower(q);
    VocabularyMembership(db, t);
    if t in Tokens(ql) {
      TokensAreMaximalRuns(ql, t);
    }
    if exists i, j :: MaximalRun(ql, i, j) && ql[i..j] == t {
      var i, j :| MaximalRun(ql, i, j) && ql[i..j] == t;
      MaximalRunIsToken(ql, i, j);
    }
  }

  /** `parse_hints`: the dataset is a parameter instead of the global `DB`. */
  method ParseHints(q: string, db: seq<Employee>) returns (h: QueryHints)
    ensures h == HintsOf(q, db)
  {
    var ql := Lower(q);
    h := NoHints;
    var m := ExperienceBound(ql);
    if m.Some? {
      h := h.(minExp := Some(m.value));
    }
    var tokens := Tokens(ql);
    var known: set<string> := {};
    for i := 0 to |db|
      invariant known == Vocabulary(db[..i])
    {
      var skills := db[i].skills;
      for k := 0 to |skills|
        invariant known == Vocabulary(db[..i]) + SkillWords(skills[..k])
      {
        assert skills[..k + 1] == skills[..k] + [skills[k]];
        known := known + {Lower(skills[k])};
      }
      assert skills[..|skills|] == skills;
      assert db[..i + 1][..i] == db[..i];
    }
    assert db[..|db|] == db;
    for i := 0 to |tokens|
      invariant h.skills == set t | t in tokens[..i] && t in known
      invariant h.minExp == ExperienceBound(ql) && h.domain == None && h.availability == None
    {
      assert tokens[..i + 1] == tokens[..i] + [tokens[i]];
      if tokens[i] in known {
        h := h.(skills := h.skills + {tokens[i]});
      }
    }
    assert tokens[..|tokens|] == tokens;
    var i := 0;
    while i < |Domains|
      invariant 0 <= i <= |Domains|
      invariant FirstContained(ql, Domains) == FirstContained(ql, Domains[i..])
      invariant h.domain == None && h.availability == None
    {
      if Contains(ql, Domains[i]) {
        h := h.(domain := Some(Domains[i]));
        break;
      }
      assert Domains[i..][1..] == Domains[i + 1..];
      i := i + 1;
    }
    if Contains(ql, "available") {
      h := h.(availability := Some("available"));
    }
    if Contains(ql, "busy") {
      h := h.(availability := Some("busy"));
    }
    if Contains(ql, "notice") {
      h := h.(availability := Some("notice"));
    }
  }
}
