/**
 * The ranking pipeline of `chat` in backend/main.py: a primary scoring pass, a keyword
 * fallback pass when the primary pass keeps nothing, a stable sort by descending score and
 * the truncation to `top_k`. The pipeline is stated for any pair of scoring functions and
 * then instantiated with the two scores of `Scoring`.
 */
module Ranking {
  import opened Seqs
  import opened Text
  import opened Roster
  import opened HintExtractor
  import opened Scoring

  /** A record with its score in tenths: the `(s, e)` pairs of `scored`. */
  datatype Candidate = Candidate(employee: Employee, score: nat)

  /** The primary score of every record for one query. */
  function PrimaryScore(h: QueryHints, query: string): Employee -> nat
  {
    (e: Employee) => Score(e, h, query)
  }

  /** The fallback score of every record for one query. */
  function FallbackScore(query: string): Employee -> nat
  {
    (e: Employee) => KeywordPoints(e, query)
  }

  function Employees(cs: seq<Candidate>): (r: seq<Employee>)
    ensures |r| == |cs| && forall i :: 0 <= i < |cs| ==> r[i] == cs[i].employee
    decreases |cs|
  {
    if cs == [] then [] else Employees(cs[..|cs| - 1]) + [cs[|cs| - 1].employee]
  }

  lemma EmployeesSnoc(cs: seq<Candidate>, c: Candidate)
    ensures Employees(cs + [c]) == Employees(cs) + [c.employee]
  {
    assert (cs + [c])[..|cs|] == cs;
  }

  lemma {:induction false} EmployeesSubsequence(a: seq<Candidate>, b: seq<Candidate>)
    requires IsSubsequence(a, b)
    ensures IsSubsequence(Employees(a), Employees(b))
    decreases |b|
  {
    if a != [] {
      assert Employees(b)[1..] == Employees(b[1..]);
      assert Employees(a)[1..] == Employees(a[1..]);
      if a[0] == b[0] && IsSubsequence(a[1..], b[1..]) {
        EmployeesSubsequence(a[1..], b[1..]);
      } else {
        EmployeesSubsequence(a, b[1..]);
      }
    }
  }

  // ------------------------------------------------------------------ passes

  /**
   * One scoring pass over the dataset: every record whose score is positive, paired with
   * its score, in dataset order.
   */
  function Candidates(db: seq<Employee>, score: Employee -> nat): (r: seq<Candidate>)
    ensures |r| <= |db|
    ensures forall c :: c in r ==> c.score == score(c.employee) > 0
    decreases |db|
  {
    if db == [] then []
    else
      var init, e := db[..|db| - 1], db[|db| - 1];
      var prev := Candidates(init, score);
      if score(e) > 0 then prev + [Candidate(e, score(e))] else prev
  }

  /** A pass keeps the records in dataset order. */
  lemma {:induction false} CandidatesInOrder(db: seq<Employee>, score: Employee -> nat)
    ensures IsSubsequence(Employees(Candidates(db, score)), db)
    decreases |db|
  {
    if db != [] {
      var init, e := db[..|db| - 1], db[|db| - 1];
      assert db == init + [e];
      CandidatesInOrder(init, score);
      var prev := Candidates(init, score);
      if score(e) > 0 {
        EmployeesSnoc(prev, Candidate(e, score(e)));
        SubsequenceSnoc(Employees(prev), init, e);
      } else {
        SubsequenceExtend(Employees(prev), init, e);
      }
    }
  }

  /** A pass keeps each record with a positive score as often as the dataset holds it, and no other. */
  lemma {:induction false} CandidatesKeep(db: seq<Employee>, score: Employee -> nat, e: Employee)
    ensures multiset(Employees(Candidates(db, score)))[e] == if score(e) > 0 then multiset(db)[e] else 0
    decreases |db|
  {
    if db != [] {
      var init, last := db[..|db| - 1], db[|db| - 1];
      assert db == init + [last];
      CandidatesKeep(init, score, e);
      var prev := Candidates(init, score);
      var one := if last == e then 1 else 0;
      assert multiset(db)[e] == multiset(init)[e] + one by {
        assert multiset(db) == multiset(init) + multiset{last};
      }
      if score(last) > 0 {
        assert multiset(Employees(Candidates(db, score)))[e] == multiset(Employees(prev))[e] + one by {
          assert Candidates(db, score) == prev + [Candidate(last, score(last))];
          EmployeesSnoc(prev, Candidate(last, score(last)));
          assert multiset(Employees(prev) + [last]) == multiset(Employees(prev)) + multiset{last};
        }
      } else {
        assert Candidates(db, score) == prev;
      }
    }
  }

  /** A pass keeps nothing exactly when no record of the dataset scores above zero. */
  lemma CandidatesEmpty(db: seq<Employee>, score: Employee -> nat)
    ensures Candidates(db, score) == [] <==> forall e :: e in db ==> score(e) == 0
  {
    if e :| e in db && score(e) > 0 {
      CandidatesKeep(db, score, e);
      assert multiset(Employees(Candidates(db, score)))[e] > 0;
    }
  }

  // ------------------------------------------------------------------ sort

  predicate NonIncreasing(cs: seq<Candidate>)
  {
    forall i, j :: 0 <= i < j < |cs| ==> cs[i].score >= cs[j].score
  }

  /** The candidates with score `v`, in their order in `cs`. */
  function WithScore(cs: seq<Candidate>, v: nat): (r: seq<Candidate>)
    ensures IsSubsequence(r, cs)
    ensures forall c :: c in r ==> c in cs && c.score == v
    decreases |cs|
  {
    if cs == [] then []
    else
      var rest := WithScore(cs[1..], v);
      if cs[0].score == v then
        assert ([cs[0]] + rest)[1..] == rest;
        [cs[0]] + rest
      else
        rest
  }

  /** The candidates of score `v` in a prefix are a prefix of those in the whole sequence. */
  lemma {:induction false} WithScorePrefix(cs: seq<Candidate>, n: nat, v: nat)
    requires n <= |cs|
    ensures IsPrefix(WithScore(cs[..n], v), WithScore(cs, v))
    decreases n
  {
    if n > 0 {
      var t := cs[..n];
      assert t[0] == cs[0];
      assert t[1..] == cs[1..][..n - 1];
      WithScorePrefix(cs[1..], n - 1, v);
      if cs[0].score == v {
        PrefixPrepend([cs[0]], WithScore(t[1..], v), WithScore(cs[1..], v));
      }
    }
  }

  lemma WithScoreCons(c: Candidate, r: seq<Candidate>, v: nat)
    ensures WithScore([c] + r, v) == (if c.score == v then [c] else []) + WithScore(r, v)
  {
    assert ([c] + r)[1..] == r;
  }

  lemma ConsNonIncreasing(c: Candidate, r: seq<Candidate>)
    requires NonIncreasing(r)
    requires r == [] || r[0].score <= c.score
    ensures NonIncreasing([c] + r)
  {
  }

  /** Places `c` in front of the first candidate whose score is not greater than its own. */
  function InsertByScore(c: Candidate, r: seq<Candidate>): (r': seq<Candidate>)
    ensures multiset(r') == multiset(r) + multiset{c}
    ensures NonIncreasing(r) ==> NonIncreasing(r')
    ensures r'[0] == c || (r != [] && r'[0] == r[0])
    decreases |r|
  {
    if r == [] || r[0].score <= c.score then
      if NonIncreasing(r) then ConsNonIncreasing(c, r); [c] + r else [c] + r
    else
      var rest := InsertByScore(c, r[1..]);
      assert r == [r[0]] + r[1..];
      assert multiset([r[0]] + rest) == multiset{r[0]} + multiset(rest);
      if NonIncreasing(r) then
        assert NonIncreasing(r[1..]);
        ConsNonIncreasing(r[0], rest);
        [r[0]] + rest
      else
        [r[0]] + rest
  }

  /** Inserting `c` puts it before every candidate of its own score. */
  lemma {:induction false} InsertByScoreGroups(c: Candidate, r: seq<Candidate>, v: nat)
    ensures WithScore(InsertByScore(c, r), v) == (if c.score == v then [c] else []) + WithScore(r, v)
    decreases |r|
  {
    if r == [] || r[0].score <= c.score {
      WithScoreCons(c, r, v);
    } else {
      var rest := InsertByScore(c, r[1..]);
      assert InsertByScore(c, r) == [r[0]] + rest;
      assert r == [r[0]] + r[1..];
      InsertByScoreGroups(c, r[1..], v);
      WithScoreCons(r[0], rest, v);
      WithScoreCons(r[0], r[1..], v);
      if c.score == v {
        assert r[0].score != v;
      } else {
        assert (if c.score == v then [c] else []) == [];
      }
    }
  }

  /**
   * `scored.sort(key=lambda x: -x[0])`, a sort by descending score: the result is a
   * permutation of the input whose scores do not increase. `SortKeepsGroups` states that it
   * is stable.
   */
  function SortByScore(s: seq<Candidate>): (r: seq<Candidate>)
    ensures multiset(r) == multiset(s)
    ensures NonIncreasing(r)
    decreases |s|
  {
    if s == [] then []
    else
      assert s == [s[0]] + s[1..];
      InsertByScore(s[0], SortByScore(s[1..]))
  }

  /** The sort is stable: for every score, the candidates with that score keep their order. */
  lemma {:induction false} SortKeepsGroups(s: seq<Candidate>, v: nat)
    ensures WithScore(SortByScore(s), v) == WithScore(s, v)
    decreases |s|
  {
    if s != [] {
      assert s == [s[0]] + s[1..];
      SortKeepsGroups(s[1..], v);
      InsertByScoreGroups(s[0], SortByScore(s[1..]), v);
      WithScoreCons(s[0], s[1..], v);
    }
  }

  /**
   * A non-increasing sequence is determined by its per-score subsequences, so every stable
   * descending sort (Python's `list.sort` included) returns `SortByScore` of its input.
   */
  lemma {:induction false} StableSortIsUnique(r1: seq<Candidate>, r2: seq<Candidate>)
    requires NonIncreasing(r1) && NonIncreasing(r2)
    requires forall v :: WithScore(r1, v) == WithScore(r2, v)
    ensures r1 == r2
    decreases |r1| + |r2|
  {
    if r1 == [] && r2 == [] {
    } else if r1 == [] {
      assert r2 == [r2[0]] + r2[1..];
      WithScoreCons(r2[0], r2[1..], r2[0].score);
      assert WithScore(r1, r2[0].score) != WithScore(r2, r2[0].score);
      assert false;
    } else if r2 == [] {
      assert r1 == [r1[0]] + r1[1..];
      WithScoreCons(r1[0], r1[1..], r1[0].score);
      assert WithScore(r1, r1[0].score) != WithScore(r2, r1[0].score);
      assert false;
    } else {
      assert r1 == [r1[0]] + r1[1..];
      assert r2 == [r2[0]] + r2[1..];
      var m1, m2 := r1[0].score, r2[0].score;
      WithScoreCons(r1[0], r1[1..], m1);
      WithScoreCons(r2[0], r2[1..], m2);
      LeadingScoreBound(r2, m1);
      LeadingScoreBound(r1, m2);
      forall v
        ensures WithScore(r1[1..], v) == WithScore(r2[1..], v)
      {
        WithScoreCons(r1[0], r1[1..], v);
        WithScoreCons(r2[0], r2[1..], v);
      }
      StableSortIsUnique(r1[1..], r2[1..]);
    }
  }

  /** In a non-increasing sequence with a candidate of score `m`, the first score is at least `m`. */
  lemma LeadingScoreBound(r: seq<Candidate>, m: nat)
    requires NonIncreasing(r) && r != []
    requires WithScore(r, m) != []
    ensures r[0].score >= m
  {
    var c := WithScore(r, m)[0];
    assert c in WithScore(r, m);
  }

  // --------------------------------------------------------------- pipeline

  /** The `scored` list just before it is sorted: the fallback pass runs when the primary one keeps nothing. */
  function ScoredWith(db: seq<Employee>, primary: Employee -> nat, fallback: Employee -> nat): seq<Candidate>
  {
    var first := Candidates(db, primary);
    if first != [] then first else Candidates(db, fallback)
  }

  /** `scored[:top_k]` after the sort. */
  function RankedWith(db: seq<Employee>, primary: Employee -> nat, fallback: Employee -> nat, topK: int): seq<Candidate>
  {
    TakeFirst(SortByScore(ScoredWith(db, primary, fallback)), topK)
  }

  function Scored(db: seq<Employee>, query: string): seq<Candidate>
  {
    ScoredWith(db, PrimaryScore(HintsOf(query, db), query), FallbackScore(query))
  }

  /** The candidates `chat` returns for `query` over the dataset `db`. */
  function Ranked(db: seq<Employee>, query: string, topK: int): seq<Candidate>
  {
    RankedWith(db, PrimaryScore(HintsOf(query, db), query), FallbackScore(query), topK)
  }

  /**
   * The returned candidates all have a positive score, their scores do not increase, they are
   * a prefix of the sorted list of `min(top_k, #scored)` entries when `top_k >= 0` (Python
   * slicing drops `-top_k` from the end otherwise), and for every score the candidates with
   * that score appear in dataset order.
   */
  lemma RankedProperties(db: seq<Employee>, primary: Employee -> nat, fallback: Employee -> nat, topK: int)
    ensures forall c :: c in RankedWith(db, primary, fallback, topK) ==> c.score > 0
    ensures NonIncreasing(RankedWith(db, primary, fallback, topK))
    ensures IsPrefix(RankedWith(db, primary, fallback, topK), SortByScore(ScoredWith(db, primary, fallback)))
    ensures topK >= 0 ==> |RankedWith(db, primary, fallback, topK)| == Min(topK, |ScoredWith(db, primary, fallback)|)
    ensures topK < 0 ==> |RankedWith(db, primary, fallback, topK)| == Max(0, |ScoredWith(db, primary, fallback)| + topK)
    ensures forall v :: IsSubsequence(Employees(WithScore(RankedWith(db, primary, fallback, topK), v)), db)
  {
    var scored := ScoredWith(db, primary, fallback);
    var sorted := SortByScore(scored);
    var top := RankedWith(db, primary, fallback, topK);
    forall c | c in top
      ensures c.score > 0
    {
      assert c in sorted by {
        assert top == sorted[..|top|];
      }
      assert multiset(sorted)[c] > 0;
      assert c in scored;
    }
    assert NonIncreasing(top) by {
      assert top == sorted[..|top|];
    }
    forall v
      ensures IsSubsequence(Employees(WithScore(top, v)), db)
    {
      RankedGroupInOrder(db, primary, fallback, topK, v);
    }
  }

  /** The returned candidates of one score appear in dataset order. */
  lemma RankedGroupInOrder(db: seq<Employee>, primary: Employee -> nat, fallback: Employee -> nat, topK: int, v: nat)
    ensures IsSubsequence(Employees(WithScore(RankedWith(db, primary, fallback, topK), v)), db)
  {
    var scored := ScoredWith(db, primary, fallback);
    var sorted := SortByScore(scored);
    var top := RankedWith(db, primary, fallback, topK);
    assert top == sorted[..|top|];
    CandidatesInOrder(db, primary);
    CandidatesInOrder(db, fallback);
    WithScorePrefix(sorted, |top|, v);
    SortKeepsGroups(scored, v);
    PrefixIsSubsequence(WithScore(top, v), WithScore(sorted, v));
    SubsequenceTransitive(WithScore(top, v), WithScore(scored, v), scored);
    EmployeesSubsequence(WithScore(top, v), scored);
    SubsequenceTransitive(Employees(WithScore(top, v)), Employees(scored), db);
  }

  /** When some record scores above zero in the primary pass, the fallback pass is not used. */
  lemma PrimaryDecides(db: seq<Employee>, query: string, e: Employee)
    requires e in db && Score(e, HintsOf(query, db), query) > 0
    ensures Scored(db, query) == Candidates(db, PrimaryScore(HintsOf(query, db), query))
    ensures Scored(db, query) != []
  {
    var primary := PrimaryScore(HintsOf(query, db), query);
    assert primary(e) > 0;
    CandidatesEmpty(db, primary);
  }

  /**
   * The fallback pass runs exactly when no record scores above zero in the primary pass, and
   * then a record that mentions a word of the query makes the result non-empty.
   */
  lemma FallbackActivation(db: seq<Employee>, query: string, topK: int, e: Employee, w: string)
    requires forall e' :: e' in db ==> Score(e', HintsOf(query, db), query) == 0
    requires e in db && w in Tokens(Lower(query)) && MentionsWord(e, w)
    requires topK > 0
    ensures Scored(db, query) == Candidates(db, FallbackScore(query))
    ensures Ranked(db, query, topK) != []
  {
    var primary, fallback := PrimaryScore(HintsOf(query, db), query), FallbackScore(query);
    CandidatesEmpty(db, primary);
    KeywordPointsPositive(e, query);
    assert fallback(e) > 0;
    CandidatesEmpty(db, fallback);
    RankedProperties(db, primary, fallback, topK);
  }
}
