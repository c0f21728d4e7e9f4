/**
 * The `/chat` endpoint of backend/main.py with the transport stripped away: it ranks the
 * dataset against the query and renders the friendly answer text.
 */
module Endpoint {
  import opened Seqs
  import opened Text
  import opened Roster
  import opened HintExtractor
  import opened Scoring
  import opened Ranking

  /** The query between single quotes, as both kinds of answer show it. */
  function Quoted(query: string): string
  {
    "'" + query + "'"
  }

  /** The answer when no candidate is kept. */
  function NoMatchSentence(query: string): string
  {
    "I couldn't find a strong match for: " + Quoted(query) + ". Try adding specific skills or min experience."
  }

  function Header(query: string, n: nat): string
  {
    "Based on your query: " + Quoted(query) + ", here are the top " + NatText(n) + " candidates:"
  }

  /** `str(round(float(s), 3))` for a score of `t` tenths, such as "2.3" or "1.0". */
  function ScoreText(t: nat): string
  {
    NatText(t / 10) + "." + NatText(t % 10)
  }

  /** The lines of the `i`-th candidate (counting from 1); `\U{B7}` is the middle dot. */
  function Block(i: nat, c: Candidate): string
  {
    var e := c.employee;
    NatText(i) + ". " + e.name + " \U{B7} " + IntText(e.experienceYears) + " yrs \U{B7} " + e.availability
      + "\n   Skills: " + Join(", ", e.skills)
      + " \n   Projects: " + Join(", ", e.projects)
      + " \n   Match score: " + ScoreText(c.score)
  }

  const Closing: string := "\nWould you like me to check availability or schedule introductions?"

  /** One block per candidate, numbered from 1 in ranking order. */
  function Blocks(top: seq<Candidate>): (r: seq<string>)
    ensures |r| == |top|
    decreases |top|
  {
    if top == [] then [] else Blocks(top[..|top| - 1]) + [Block(|top|, top[|top| - 1])]
  }

  /** The `i`-th block (from 0) is that of the `i`-th candidate, numbered `i + 1`. */
  lemma {:induction false} BlocksAt(top: seq<Candidate>, i: nat)
    requires i < |top|
    ensures Blocks(top)[i] == Block(i + 1, top[i])
    decreases |top|
  {
    var init := top[..|top| - 1];
    if i < |init| {
      BlocksAt(init, i);
      assert Blocks(top)[i] == Blocks(init)[i] by {
        assert Blocks(top) == Blocks(init) + [Block(|top|, top[|top| - 1])];
      }
      assert init[i] == top[i];
    } else {
      assert Blocks(top)[i] == Block(|top|, top[|top| - 1]) by {
        assert Blocks(top) == Blocks(init) + [Block(|top|, top[|top| - 1])];
      }
    }
  }

  /** The `answer` field of the response for the candidates `top`. */
  function AnswerText(query: string, top: seq<Candidate>): string
  {
    if top == [] then NoMatchSentence(query)
    else Join("\n", [Header(query, |top|)] + Blocks(top) + [Closing])
  }

  method RenderAnswer(query: string, top: seq<Candidate>) returns (answer: string)
    ensures answer == AnswerText(query, top)
  {
    if top == [] {
      answer := NoMatchSentence(query);
    } else {
      var lines := [Header(query, |top|)];
      for i := 0 to |top|
        invariant lines == [Header(query, |top|)] + Blocks(top[..i])
      {
        assert top[..i + 1][..i] == top[..i];
        lines := lines + [Block(i + 1, top[i])];
      }
      assert top[..|top|] == top;
      lines := lines + [Closing];
      answer := Join("\n", lines);
    }
  }

  lemma JoinStartsWithFirst(sep: string, xs: seq<string>)
    requires xs != []
    ensures StartsWith(Join(sep, xs), xs[0])
  {
    if |xs| > 1 {
      assert (xs[0] + sep + Join(sep, xs[1..]))[..|xs[0]|] == xs[0];
    }
  }

  /** The "no match" sentence is given exactly when no candidate is kept. */
  lemma AnswerIsNoMatchExactlyWhenEmpty(query: string, top: seq<Candidate>)
    ensures AnswerText(query, top) == NoMatchSentence(query) <==> top == []
  {
    if top != [] {
      var lines := [Header(query, |top|)] + Blocks(top) + [Closing];
      JoinStartsWithFirst("\n", lines);
      assert AnswerText(query, top)[0] == Header(query, |top|)[0] == 'B';
      assert NoMatchSentence(query)[0] == 'I';
    }
  }

  lemma JoinedLinesContainEach(sep: string, h: string, blocks: seq<string>, z: string, i: nat)
    requires i < |blocks|
    ensures Contains(Join(sep, [h] + blocks + [z]), blocks[i])
  {
    var lines := [h] + blocks + [z];
    assert lines[i + 1] == blocks[i];
    JoinContainsEach(sep, lines, i + 1);
  }

  lemma JoinedLinesContainFirstInfix(sep: string, a: string, p: string, b: string, rest: seq<string>)
    requires rest != []
    ensures Contains(Join(sep, [a + p + b] + rest), p)
  {
    var lines := [a + p + b] + rest;
    assert lines[1..] == rest;
    assert Join(sep, lines) == a + p + (b + sep + Join(sep, rest));
    ContainsInfix(a, p, b + sep + Join(sep, rest));
  }

  /** Every kept candidate has its numbered block in the answer. */
  lemma AnswerListsEveryCandidate(query: string, top: seq<Candidate>, i: nat)
    requires i < |top|
    ensures Contains(AnswerText(query, top), Block(i + 1, top[i]))
  {
    BlocksAt(top, i);
    JoinedLinesContainEach("\n", Header(query, |top|), Blocks(top), Closing, i);
  }

  /** Both kinds of answer quote the query between single quotes. */
  lemma AnswerQuotesQuery(query: string, top: seq<Candidate>)
    ensures Contains(AnswerText(query, top), Quoted(query))
  {
    if top == [] {
      ContainsInfix("I couldn't find a strong match for: ", Quoted(query),
                    ". Try adding specific skills or min experience.");
    } else {
      AnswerQuotesQueryInHeader(query, top);
    }
  }

  lemma AnswerQuotesQueryInHeader(query: string, top: seq<Candidate>)
    requires top != []
    ensures Contains(AnswerText(query, top), Quoted(query))
  {
    var before := "Based on your query: ";
    var after := ", here are the top " + NatText(|top|) + " candidates:";
    assert Header(query, |top|) == before + Quoted(query) + after;
    JoinedLinesContainFirstInfix("\n", before, Quoted(query), after, Blocks(top) + [Closing]);
    assert [Header(query, |top|)] + Blocks(top) + [Closing] == [Header(query, |top|)] + (Blocks(top) + [Closing]);
  }

  /** The rendered score reads back as the score: its digits are the tenths split at the dot. */
  lemma ScoreTextReadsBack(t: nat)
    ensures exists whole, tenth ::
              && ScoreText(t) == whole + "." + tenth
              && AllDigits(whole) && |tenth| == 1 && AllDigits(tenth)
              && 10 * DigitsValue(whole) + DigitsValue(tenth) == t
  {
    NatTextRoundTrip(t / 10);
    NatTextRoundTrip(t % 10);
    assert NatText(t % 10) == [DigitChar(t % 10)];
  }

  /** The first loop of `chat`: every record with a positive primary score, in dataset order. */
  method PrimaryPass(db: seq<Employee>, hints: QueryHints, query: string) returns (scored: seq<Candidate>)
    ensures scored == Candidates(db, PrimaryScore(hints, query))
  {
    scored := [];
    for i := 0 to |db|
      invariant scored == Candidates(db[..i], PrimaryScore(hints, query))
    {
      assert db[..i + 1][..i] == db[..i];
      var s := ScoreEmployee(db[i], hints, query);
      if s > 0 {
        scored := scored + [Candidate(db[i], s)];
      }
    }
    assert db[..|db|] == db;
  }

  /** The fallback loop of `chat`: every record with a positive keyword score, in dataset order. */
  method FallbackPass(db: seq<Employee>, query: string) returns (scored: seq<Candidate>)
    ensures scored == Candidates(db, FallbackScore(query))
  {
    scored := [];
    for i := 0 to |db|
      invariant scored == Candidates(db[..i], FallbackScore(query))
    {
      assert db[..i + 1][..i] == db[..i];
      var s := KeywordScore(db[i], query);
      if s > 0 {
        scored := scored + [Candidate(db[i], s)];
      }
    }
    assert db[..|db|] == db;
  }

  /**
   * `chat(req)`: the hints, the primary pass, the fallback pass when the primary one keeps
   * nothing, the stable sort, `scored[:top_k]` and the answer text.
   */
  method Chat(db: seq<Employee>, query: string, topK: int) returns (top: seq<Candidate>, answer: string)
    ensures top == Ranked(db, query, topK)
    ensures answer == AnswerText(query, top)
    ensures forall c :: c in top ==> c.score > 0
    ensures NonIncreasing(top)
    ensures topK >= 0 ==> |top| == Min(topK, |Scored(db, query)|)
  {
    var hints := ParseHints(query, db);
    var scored := PrimaryPass(db, hints, query);
    if scored == [] {
      scored := FallbackPass(db, query);
    }
    var sorted := SortByScore(scored);
    top := TakeFirst(sorted, topK);
    answer := RenderAnswer(query, top);
    RankedProperties(db, PrimaryScore(hints, query), FallbackScore(query), topK);
  }
}
