# HR resource chatbot: query-matching core

This project models the query-matching core of the HR resource chatbot backend
(`backend/main.py`). The chatbot answers a free-text staffing request, such as
"python developer with 3+ years in healthcare, available", by ranking the
employee records of its dataset. The core has four parts:

- **Hint extraction** (`parse_hints`): the query is lower-cased and turned into
  - a set of skills, namely the words of the query that some record lists as a skill;
  - a minimum experience, read from the first `<digits>[+] years|yrs|year` phrase;
  - one domain keyword, the first of a fixed list of ten that occurs in the query;
  - an availability word, with `notice` taking priority over `busy`, and `busy` over `available`.
- **Primary score** (`score_employee`), an additive relevance score:
  - 1.0 per shared skill;
  - 1.2 per project that mentions the domain;
  - 0.8 for meeting the experience bound;
  - 0.5 for matching availability;
  - 0.1 per record field whose text occurs in the query.
- **Ranking and answer** (`chat`):
  - a primary pass keeps the records that score above zero;
  - a keyword fallback pass runs when the primary pass keeps nothing;
  - the kept records are sorted stably by descending score and cut to `top_k`;
  - the answer text is either a no-match sentence, or a header, one block per candidate and a closing line.
- **Exact search** (`search_employees`): a conjunctive filter on skills, minimum experience and availability.

Modules, one file each:

- `Wrappers` and `Seqs` (`seqs.dfy`): `Option`, subsequences and prefixes, a list-comprehension `Filter`, and Python's `s[:k]`.
- `Text` (`text.dfy`): ASCII lower-casing, the substring test `p in s`, the `[a-zA-Z+#]+` token scanner, digit runs, `str(int)` and `str.join`.
- `Roster` (`roster.dfy`): the employee record.
- `HintExtractor` (`hints.dfy`): the hints as a specification function `HintsOf`, and `parse_hints` as the imperative method `ParseHints`, proved equal to it.
- `Scoring` (`scoring.dfy`): the primary score as the function `Score` and the method `ScoreEmployee`; the fallback score as `KeywordPoints` and `KeywordScore`.
- `Search` (`search.dfy`): `search_employees`.
- `Ranking` (`ranking.dfy`): the scoring passes, the stable sort and the truncation, as specification functions with lemmas. They are stated for any scoring function, and then instantiated with the primary and the fallback score of a query.
- `Endpoint` (`endpoint.dfy`): the answer text and the method `Chat`, which runs the whole pipeline with loops and is proved to compute `Ranked` and `AnswerText`.

Conventions of the model:

- **Dataset.** It is a parameter `db` rather than a global loaded from `employees.json`.
- **Scores.** They are natural numbers in tenths: 1.0 is 10, 1.2 is 12, 0.8 is 8, 0.5 is 5 and 0.1 is 1. The sums are therefore exact, and `round(…, 3)` changes nothing.
- **Regular expressions.** Both are explicit scanners. A token is a maximal run of letters, `+` and `#`. The experience pattern has a unique greedy reading, since backtracking cannot produce another match.
- **Three quirks of the code, kept on purpose:**
  - the domain bonus is paid for every matching project;
  - the echo test looks for the literal word `name`, not the record's name;
  - the keyword `ai` occurs inside `available`.
- **`top_k`.** It follows Python slice semantics: a negative `top_k` drops that many candidates from the end.

## Model

| member | source | states |
|---|---|---|
| HintExtractor.VocabularyMembership | backend/main.py:38-41 | a word is in `known_skills` exactly when some record lists a skill that lower-cases to it |
| HintExtractor.HintSkillsAreQueryTokensInVocabulary | backend/main.py:36-44 | a hint skill is exactly a maximal `[a-zA-Z+#]` run of the lower-cased query that is also in the skill vocabulary; nothing else is added |
| HintExtractor.ExperienceBoundIsFirstMatch | backend/main.py:32-34 | `min_exp` is unset exactly when the experience pattern matches nowhere; otherwise it is the number of the leftmost match, whose digit run is maximal |
| HintExtractor.ExperienceOfYearsPhrase | backend/main.py:32-34 | for every n, the query "n years" gives `min_exp` n |
| HintExtractor.ExperienceAcrossSeparator | backend/main.py:32-34 | `\s*` also skips the separator U+001F, so "3\x1fyears" gives `min_exp` 3 |
| HintExtractor.FirstContainedIsFirstInList | backend/main.py:46-50 | the domain is unset exactly when no keyword occurs; otherwise it is the occurring keyword with the smallest index in the list, whatever its position in the query |
| HintExtractor.AvailableGivesAiDomain | backend/main.py:46-52 | a query that contains "available" and none of the six keywords listed before "ai" gets the domain "ai" |
| HintExtractor.ParseHints | backend/main.py:28-57 | the loops that build `known_skills` and the skill hints, the domain loop with `break` and the three overwriting availability tests yield `HintsOf(q, db)` |
| Scoring.ProjectsMentioning | backend/main.py:67-70 | the number of projects that mention the domain is at most the number of projects; it is 0 iff no project mentions it and the total iff all do |
| Scoring.FieldsEchoed | backend/main.py:78-80 | the echo count is at most the number of fields and is 0 iff no field's lower-cased text occurs in the query |
| Scoring.DomainBonus | backend/main.py:67-70 | the project loop adds 1.2 for each project that mentions the domain |
| Scoring.EchoBonus | backend/main.py:78-80 | the echo loop adds 0.1 for each field whose lower-cased text occurs in the query |
| Scoring.ScoreEmployee | backend/main.py:59-81 | the accumulating loops compute `Score`, the sum of the skill, domain, experience, availability and echo parts |
| Scoring.AddedHintSkillAddsAtLeastOnePoint | backend/main.py:63-65 | listing one more hint skill the record lacked raises its score by at least 1.0 |
| Scoring.MatchingProjectAddsDomainBonus | backend/main.py:67-70 | one more project that mentions the domain raises the score by at least 1.2, since the loop has no `break` |
| Scoring.ScoreIgnoresName | backend/main.py:78-80 | the primary score does not depend on the record's name, because the echo list starts with the literal 'name' |
| Scoring.KeywordPointsPositive | backend/main.py:113-116 | the fallback score is positive exactly when some query token occurs in a skill, a project or the name of the record |
| Scoring.KeywordScore | backend/main.py:110-115 | the loop over the set of query tokens computes 0.5 times the number of distinct tokens the record mentions, in whatever order the set is visited |
| Search.SearchEmployees | backend/main.py:87-97 | the result is a subsequence of the dataset holding each record that passes every supplied filter as often as the dataset does, and no other; without filters it is the whole dataset |
| Ranking.Candidates | backend/main.py:102-106 | a pass keeps no more entries than there are records, and every kept entry carries its record's positive score |
| Ranking.CandidatesInOrder | backend/main.py:103-106 | the kept records appear in dataset order |
| Ranking.CandidatesKeep | backend/main.py:103-106 | a record is kept as often as the dataset holds it if its score is positive, and otherwise not at all |
| Ranking.CandidatesEmpty | backend/main.py:105-108 | a pass keeps nothing exactly when every record scores zero |
| Ranking.InsertByScore | backend/main.py:118 | inserting keeps the multiset, adds the element and keeps the scores non-increasing |
| Ranking.SortByScore | backend/main.py:118 | the sort returns a permutation of `scored` with non-increasing scores |
| Ranking.SortKeepsGroups | backend/main.py:118 | the sort is stable: for every score, the entries with that score keep their order |
| Ranking.StableSortIsUnique | backend/main.py:118 | two non-increasing sequences with the same per-score subsequences are equal, so the model's sort returns what Python's stable `list.sort` returns |
| Seqs.TakeFirst | backend/main.py:119 | `s[:k]` is a prefix of `s` of length `min(k, len(s))` for k >= 0 and of `max(0, len(s) + k)` for k < 0 |
| Ranking.RankedProperties | backend/main.py:118-119 | the returned candidates all score above zero and are non-increasing; they are a prefix of the sorted list, of length `min(top_k, len(scored))` for `top_k >= 0`; equal-score candidates stay in dataset order |
| Ranking.RankedGroupInOrder | backend/main.py:118-119 | for one score, the returned candidates with that score appear in dataset order |
| Ranking.PrimaryDecides | backend/main.py:102-108 | when some record has a positive primary score, `scored` is the primary pass and the fallback pass is never used |
| Ranking.FallbackActivation | backend/main.py:107-117 | when no record has a positive primary score, the fallback pass decides the result, and a record that mentions a query token makes it non-empty for `top_k > 0` |
| Endpoint.PrimaryPass | backend/main.py:102-106 | the first loop of `chat` builds exactly the primary pass `Candidates(db, PrimaryScore(hints, query))` |
| Endpoint.FallbackPass | backend/main.py:108-117 | the fallback loop builds exactly the fallback pass `Candidates(db, FallbackScore(query))` |
| Endpoint.Blocks | backend/main.py:125-126 | one block per candidate |
| Endpoint.BlocksAt | backend/main.py:125-126 | the i-th block describes the i-th candidate and is numbered from 1 |
| Endpoint.RenderAnswer | backend/main.py:121-128 | the loop that appends one block per candidate and the closing line produces `AnswerText` |
| Endpoint.AnswerQuotesQuery | backend/main.py:122-124 | both kinds of answer quote the query between single quotes |
| Endpoint.AnswerIsNoMatchExactlyWhenEmpty | backend/main.py:121-128 | the answer is the no-match sentence exactly when no candidate is returned |
| Endpoint.AnswerListsEveryCandidate | backend/main.py:124-128 | the answer contains the numbered block of every returned candidate |
| Endpoint.ScoreTextReadsBack | backend/main.py:119 | the printed match score splits at the dot into digits whose value is the score in tenths |
| Endpoint.Chat | backend/main.py:100-129 | the endpoint returns `Ranked(db, query, top_k)` and its answer text; its candidates score above zero, are non-increasing and number `min(top_k, len(scored))` for `top_k >= 0` |
| Text.TokensAreMaximalRuns | backend/main.py:36 | every token the scanner returns is a maximal `[a-zA-Z+#]` run of the text |
| Text.MaximalRunIsToken | backend/main.py:36 | every maximal `[a-zA-Z+#]` run of the text is returned as a token |
| Text.NatTextRoundTrip | backend/main.py:124-126 | a number printed in decimal reads back as itself |

## Left out

- The HTTP layer is not modelled: the FastAPI application, routing, CORS, the `/health` route and the request model (backend/main.py:1-26, 83-85). It is transport, not matching logic.
- Loading `employees.json` at import time is not modelled; the dataset is a parameter instead.
- Floating-point arithmetic is not modelled. Scores are exact tenths.
  - Python's float sums can differ from the exact value in the last bits, for example 0.1 + 0.2.
  - Two records whose exact scores tie could therefore compare unequal in the source, and be ordered differently.
  - The model sorts on exact values.
- Endpoint.ScoreText: prints the exact tenths, for example "2.3". This matches `str(round(s, 3))` as long as the float error stays below the rounding step.
- Lower-casing, `\d` and `\s` cover only ASCII characters. Within ASCII, `\s` matches the same characters as Python's: space, `\t`, `\n`, `\r`, `\v`, `\f` and the separators U+001C to U+001F. Python's `str.lower` and regex classes also cover non-ASCII letters, digits and spaces; the model does not.
- Python's regex engine is not modelled. The two patterns are explicit scanners with the same matches.
- Records are typed. The `str()` coercion of non-string fields and the `isinstance` test in the echo loop are not modelled. A missing field takes the default the source's `e.get` supplies.
  - A record that lacks `name`, `experience_years` or `availability` raises `KeyError` when its answer block is rendered. The model has no missing fields, so it does not show that error.
- Endpoint.Chat: returns the ranked candidates and the answer. It does not build the response dictionary that echoes the query or adds `match_score` to a copy of each record.
- The frontend files (`frontend/src/App.tsx` and the components under `frontend/src/components/`) are not part of this model. They hold display code and network calls, not matching logic.
