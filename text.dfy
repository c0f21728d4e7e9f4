/**
 * String primitives that stand in for Python's `str.lower`, the `in` substring test,
 * the two regular expressions of backend/main.py and `str(int)`.
 * Case mapping and digits are the ASCII ones; whitespace is the set of ASCII characters for
 * which Python's `str.isspace` holds, which includes the separators U+001C to U+001F.
 */
module Text {

  function LowerChar(c: char): char
  {
    if 'A' <= c <= 'Z' then (c as int - 'A' as int + 'a' as int) as char else c
  }

  /** `s.lower()` */
  function Lower(s: string): string
  {
    seq(|s|, i requires 0 <= i < |s| => LowerChar(s[i]))
  }

  predicate StartsWith(s: string, p: string)
  {
    |p| <= |s| && s[..|p|] == p
  }

  /** `p` occurs in `s` at position `i`. */
  predicate OccursAt(s: string, p: string, i: int)
  {
    0 <= i && i + |p| <= |s| && s[i..i + |p|] == p
  }

  /** Python's `p in s` for strings. */
  predicate Contains(s: string, p: string)
  {
    exists i :: 0 <= i <= |s| && OccursAt(s, p, i)
  }

  /** `p` placed between any two strings is found by `Contains`. */
  lemma ContainsInfix(a: string, p: string, b: string)
    ensures Contains(a + p + b, p)
  {
    var s := a + p + b;
    assert s[|a|..|a| + |p|] == p;
    assert OccursAt(s, p, |a|);
  }

  /** The characters of the class `[a-zA-Z+#]`. */
  predicate IsTokenChar(c: char)
  {
    'a' <= c <= 'z' || 'A' <= c <= 'Z' || c == '+' || c == '#'
  }

  /** The characters of the class `\d`. */
  predicate IsDigit(c: char)
  {
    '0' <= c <= '9'
  }

  /** The characters of the class `\s`. */
  /** The ASCII characters that `\s` matches in a `str` pattern: `str.isspace()` holds for them. */
  predicate IsSpace(c: char)
  {
    c == ' ' || c == '\t' || c == '\n' || c == '\r' || c == '\U{0B}' || c == '\U{0C}'
    || ('\U{1C}' <= c <= '\U{1F}')
  }

  /** The end of the longest run of characters satisfying `p` that starts at `i`. */
  function SpanEnd(s: string, i: nat, p: char -> bool): (j: nat)
    requires i <= |s|
    ensures i <= j <= |s|
    ensures forall k :: i <= k < j ==> p(s[k])
    ensures j == |s| || !p(s[j])
    decreases |s| - i
  {
    if i == |s| || !p(s[i]) then i else SpanEnd(s, i + 1, p)
  }

  /** `s[i..j]` is a maximal run of `[a-zA-Z+#]` characters: what `re.findall` returns for `[a-zA-Z+#]+`. */
  predicate MaximalRun(s: string, i: int, j: int)
  {
    && 0 <= i < j <= |s|
    && (forall k :: i <= k < j ==> IsTokenChar(s[k]))
    && (i == 0 || !IsTokenChar(s[i - 1]))
    && (j == |s| || !IsTokenChar(s[j]))
  }

  /** Position `k` is not strictly inside a run of token characters. */
  predicate AtBoundary(s: string, k: nat)
    requires k <= |s|
  {
    k == 0 || k == |s| || !IsTokenChar(s[k - 1]) || !IsTokenChar(s[k])
  }

  /** The scanner for `re.findall(r"[a-zA-Z+#]+", s)`, started at position `i`. */
  function TokensFrom(s: string, i: nat): seq<string>
    requires i <= |s|
    decreases |s| - i
  {
    if i == |s| then []
    else if !IsTokenChar(s[i]) then TokensFrom(s, i + 1)
    else
      var j := SpanEnd(s, i, IsTokenChar);
      [s[i..j]] + TokensFrom(s, j)
  }

  function Tokens(s: string): seq<string>
  {
    TokensFrom(s, 0)
  }

  lemma {:induction false} TokensFromSound(s: string, k: nat, t: string)
    requires k <= |s| && AtBoundary(s, k)
    requires t in TokensFrom(s, k)
    ensures exists i, j :: k <= i && MaximalRun(s, i, j) && s[i..j] == t
    decreases |s| - k
  {
    assert k < |s|;
    if !IsTokenChar(s[k]) {
      TokensFromSound(s, k + 1, t);
    } else {
      var j := SpanEnd(s, k, IsTokenChar);
      if t == s[k..j] {
        assert MaximalRun(s, k, j);
      } else {
        TokensFromSound(s, j, t);
      }
    }
  }

  lemma {:induction false} MaximalRunInTokensFrom(s: string, k: nat, i: int, j: int)
    requires k <= |s| && AtBoundary(s, k)
    requires k <= i && MaximalRun(s, i, j)
    ensures s[i..j] in TokensFrom(s, k)
    decreases |s| - k
  {
    if !IsTokenChar(s[k]) {
      MaximalRunInTokensFrom(s, k + 1, i, j);
    } else {
      var e := SpanEnd(s, k, IsTokenChar);
      if k == i {
        SpanEndUnique(s, i, j, IsTokenChar);
      } else {
        SpanEndStopsAt(s, k, i - 1, IsTokenChar);
        MaximalRunInTokensFrom(s, e, i, j);
      }
    }
  }

  /** A run whose end fails `p` is the one `SpanEnd` finds. */
  lemma {:induction false} SpanEndUnique(s: string, i: nat, j: nat, p: char -> bool)
    requires i <= j <= |s|
    requires forall k :: i <= k < j ==> p(s[k])
    requires j == |s| || !p(s[j])
    ensures SpanEnd(s, i, p) == j
    decreases j - i
  {
    if i < j {
      SpanEndUnique(s, i + 1, j, p);
    }
  }

  /** A run cannot pass a character that fails `p`. */
  lemma {:induction false} SpanEndStopsAt(s: string, i: nat, m: nat, p: char -> bool)
    requires i <= m < |s| && !p(s[m])
    ensures SpanEnd(s, i, p) <= m
    decreases m - i
  {
    if i < m && p(s[i]) {
      SpanEndStopsAt(s, i + 1, m, p);
    }
  }

  /** Every token the scanner yields is a maximal run of `[a-zA-Z+#]` characters of `s`. */
  lemma TokensAreMaximalRuns(s: string, t: string)
    requires t in Tokens(s)
    ensures exists i, j :: MaximalRun(s, i, j) && s[i..j] == t
  {
    TokensFromSound(s, 0, t);
  }

  /** Every maximal run of `[a-zA-Z+#]` characters of `s` is yielded as a token. */
  lemma MaximalRunIsToken(s: string, i: int, j: int)
    requires MaximalRun(s, i, j)
    ensures s[i..j] in Tokens(s)
  {
    MaximalRunInTokensFrom(s, 0, i, j);
  }

  function DigitValue(c: char): nat
    requires IsDigit(c)
  {
    c as int - '0' as int
  }

  function DigitChar(d: nat): (c: char)
    requires d < 10
    ensures IsDigit(c) && DigitValue(c) == d
  {
    ('0' as int + d) as char
  }

  predicate AllDigits(d: string)
  {
    forall k :: 0 <= k < |d| ==> IsDigit(d[k])
  }

  /** Python's `int(d)` for a string of decimal digits. */
  function DigitsValue(d: string): nat
    requires AllDigits(d)
    decreases |d|
  {
    if d == [] then 0 else 10 * DigitsValue(d[..|d| - 1]) + DigitValue(d[|d| - 1])
  }

  /** Python's `str(n)` for a natural number. */
  function NatText(n: nat): (r: string)
    ensures |r| >= 1 && AllDigits(r)
    decreases n
  {
    if n < 10 then [DigitChar(n)] else NatText(n / 10) + [DigitChar(n % 10)]
  }

  /** Python's `str(n)` for any integer. */
  function IntText(n: int): string
  {
    if n < 0 then "-" + NatText(-n) else NatText(n)
  }

  /** Reading back a rendered number gives the number: `int(str(n)) == n`. */
  lemma {:induction false} NatTextRoundTrip(n: nat)
    ensures DigitsValue(NatText(n)) == n
    decreases n
  {
    if n >= 10 {
      var r := NatText(n);
      assert r[..|r| - 1] == NatText(n / 10);
      NatTextRoundTrip(n / 10);
    }
  }

  /** Python's `sep.join(xs)`. */
  function Join(sep: string, xs: seq<string>): string
    decreases |xs|
  {
    if xs == [] then "" else if |xs| == 1 then xs[0] else xs[0] + sep + Join(sep, xs[1..])
  }

  /** A match survives putting text in front. */
  lemma ContainsAfterPrefix(a: string, s: string, p: string)
    requires Contains(s, p)
    ensures Contains(a + s, p)
  {
    var i :| 0 <= i <= |s| && OccursAt(s, p, i);
    assert (a + s)[|a| + i..|a| + i + |p|] == s[i..i + |p|];
    assert OccursAt(a + s, p, |a| + i);
  }

  /** Every piece occurs in the joined text. */
  lemma {:induction false} JoinContainsEach(sep: string, xs: seq<string>, k: nat)
    requires k < |xs|
    ensures Contains(Join(sep, xs), xs[k])
    decreases k
  {
    if |xs| == 1 {
      ContainsInfix("", xs[0], "");
      assert "" + xs[0] + "" == xs[0];
    } else if k == 0 {
      ContainsInfix("", xs[0], sep + Join(sep, xs[1..]));
      assert "" + xs[0] + (sep + Join(sep, xs[1..])) == Join(sep, xs);
    } else {
      JoinContainsEach(sep, xs[1..], k - 1);
      ContainsAfterPrefix(xs[0] + sep, Join(sep, xs[1..]), xs[k]);
    }
  }
}
