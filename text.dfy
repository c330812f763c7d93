/** The string operations the quiz uses to compare an option with the
    correct answer: JavaScript's `trim()` and `toLowerCase()`, restricted
    to ASCII whitespace and ASCII letters. */
module Text {

  /** The ASCII characters that `String.prototype.trim` removes. */
  predicate IsSpace(c: char) {
    c == ' ' || c == '\t' || c == '\n' || c == '\r' || c == '\U{000B}' || c == '\U{000C}'
  }

  ghost predicate AllSpace(s: string) {
    forall i :: 0 <= i < |s| ==> IsSpace(s[i])
  }

  /** Drops leading whitespace. The facts about the string operations are
      stated as lemmas, so that callers which only compare strings do not
      carry them. */
  function TrimStart(s: string): (r: string)
    ensures |r| <= |s|
  {
    if |s| > 0 && IsSpace(s[0]) then TrimStart(s[1..]) else s
  }

  /** What `TrimStart` leaves is a suffix of `s` that does not start with
      whitespace, and everything it dropped was whitespace. */
  lemma {:induction false} TrimStartSpec(s: string)
    ensures var r := TrimStart(s);
      && r == s[|s| - |r|..]
      && (r == [] || !IsSpace(r[0]))
      && forall i :: 0 <= i < |s| - |r| ==> IsSpace(s[i])
  {
    if |s| > 0 && IsSpace(s[0]) {
      TrimStartSpec(s[1..]);
    }
  }

  /** Drops trailing whitespace. */
  function TrimEnd(s: string): (r: string)
    ensures |r| <= |s|
  {
    if |s| > 0 && IsSpace(s[|s| - 1]) then TrimEnd(s[..|s| - 1]) else s
  }

  /** What `TrimEnd` leaves is a prefix of `s` that does not end with
      whitespace, and everything it dropped was whitespace. */
  lemma {:induction false} TrimEndSpec(s: string)
    ensures var r := TrimEnd(s);
      && r == s[..|r|]
      && (r == [] || !IsSpace(r[|r| - 1]))
      && forall i :: |r| <= i < |s| ==> IsSpace(s[i])
  {
    if |s| > 0 && IsSpace(s[|s| - 1]) {
      TrimEndSpec(s[..|s| - 1]);
    }
  }

  /** `s.trim()`. */
  function Trim(s: string): (r: string)
    ensures |r| <= |s|
  {
    TrimEnd(TrimStart(s))
  }

  /** `s.trim()` is empty exactly when `s` is all whitespace; otherwise it
      neither starts nor ends with whitespace. */
  lemma TrimSpec(s: string)
    ensures Trim(s) == [] <==> AllSpace(s)
    ensures Trim(s) != [] ==> !IsSpace(Trim(s)[0]) && !IsSpace(Trim(s)[|Trim(s)| - 1])
  {
    var t := TrimStart(s);
    TrimStartSpec(s);
    TrimEndSpec(t);
    if AllSpace(s) {
      TrimStartAllSpace(s);
    }
    if t != [] {
      TrimEndKeepsFirst(t);
    }
  }

  lemma TrimEndKeepsFirst(t: string)
    requires t != [] && !IsSpace(t[0])
    ensures TrimEnd(t) != [] && TrimEnd(t)[0] == t[0]
  {
    TrimEndSpec(t);
    var r := TrimEnd(t);
    assert IsSpace(t[0]) || |r| > 0;
  }

  /** Lower-cases one ASCII letter: the result is never an upper-case
      letter, and whitespace stays whitespace. */
  function LowerChar(c: char): (d: char)
    ensures !('A' <= d <= 'Z')
    ensures IsSpace(d) == IsSpace(c)
  {
    if 'A' <= c <= 'Z' then (c as int + 32) as char else c
  }

  /** `s.toLowerCase()` on ASCII. */
  function Lower(s: string): (r: string)
    ensures |r| == |s|
  {
    if s == [] then [] else [LowerChar(s[0])] + Lower(s[1..])
  }

  /** Lower-casing maps every character on its own: each letter is lowered
      and no upper-case letter is left. */
  lemma {:induction false} LowerSpec(s: string)
    ensures forall i :: 0 <= i < |s| ==> Lower(s)[i] == LowerChar(s[i])
    ensures forall i :: 0 <= i < |s| ==> !('A' <= Lower(s)[i] <= 'Z')
  {
    if s != [] {
      LowerSpec(s[1..]);
    }
  }

  /** `s.trim().toLowerCase()`, the form in which an option and the correct
      answer are compared. */
  function Normalize(s: string): string {
    Lower(Trim(s))
  }

  /** The answer test of the quiz: both strings are non-empty (JavaScript
      truthiness, checked BEFORE trimming) and agree after trimming and
      lower-casing. Two strings that match are non-empty and trim to the
      same length. Its further properties are the lemmas below:
      `MatchesIsEquivalence`, `MatchesIgnoresPadding`, `MatchesIgnoresCase`,
      `PaddedWordMatchesLowered` and `BlankStringsMatch`. */
  predicate Matches(chosen: string, correct: string): (m: bool)
    ensures m ==> chosen != [] && correct != [] && |Trim(chosen)| == |Trim(correct)|
  {
    chosen != [] && correct != [] && Normalize(chosen) == Normalize(correct)
  }

  /** On non-empty strings the answer test is an equivalence: reflexive,
      symmetric and transitive. */
  lemma MatchesIsEquivalence(a: string, b: string, c: string)
    ensures a != [] ==> Matches(a, a)
    ensures Matches(a, b) == Matches(b, a)
    ensures Matches(a, b) && Matches(b, c) ==> Matches(a, c)
  {
  }

  /** Lower-casing twice is lower-casing once. */
  lemma LowerIdempotent(s: string)
    ensures Lower(Lower(s)) == Lower(s)
  {
    var l := Lower(s);
    LowerSpec(s);
    LowerSpec(l);
    assert forall i :: 0 <= i < |l| ==> Lower(l)[i] == l[i];
  }

  /** Whitespace around a string does not survive `trim()`. */
  lemma {:induction false} TrimPadding(p: string, s: string, q: string)
    requires AllSpace(p) && AllSpace(q)
    ensures Trim(p + s + q) == Trim(s)
  {
    TrimStartPadding(p, s + q);
    assert p + s + q == p + (s + q);
    TrimEndPadding(TrimStart(s + q), q);
    TrimStartAppend(s, q);
  }

  lemma {:induction false} TrimStartPadding(p: string, s: string)
    requires AllSpace(p)
    ensures TrimStart(p + s) == TrimStart(s)
  {
    if p == [] {
      assert p + s == s;
    } else {
      assert (p + s)[0] == p[0] && (p + s)[1..] == p[1..] + s;
      TrimStartPadding(p[1..], s);
    }
  }

  lemma {:induction false} TrimEndPadding(s: string, q: string)
    requires AllSpace(q)
    ensures TrimEnd(s + q) == TrimEnd(s)
  {
    if q == [] {
      assert s + q == s;
    } else {
      assert (s + q)[|s + q| - 1] == q[|q| - 1];
      assert (s + q)[..|s + q| - 1] == s + q[..|q| - 1];
      TrimEndPadding(s, q[..|q| - 1]);
    }
  }

  /** Trailing whitespace can be cut before or after the leading whitespace:
      `TrimEnd(TrimStart(s + q)) == TrimEnd(TrimStart(s))` for blank `q`. */
  lemma {:induction false} TrimStartAppend(s: string, q: string)
    requires AllSpace(q)
    ensures TrimEnd(TrimStart(s + q)) == TrimEnd(TrimStart(s))
  {
    if s == [] {
      assert s + q == q;
      TrimStartAllSpace(q);
    } else if IsSpace(s[0]) {
      assert (s + q)[1..] == s[1..] + q;
      TrimStartAppend(s[1..], q);
    } else {
      TrimEndPadding(s, q);
    }
  }

  lemma {:induction false} TrimStartAllSpace(s: string)
    requires AllSpace(s)
    ensures TrimStart(s) == []
  {
    if s != [] {
      TrimStartAllSpace(s[1..]);
    }
  }

  /** Whitespace padding never changes the outcome of the answer test for a
      non-empty option. (An empty option never matches, while a padded one
      may.) */
  lemma MatchesIgnoresPadding(p: string, chosen: string, q: string, correct: string)
    requires AllSpace(p) && AllSpace(q) && chosen != []
    ensures Matches(p + chosen + q, correct) == Matches(chosen, correct)
  {
    TrimPadding(p, chosen, q);
  }

  /** Letter case never changes the outcome of the answer test. */
  lemma MatchesIgnoresCase(chosen: string, correct: string)
    ensures Matches(Lower(chosen), correct) == Matches(chosen, correct)
  {
    // Lowering and trimming commute because lowering keeps whitespace.
    LowerTrimCommute(chosen);
    LowerIdempotent(Trim(chosen));
  }

  lemma {:induction false} LowerTrimCommute(s: string)
    ensures Trim(Lower(s)) == Lower(Trim(s))
  {
    LowerKeepsSpace(s);
    TrimStartLower(s);
    TrimEndLower(TrimStart(s));
  }

  lemma LowerKeepsSpace(s: string)
    ensures forall i :: 0 <= i < |s| ==> (IsSpace(Lower(s)[i]) <==> IsSpace(s[i]))
  {
    LowerSpec(s);
  }

  lemma {:induction false} TrimStartLower(s: string)
    ensures TrimStart(Lower(s)) == Lower(TrimStart(s))
  {
    if s != [] {
      LowerKeepsSpace(s);
      assert Lower(s)[1..] == Lower(s[1..]);
      TrimStartLower(s[1..]);
    }
  }

  lemma {:induction false} TrimEndLower(s: string)
    ensures TrimEnd(Lower(s)) == Lower(TrimEnd(s))
  {
    if s != [] {
      LowerKeepsSpace(s);
      LowerPrefix(s, |s| - 1);
      TrimEndLower(s[..|s| - 1]);
    }
  }

  lemma {:induction false} LowerPrefix(s: string, n: nat)
    requires n <= |s|
    ensures Lower(s)[..n] == Lower(s[..n])
  {
    if n > 0 {
      assert s[..n] == [s[0]] + s[1..][..n - 1];
      LowerPrefix(s[1..], n - 1);
    }
  }

  /** A word padded with blanks matches its lower-case form: `" Paris "`
      against `"paris"` is the case `w == "Paris"`. */
  lemma PaddedWordMatchesLowered(p: string, w: string, q: string)
    requires AllSpace(p) && AllSpace(q) && w != []
    ensures Matches(p + w + q, Lower(w))
  {
    TrimPadding(p, w, q);
    assert Normalize(p + w + q) == Lower(Trim(w));
    LowerTrimCommute(w);
    LowerIdempotent(Trim(w));
    assert Normalize(Lower(w)) == Lower(Trim(w));
  }

  /** The non-empty test is on the untrimmed strings, so any two blank but
      non-empty strings match each other. */
  lemma BlankStringsMatch(a: string, b: string)
    requires a != [] && b != [] && AllSpace(a) && AllSpace(b)
    ensures Matches(a, b)
  {
    TrimSpec(a);
    TrimSpec(b);
  }
}
