/**
 Keywords in any case of letters: texts that differ in the case of ASCII letters only are searched alike
 (internal/syntax/syntax.go:141-184, internal/syntax/postgres/parser.go:16-24, 177-196, 228-240).
 */
module LetterCase {
  import opened Basics
  import opened Strings
  import opened TopLevel
  import opened Readers
  import opened JoinReading
  import opened ClauseReading

  /** Looked into only where Asked(0) is asserted. */
  ghost predicate Twins(s: string, t: string) {
    forall z {:trigger Asked(z)} :: Asked(z) ==> Alike(s, t)
  }

  /** A text matches a keyword exactly when it starts with it, in any case of letters. */
  lemma MatchesExactly(s: string, kw: string)
    ensures Matches(s, kw) <==> |kw| <= |s| && Alike(s[..|kw|], kw)
  {
    if |kw| <= |s| {
      forall i | 0 <= i < |kw| ensures UpperChar(s[i]) == UpperChar(kw[i]) <==> SameLetter(s[..|kw|][i], kw[i]) {
        OneCase(s[i], kw[i]);
      }
    }
  }

  lemma SameLetterStep(m: Mode, c: char, d: char)
    requires SameLetter(c, d) && (m.quote == NO_QUOTE || IsQuote(m.quote))
    ensures Step(m, c) == Step(m, d)
    ensures Step(m, c).quote == NO_QUOTE || IsQuote(Step(m, c).quote)
  {
  }

  lemma MatchesAlike(s: string, t: string, kw: string, w: string)
    requires Alike(s, t) && Alike(kw, w)
    ensures Matches(s, kw) <==> Matches(t, w)
  {
    if |kw| <= |s| {
      forall i | 0 <= i < |kw| ensures UpperChar(s[i]) == UpperChar(t[i]) && UpperChar(kw[i]) == UpperChar(w[i]) {
        OneCase(s[i], t[i]);
        OneCase(kw[i], w[i]);
      }
    }
  }

  /** The search finds a keyword at the same place, however the text and the keyword are spelled. */
  lemma {:induction false} FindAlike(m: Mode, s: string, t: string, kw: string, w: string)
    requires kw != "" && Alike(s, t) && Alike(kw, w) && (m.quote == NO_QUOTE || IsQuote(m.quote))
    ensures Find(m, s, kw) == Find(m, t, w)
    decreases |s|
  {
    if |s| >= |kw| {
      SameLetterStep(m, s[0], t[0]);
      MatchesAlike(s, t, kw, w);
      FindAlike(Step(m, s[0]), s[1..], t[1..], kw, w);
    }
  }

  /** The keyword stands at i, in any case of letters, and outside quotes and parentheses. */
  predicate Stands(s: string, i: nat, kw: string) {
    i < i + |kw| <= |s| && Run(OUT, s[..i + 1]) == OUT && Alike(s[i..i + |kw|], kw)
  }

  lemma AtExactly(s: string, i: nat, kw: string)
    requires i < |s| && kw != ""
    ensures At(OUT, s, i, kw) <==> Stands(s, i, kw)
  {
    MatchesExactly(s[i..], kw);
    if i + |kw| <= |s| { assert s[i..][..|kw|] == s[i..i + |kw|]; }
  }

  /** The search answers the first place where the keyword stands. */
  lemma FoundExactly(s: string, kw: string, n: nat)
    requires kw != ""
    ensures Find(OUT, s, kw) == n <==> Stands(s, n, kw) && forall i :: 0 <= i < n ==> !Stands(s, i, kw)
    ensures Find(OUT, s, kw) < 0 <==> forall i: nat :: !Stands(s, i, kw)
  {
    var r := Find(OUT, s, kw);
    FindIsFirst(OUT, s, kw);
    if r >= 0 { AtExactly(s, r, kw); }
    forall i: nat | r < 0 || i < r ensures !Stands(s, i, kw) {
      if i < |s| { AtExactly(s, i, kw); }
    }
  }

  lemma FindJoinAlike(s: string, t: string)
    requires Alike(s, t)
    ensures FindJoin(s) == FindJoin(t)
  {
    FindAlike(OUT, s, t, LEFT_JOIN, LEFT_JOIN);
    FindAlike(OUT, s, t, INNER_JOIN, INNER_JOIN);
    FindAlike(OUT, s, t, JOIN, JOIN);
  }

  // ----- sealed

  lemma Seal(s: string, t: string)
    requires Alike(s, t)
    ensures Twins(s, t)
  {
  }

  lemma Unsealed(s: string, t: string)
    requires Twins(s, t)
    ensures Alike(s, t)
  {
    assert Asked(0);
  }

  lemma TwinItself(s: string)
    ensures Twins(s, s)
  {
  }

  lemma TwinAppend(a: string, b: string, x: string, y: string)
    requires Twins(a, b) && Twins(x, y)
    ensures Twins(a + x, b + y)
  {
    assert Asked(0);
    AlikeAppend(a, b, x, y);
  }

  lemma TwinLength(s: string, t: string)
    requires Twins(s, t)
    ensures |s| == |t|
  {
    assert Asked(0);
  }

  lemma TwinEnds(s: string, t: string)
    requires Twins(s, t)
    ensures |s| == |t| && (Trimmed(s) <==> Trimmed(t)) && (LastIs(s, ';') <==> LastIs(t, ';'))
  {
    assert Asked(0);
    AlikeEnds(s, t);
  }

  predicate LastIs(s: string, c: char) { s != "" && s[|s| - 1] == c }

  lemma TwinMatches(s: string, t: string, kw: string)
    requires Twins(s, t)
    ensures Matches(s, kw) <==> Matches(t, kw)
  {
    assert Asked(0);
    AlikeItself(kw);
    MatchesAlike(s, t, kw, kw);
  }

  lemma TwinFind(s: string, t: string, kw: string)
    requires kw != "" && Twins(s, t)
    ensures Find(OUT, s, kw) == Find(OUT, t, kw)
  {
    assert Asked(0);
    AlikeItself(kw);
    FindAlike(OUT, s, t, kw, kw);
  }

  lemma TwinFound(s: string, t: string, kw: string, i: int)
    requires kw != "" && Twins(s, t) && FoundAt(s, kw, i)
    ensures FoundAt(t, kw, i)
  {
    assert Asked(0);
    TwinFind(s, t, kw);
  }

  lemma TwinJoinFound(s: string, t: string, i: int, kw: string)
    requires Twins(s, t) && JoinFound(s, i, kw)
    ensures JoinFound(t, i, kw)
  {
    assert Asked(0);
    FindJoinAlike(s, t);
  }
}
