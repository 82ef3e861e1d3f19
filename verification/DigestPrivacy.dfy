/**
 Non-interference: the digest does not depend on the text of literals. Two texts whose tokens differ
 in the text of literals only have digests of the same tokens, except for the integers that an ORDER
 BY or GROUP BY list keeps, exactly when the identifiers that stay in the digest see the same dots
 and parentheses around them.
 */
module DigestPrivacy {
  import opened Basics
  import opened DigestSource
  import opened DigestTokens
  import opened DigestTwins
  import opened ScanText

  ghost predicate AlikeSources(a: Source, b: Source) {
    Valid(a) && Valid(b) && AlikeStreams(a.tokens, b.tokens)
  }

  ghost predicate SaneKeywords(keyword: (Lit, bool) -> Option<Kind>) {
    forall lit, called :: keyword(lit, called).Some? ==> Unmarked(keyword(lit, called).value)
  }

  lemma EnvSane(src: Source, tables: Tables)
    requires Valid(src) && SaneKeywords(tables.keyword)
    ensures SaneEnv(EnvOf(src, tables))
  {
  }

  /** Where the identifiers that stay in a digest are looked up. */
  function Staying(src: Source, tables: Tables): seq<Option<Place>>
    requires Valid(src)
  {
    Origins(src.tokens, 0, [], [], EnvOf(src, tables))
  }

  predicate SameShown(a: Source, b: Source, o: seq<Option<Place>>, ignoreSpace: bool)
    requires Valid(a) && Valid(b)
  {
    forall i :: 0 <= i < |o| && o[i].Some? ==> ShownAt(a, o[i].value, ignoreSpace) == ShownAt(b, o[i].value, ignoreSpace)
  }

  lemma DigestPairs(a: Source, b: Source, s: Tables, t: Tables)
    requires AlikeSources(a, b) && SaneKeywords(s.keyword) && SaneKeywords(t.keyword) && s.knownCharset == t.knownCharset
    ensures Pairs(Digest(a, s), Digest(b, t), Staying(a, s), EnvOf(a, s), EnvOf(b, t))
    ensures Staying(a, s) == Staying(b, t)
  {
    EnvSane(a, s);
    EnvSane(b, t);
    RunPairs(a.tokens, b.tokens, 0, [], [], [], EnvOf(a, s), EnvOf(b, t));
  }

  /** Texts that differ in the text of literals only, with the same surroundings of the identifiers that
      stay, have the same digest, token by token: the two differ at most in the text of integers kept by
      an ORDER BY or GROUP BY list. */
  lemma LiteralsHidden(a: Source, b: Source, tables: Tables)
    requires AlikeSources(a, b) && SaneKeywords(tables.keyword)
    requires SameShown(a, b, Staying(a, tables), tables.ignoreSpace)
    ensures SameTokens(Digest(a, tables), Digest(b, tables))
    ensures Digest(a, tables) == Digest(b, tables)
       <==> (forall i :: 0 <= i < |Digest(a, tables)| && Digest(a, tables)[i].kind == IntLit
              ==> Digest(b, tables)[i] == Digest(a, tables)[i])
  {
    DigestPairs(a, b, tables, tables);
    var x, y, o := Digest(a, tables), Digest(b, tables), Staying(a, tables);
    var e, f := EnvOf(a, tables), EnvOf(b, tables);
    forall i | 0 <= i < |x| ensures SameToken(x[i], y[i]) {
      assert Twinned(x[i], y[i], o[i], e, f);
      if o[i].Some? { assert KindAt(x[i].lit, o[i].value, e) == KindAt(x[i].lit, o[i].value, f); }
    }
    if forall i :: 0 <= i < |x| && x[i].kind == IntLit ==> y[i] == x[i] {
      forall i | 0 <= i < |x| ensures x[i] == y[i] { assert SameToken(x[i], y[i]); }
    }
  }

  /** When nothing integral is kept, the digest text is the same. */
  lemma SameDigestText(a: Source, b: Source, tables: Tables)
    requires AlikeSources(a, b) && SaneKeywords(tables.keyword)
    requires SameShown(a, b, Staying(a, tables), tables.ignoreSpace)
    requires forall t :: t in Digest(a, tables) ==> t.kind != IntLit
    ensures Text(Digest(a, tables)) == Text(Digest(b, tables))
  {
    LiteralsHidden(a, b, tables);
  }

  // ----- the condition on surroundings is exact

  ghost predicate Hidden(a: Source, b: Source, known: string -> bool, ignoreSpace: bool)
    requires Valid(a) && Valid(b)
  {
    forall keyword :: SaneKeywords(keyword)
      ==> SameTokens(Digest(a, Tables(keyword, known, ignoreSpace)), Digest(b, Tables(keyword, known, ignoreSpace)))
  }

  const NO_KEYWORDS: (Lit, bool) -> Option<Kind> := (_, _) => None

  /** Tables that know a word only where it is the name of a function, or only where it is not. */
  function OnlyWhere(called: bool): (Lit, bool) -> Option<Kind> {
    (_, c) => if c == called then Some(Other(0)) else None
  }

  lemma StayingAnyway(a: Source, b: Source, s: Tables, t: Tables)
    requires AlikeSources(a, b) && SaneKeywords(s.keyword) && SaneKeywords(t.keyword) && s.knownCharset == t.knownCharset
    ensures Staying(a, s) == Staying(a, t)
  {
    DigestPairs(a, b, s, t);
    DigestPairs(a, b, t, t);
  }

  lemma ShownDiffers(a: Source, b: Source, known: string -> bool, ignoreSpace: bool, o: seq<Option<Place>>, i: nat)
    requires AlikeSources(a, b) && o == Staying(a, Tables(NO_KEYWORDS, known, ignoreSpace)) && i < |o| && o[i].Some?
    requires ShownAt(a, o[i].value, ignoreSpace) != ShownAt(b, o[i].value, ignoreSpace)
    ensures !Hidden(a, b, known, ignoreSpace)
  {
    var keyword := Telling(ShownAt(a, o[i].value, ignoreSpace), ShownAt(b, o[i].value, ignoreSpace));
    var t := Tables(keyword, known, ignoreSpace);
    StayingAnyway(a, b, Tables(NO_KEYWORDS, known, ignoreSpace), t);
    DigestPairs(a, b, t, t);
    var x, y := Digest(a, t), Digest(b, t);
    assert Twinned(x[i], y[i], o[i], EnvOf(a, t), EnvOf(b, t));
    KindsDiffer(x[i], y[i], o[i].value, a, b, t);
    assert SaneKeywords(keyword) && !SameTokens(x, y);
  }

  /** A table that tells two different surroundings apart. */
  function Telling(v: Shown, w: Shown): (Lit, bool) -> Option<Kind> { OnlyWhere(v.Called? || w.Called?) }

  lemma KindsDiffer(x: Token, y: Token, p: Place, a: Source, b: Source, t: Tables)
    requires AlikeSources(a, b) && Twinned(x, y, Some(p), EnvOf(a, t), EnvOf(b, t))
    requires ShownAt(a, p, t.ignoreSpace) != ShownAt(b, p, t.ignoreSpace)
    requires t.keyword == Telling(ShownAt(a, p, t.ignoreSpace), ShownAt(b, p, t.ignoreSpace))
    ensures !SameToken(x, y)
  {
    var v, w := ShownAt(a, p, t.ignoreSpace), ShownAt(b, p, t.ignoreSpace);
    assert Looked(x.lit, v, t) != Looked(x.lit, w, t);
  }

  /** Literal text stays hidden under all keyword tables exactly when each identifier that stays in the
      digest is shown alike by both texts. */
  lemma HiddenExactly(a: Source, b: Source, known: string -> bool, ignoreSpace: bool)
    requires AlikeSources(a, b)
    ensures Hidden(a, b, known, ignoreSpace)
       <==> SameShown(a, b, Staying(a, Tables(NO_KEYWORDS, known, ignoreSpace)), ignoreSpace)
  {
    var o := Staying(a, Tables(NO_KEYWORDS, known, ignoreSpace));
    if SameShown(a, b, o, ignoreSpace) {
      forall keyword | SaneKeywords(keyword)
        ensures SameTokens(Digest(a, Tables(keyword, known, ignoreSpace)), Digest(b, Tables(keyword, known, ignoreSpace)))
      {
        StayingAnyway(a, b, Tables(NO_KEYWORDS, known, ignoreSpace), Tables(keyword, known, ignoreSpace));
        LiteralsHidden(a, b, Tables(keyword, known, ignoreSpace));
      }
    } else {
      var i: nat :| i < |o| && o[i].Some? && ShownAt(a, o[i].value, ignoreSpace) != ShownAt(b, o[i].value, ignoreSpace);
      ShownDiffers(a, b, known, ignoreSpace, o, i);
    }
  }

  // ----- a condition on the literals themselves

  /** The end of the gap before token `i`, or of the text. */
  function GapEnd(src: Source, i: nat): nat
    requires Valid(src) && i <= |src.tokens|
  {
    if i < |src.tokens| then src.spans[i].start else |src.sql|
  }

  predicate Edged(w: string) { w != "" && !IsBlank(w[0]) && w[|w| - 1] != ' ' }

  /** Both token texts start with a dot or neither, and so on for an opening parenthesis and for a dot at the end. */
  predicate SameEnds(v: string, w: string) {
    && Edged(v) && Edged(w)
    && (v[0] == '.' <==> w[0] == '.') && (v[0] == '(' <==> w[0] == '(')
    && (v[|v| - 1] == '.' <==> w[|w| - 1] == '.')
  }

  function TokenText(src: Source, i: nat): string
    requires Valid(src) && i < |src.tokens|
  {
    src.sql[src.spans[i].start..src.spans[i].end]
  }

  function Gap(src: Source, i: nat): string
    requires Valid(src) && i <= |src.tokens|
  {
    src.sql[From(src, i)..GapEnd(src, i)]
  }

  /** The same gaps, and token texts that show the same to their neighbours. */
  ghost predicate SameEdges(a: Source, b: Source)
    requires Valid(a) && Valid(b) && |a.tokens| == |b.tokens|
  {
    && (forall i :: 0 <= i <= |a.tokens| ==> Gap(a, i) == Gap(b, i))
    && (forall i :: 0 <= i < |a.tokens| ==> SameEnds(TokenText(a, i), TokenText(b, i)))
  }

  /** What stands before both places is no blank, and a dot in both texts or in neither. */
  predicate SameBefore(x: string, n: nat, y: string, m: nat)
    requires n <= |x| && m <= |y|
  {
    (n == 0 <==> m == 0) && (n > 0 && m > 0 ==> x[n - 1] != ' ' && y[m - 1] != ' ' && (x[n - 1] == '.' <==> y[m - 1] == '.'))
  }

  /** Looking back over a common stretch of k characters. */
  lemma {:induction false} DotBeforeSame(x: string, n: nat, y: string, m: nat, k: nat)
    requires k <= n <= |x| && k <= m <= |y| && x[n - k..n] == y[m - k..m]
    requires SameBefore(x, n - k, y, m - k)
    ensures DotBefore(x, n) == DotBefore(y, m)
  {
    if k > 0 {
      assert x[n - 1] == x[n - k..n][k - 1] && y[m - 1] == y[m - k..m][k - 1];
      assert x[n - 1 - (k - 1)..n - 1] == x[n - k..n][..k - 1];
      assert y[m - 1 - (k - 1)..m - 1] == y[m - k..m][..k - 1];
      DotBeforeSame(x, n - 1, y, m - 1, k - 1);
    }
  }

  predicate SameNext(x: string, n: nat, y: string, m: nat)
    requires n <= |x| && m <= |y|
  {
    && (n == |x| <==> m == |y|)
    && (n < |x| && m < |y| ==> (x[n] == '.' <==> y[m] == '.') && (x[n] == '(' <==> y[m] == '('))
  }

  /** Looking ahead over a common stretch of k characters. */
  lemma {:induction false} NextSame(x: string, n: nat, y: string, m: nat, k: nat)
    requires n + k <= |x| && m + k <= |y| && x[n..n + k] == y[m..m + k]
    requires SameNext(x, n + k, y, m + k)
    requires n + k < |x| ==> !IsBlank(x[n + k])
    requires m + k < |y| ==> !IsBlank(y[m + k])
    ensures SameNext(x, n, y, m) && SameNext(x, PastBlanks(x, n), y, PastBlanks(y, m))
    decreases k
  {
    if k > 0 {
      assert x[n] == x[n..n + k][0] && y[m] == y[m..m + k][0];
      assert x[n + 1..n + k] == x[n..n + k][1..] && y[m + 1..m + k] == y[m..m + k][1..];
      NextSame(x, n + 1, y, m + 1, k - 1);
    }
  }

  lemma DotsSame(a: Source, b: Source, i: nat)
    requires AlikeSources(a, b) && SameEdges(a, b) && i < |a.tokens|
    ensures DotBefore(a.sql, a.spans[i].start) == DotBefore(b.sql, b.spans[i].start)
  {
    var n, m := a.spans[i].start, b.spans[i].start;
    assert Gap(a, i) == Gap(b, i);
    if i > 0 { assert SameEnds(TokenText(a, i - 1), TokenText(b, i - 1)); }
    WordsBefore(a, b, i);
    DotBeforeSame(a.sql, n, b.sql, m, n - From(a, i));
  }

  lemma WordsBefore(a: Source, b: Source, i: nat)
    requires Valid(a) && Valid(b) && i <= |a.tokens| && i <= |b.tokens|
    requires i > 0 ==> SameEnds(TokenText(a, i - 1), TokenText(b, i - 1))
    ensures SameBefore(a.sql, From(a, i), b.sql, From(b, i))
  {
    if i > 0 {
      LastOfWord(a, i - 1, TokenText(a, i - 1));
      LastOfWord(b, i - 1, TokenText(b, i - 1));
    }
  }

  lemma LastOfWord(src: Source, i: nat, w: string)
    requires Valid(src) && i < |src.tokens| && w == TokenText(src, i) != ""
    ensures From(src, i + 1) > 0 && src.sql[From(src, i + 1) - 1] == w[|w| - 1]
  {
  }

  lemma NextsSame(a: Source, b: Source, i: nat)
    requires AlikeSources(a, b) && SameEdges(a, b) && i <= |a.tokens|
    ensures SameNext(a.sql, From(a, i), b.sql, From(b, i))
    ensures SameNext(a.sql, PastBlanks(a.sql, From(a, i)), b.sql, PastBlanks(b.sql, From(b, i)))
  {
    assert Gap(a, i) == Gap(b, i);
    var k := |Gap(a, i)|;
    if i < |a.tokens| {
      assert SameEnds(TokenText(a, i), TokenText(b, i));
      assert a.sql[GapEnd(a, i)] == TokenText(a, i)[0] && b.sql[GapEnd(b, i)] == TokenText(b, i)[0];
    }
    NextSame(a.sql, From(a, i), b.sql, From(b, i), k);
  }

  lemma ShownSame(a: Source, b: Source, p: Place, ignoreSpace: bool)
    requires AlikeSources(a, b) && SameEdges(a, b)
    ensures ShownAt(a, p, ignoreSpace) == ShownAt(b, p, ignoreSpace)
  {
    if p.token < |a.tokens| {
      DotsSame(a, b, p.token);
      if p.calls <= |a.tokens| { NextsSame(a, b, p.calls); }
    }
  }

  /** Literals that begin and end alike, as far as dots go, keep their text hidden under all tables. */
  lemma EdgesHide(a: Source, b: Source, known: string -> bool, ignoreSpace: bool)
    requires AlikeSources(a, b) && SameEdges(a, b)
    ensures Hidden(a, b, known, ignoreSpace)
  {
    var o := Staying(a, Tables(NO_KEYWORDS, known, ignoreSpace));
    forall i | 0 <= i < |o| && o[i].Some?
      ensures ShownAt(a, o[i].value, ignoreSpace) == ShownAt(b, o[i].value, ignoreSpace)
    {
      ShownSame(a, b, o[i].value, ignoreSpace);
    }
    HiddenExactly(a, b, known, ignoreSpace);
  }
}
