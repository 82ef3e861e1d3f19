/**
 How the text scanners of TopLevel behave on texts put together from pieces.
 */
module TopLevelLaws {
  import opened Strings
  import opened TopLevel

  // ----- trimming

  lemma TrimTrimmed(s: string)
    requires Trimmed(s)
    ensures Trim(s) == s
  {
  }

  lemma TrimLead(s: string)
    requires Trimmed(s)
    ensures Trim(" " + s) == s
  {
    var t := " " + s;
    assert t[1..] == s;
    assert TrimLeft(t) == TrimLeft(s);
  }

  lemma TrimTail(s: string)
    requires Trimmed(s)
    ensures Trim(s + " ") == s
  {
    var t := s + " ";
    assert t[..|s|] == s;
    assert TrimRight(t) == TrimRight(s);
    if s == "" {
      assert t[1..] == "" && TrimLeft(t) == "";
    } else {
      assert TrimLeft(t) == t && TrimRight(s) == s;
    }
  }

  // ----- keywords

  /** No keyword starts at top level in p, when p is followed by rest. */
  predicate Quiet(m: Mode, p: string, rest: string, kw: string)
    decreases |p|
  {
    p == "" || (!(Step(m, p[0]) == OUT && Matches(p + rest, kw)) && Quiet(Step(m, p[0]), p[1..], rest, kw))
  }

  lemma {:induction false} QuietAppend(m: Mode, a: string, b: string, rest: string, kw: string)
    ensures Quiet(m, a + b, rest, kw) <==> Quiet(m, a, b + rest, kw) && Quiet(Run(m, a), b, rest, kw)
    decreases |a|
  {
    if a == "" {
      assert a + b == b;
    } else {
      var t := a + b;
      assert t[1..] == a[1..] + b && t + rest == a + (b + rest);
      QuietAppend(Step(m, a[0]), a[1..], b, rest, kw);
    }
  }

  /** The search passes over a quiet prefix. */
  lemma {:induction false} SkipPrefix(m: Mode, p: string, rest: string, kw: string)
    requires kw != "" && Quiet(m, p, rest, kw)
    ensures Find(m, p + rest, kw) == Shift(|p|, Find(Run(m, p), rest, kw))
    decreases |p|
  {
    if p == "" {
      assert p + rest == rest;
    } else {
      var t := p + rest;
      assert t[1..] == p[1..] + rest;
      SkipPrefix(Step(m, p[0]), p[1..], rest, kw);
    }
  }

  /** A search that finds nothing passed over everything. */
  lemma {:induction false} NothingFound(m: Mode, p: string, rest: string, kw: string)
    requires kw != "" && Find(m, p + rest, kw) < 0
    ensures Quiet(m, p, rest, kw)
    decreases |p|
  {
    if p != "" {
      var t := p + rest;
      assert t[1..] == p[1..] + rest;
      if |t| >= |kw| {
        NothingFound(Step(m, p[0]), p[1..], rest, kw);
      } else {
        TooShort(m, p, rest, kw);
      }
    }
  }

  lemma {:induction false} TooShort(m: Mode, p: string, rest: string, kw: string)
    requires |p + rest| < |kw|
    ensures Quiet(m, p, rest, kw)
    decreases |p|
  {
    if p != "" { TooShort(Step(m, p[0]), p[1..], rest, kw); }
  }

  /** A keyword between spaces, with at most one space inside, at `gap`. */
  predicate Keyword(kw: string, gap: nat) {
    && |kw| >= 3 && gap < |kw| - 1
    && kw[0] == ' ' && kw[|kw| - 1] == ' '
    && (forall i :: 0 < i < |kw| - 1 && kw[i] == ' ' ==> i == gap)
    && (gap > 0 ==> kw[gap] == ' ')
  }

  predicate EndsWith(p: string, w: string) {
    |w| <= |p| && Matches(p[|p| - |w|..], w)
  }

  /** No keyword with a space inside straddles the border between p and rest. */
  predicate NoStraddle(p: string, rest: string, kw: string, gap: nat)
    requires gap <= |kw|
  {
    gap > 0 ==> !EndsWith(p, kw[..gap]) || !Matches(rest, kw[gap..])
  }

  predicate SpaceNext(rest: string) { rest == "" || rest[0] == ' ' }

  lemma MatchWithin(p: string, rest: string, kw: string, gap: nat)
    requires p != "" && SpaceNext(rest) && Keyword(kw, gap) && NoStraddle(p, rest, kw, gap) && Matches(p + rest, kw)
    ensures Matches(p + " ", kw)
  {
    var n, t, u := |p|, p + rest, p + " ";
    if |kw| <= n + 1 {
      forall i | 0 <= i < |kw| ensures UpperChar(u[i]) == UpperChar(kw[i]) {
        assert UpperChar(t[i]) == UpperChar(kw[i]);
      }
    } else {
      assert UpperChar(t[n]) == UpperChar(kw[n]) && t[n] == ' ';
      assert kw[n] == ' ' && n == gap;
      StraddleMatches(p, rest, kw);
    }
  }

  lemma StraddleMatches(p: string, rest: string, kw: string)
    requires |p| <= |kw| && Matches(p + rest, kw)
    ensures Matches(p, kw[..|p|]) && Matches(rest, kw[|p|..]) && EndsWith(p, kw[..|p|])
  {
    var t := p + rest;
    forall i | 0 <= i < |p| ensures UpperChar(p[i]) == UpperChar(kw[..|p|][i]) {
      assert UpperChar(t[i]) == UpperChar(kw[i]);
    }
    forall i | 0 <= i < |kw| - |p| ensures UpperChar(rest[i]) == UpperChar(kw[|p|..][i]) {
      assert UpperChar(t[|p| + i]) == UpperChar(kw[|p| + i]);
    }
    assert p[0..] == p;
  }

  lemma EndsLonger(p: string, w: string)
    requires p != "" && EndsWith(p[1..], w)
    ensures EndsWith(p, w)
  {
    assert p[1..][|p| - 1 - |w|..] == p[|p| - |w|..];
  }

  /** Quiet before a space, hence quiet before any text that starts with one. */
  lemma {:induction false} QuietBefore(m: Mode, p: string, rest: string, kw: string, gap: nat)
    requires Keyword(kw, gap) && SpaceNext(rest) && NoStraddle(p, rest, kw, gap) && Quiet(m, p, " ", kw)
    ensures Quiet(m, p, rest, kw)
    decreases |p|
  {
    if p != "" {
      if Matches(p + rest, kw) { MatchWithin(p, rest, kw, gap); }
      if gap > 0 && EndsWith(p[1..], kw[..gap]) { EndsLonger(p, kw[..gap]); }
      QuietBefore(Step(m, p[0]), p[1..], rest, kw, gap);
    }
  }

  /** Keyword-free, asked of the piece between spaces. */
  predicate Free(p: string, kw: string)
    requires kw != ""
  {
    Find(OUT, " " + p + " ", kw) < 0
  }

  lemma FreeIsQuiet(p: string, rest: string, kw: string, gap: nat)
    requires Keyword(kw, gap) && SpaceNext(rest) && Free(p, kw) && NoStraddle(" " + p, rest, kw, gap)
    ensures Quiet(OUT, " " + p, rest, kw)
  {
    NothingFound(OUT, " " + p, " ", kw);
    QuietBefore(OUT, " " + p, rest, kw, gap);
  }

  lemma CalmSpaced(p: string)
    requires Calm(p)
    ensures Run(OUT, " " + p) == OUT
  {
    var t := " " + p;
    assert t[1..] == p;
  }

  /** A word, after a space, with nothing in it that could start a keyword. */
  lemma {:induction false} WordIsQuiet(w: string, rest: string, kw: string)
    requires kw != "" && kw[0] == ' '
    requires forall i :: 0 <= i < |w| ==> w[i] != ' ' && !IsQuote(w[i]) && w[i] != '(' && w[i] != ')'
    ensures Quiet(OUT, w, rest, kw) && Run(OUT, w) == OUT
    decreases |w|
  {
    if w != "" {
      assert UpperChar(w[0]) != ' ';
      assert Matches(w + rest, kw) ==> UpperChar((w + rest)[0]) == UpperChar(kw[0]);
      WordIsQuiet(w[1..], rest, kw);
    }
  }

  lemma FoundHere(kw: string, rest: string)
    requires kw != "" && kw[0] == ' '
    ensures Find(OUT, kw + rest, kw) == 0
  {
  }

  // ----- comma lists

  predicate CommaFree(m: Mode, p: string)
    decreases |p|
  {
    p == "" || (!(p[0] == ',' && m == OUT) && CommaFree(Step(m, p[0]), p[1..]))
  }

  /** A piece of a comma list. */
  predicate Piece(p: string) {
    Trimmed(p) && Calm(p) && CommaFree(OUT, p)
  }

  predicate AllPieces(ps: seq<string>) {
    forall i :: 0 <= i < |ps| ==> Piece(ps[i])
  }

  lemma {:induction false} PiecesSkip(m: Mode, lead: string, p: string, rest: string)
    requires CommaFree(m, p)
    ensures Pieces(m, lead, p + rest) == Pieces(Run(m, p), lead + p, rest)
    decreases |p|
  {
    if p == "" {
      assert p + rest == rest && lead + p == lead;
    } else {
      var t := p + rest;
      assert t[1..] == p[1..] + rest;
      assert lead + [p[0]] + p[1..] == lead + p;
      PiecesSkip(Step(m, p[0]), lead + [p[0]], p[1..], rest);
    }
  }

  lemma PiecesComma(lead: string, tail: string)
    ensures Pieces(OUT, lead, ", " + tail) == [Trim(lead)] + Pieces(OUT, " ", tail)
  {
    var t, u := ", " + tail, " " + tail;
    assert t[1..] == u && u[1..] == tail;
    assert "" + [u[0]] == " ";
  }

  lemma TrimPiece(p: string, lead: string)
    requires Piece(p) && (lead == "" || lead == " ")
    ensures Trim(lead + p) == p
  {
    if lead == "" {
      assert "" + p == p;
      TrimTrimmed(p);
    } else {
      TrimLead(p);
    }
  }

  lemma LastPiece(p: string, lead: string)
    requires Piece(p) && (lead == "" || lead == " ")
    ensures Pieces(OUT, lead, p) == [p]
  {
    PiecesSkip(OUT, lead, p, "");
    assert p + "" == p;
    TrimPiece(p, lead);
  }

  lemma NextPiece(p: string, lead: string, tail: string)
    requires Piece(p) && (lead == "" || lead == " ")
    ensures Pieces(OUT, lead, p + (", " + tail)) == [p] + Pieces(OUT, " ", tail)
  {
    PiecesSkip(OUT, lead, p, ", " + tail);
    PiecesComma(lead + p, tail);
    TrimPiece(p, lead);
  }

  /** Splitting undoes joining. */
  lemma {:induction false} SplitList(ps: seq<string>, lead: string)
    requires ps != [] && AllPieces(ps) && (lead == "" || lead == " ")
    ensures Pieces(OUT, lead, CommaList(ps)) == ps
  {
    var p := ps[0];
    if |ps| == 1 {
      LastPiece(p, lead);
    } else {
      NextPiece(p, lead, CommaList(ps[1..]));
      SplitList(ps[1..], " ");
    }
  }

  lemma {:induction false} CalmList(ps: seq<string>)
    requires AllPieces(ps)
    ensures Calm(CommaList(ps))
  {
    if ps != [] {
      assert Piece(ps[0]);
      if |ps| > 1 {
        CalmList(ps[1..]);
        CalmComma(CommaList(ps[1..]));
        RunAppend(OUT, ps[0], ", " + CommaList(ps[1..]));
      }
    }
  }

  lemma CalmComma(tail: string)
    requires Calm(tail)
    ensures Calm(", " + tail)
  {
    var t, u := ", " + tail, " " + tail;
    assert t[1..] == u && u[1..] == tail;
  }

  // ----- inside parentheses

  const INSIDE: Mode := Mode(NO_QUOTE, 1)

  predicate NeverOut(m: Mode, p: string)
    decreases |p|
  {
    p == "" || (Step(m, p[0]) != OUT && NeverOut(Step(m, p[0]), p[1..]))
  }

  /** Quotes and parentheses opened in the piece are closed in it, and no others. */
  predicate Closed(p: string) { Calm(p) && NeverOut(INSIDE, p) }

  function Deeper(m: Mode): Mode { Mode(m.quote, m.depth + 1) }

  lemma {:induction false} RunDeeper(m: Mode, p: string)
    requires NeverOut(Deeper(m), p)
    ensures Run(Deeper(m), p) == Deeper(Run(m, p))
    decreases |p|
  {
    if p != "" { RunDeeper(Step(m, p[0]), p[1..]); }
  }

  lemma ClosedInside(p: string)
    requires Closed(p)
    ensures Run(INSIDE, p) == INSIDE
  {
    RunDeeper(OUT, p);
  }

  lemma {:induction false} NeverOutAppend(m: Mode, a: string, b: string)
    ensures NeverOut(m, a + b) <==> NeverOut(m, a) && NeverOut(Run(m, a), b)
    decreases |a|
  {
    if a == "" {
      assert a + b == b;
    } else {
      var t := a + b;
      assert t[1..] == a[1..] + b;
      NeverOutAppend(Step(m, a[0]), a[1..], b);
    }
  }

  lemma {:induction false} ClosingSkip(m: Mode, p: string, rest: string)
    requires NeverOut(m, p)
    ensures Closing(m, p + rest) == Shift(|p|, Closing(Run(m, p), rest))
    decreases |p|
  {
    if p == "" {
      assert p + rest == rest;
    } else {
      var t := p + rest;
      assert t[1..] == p[1..] + rest;
      ClosingSkip(Step(m, p[0]), p[1..], rest);
    }
  }

  /** Matching finds exactly the closing parenthesis of a closed list. */
  lemma MatchesClosed(before: string, inner: string, rest: string)
    requires Closed(inner)
    ensures MatchParen(before + ("(" + (inner + (")" + rest))), |before|) == |before| + 1 + |inner|
  {
    var end := ")" + rest;
    var t := "(" + (inner + end);
    var s := before + t;
    assert s[|before|..] == t && s[|before|] == '(';
    assert t[1..] == inner + end;
    ClosingSkip(INSIDE, inner, end);
    ClosedInside(inner);
    assert Closing(INSIDE, end) == 0;
  }

  lemma {:induction false} ClosedList(ps: seq<string>)
    requires AllPieces(ps) && forall i :: 0 <= i < |ps| ==> Closed(ps[i])
    ensures Closed(CommaList(ps))
  {
    CalmList(ps);
    if ps != [] {
      assert Closed(ps[0]) && Piece(ps[0]);
      if |ps| > 1 {
        ClosedList(ps[1..]);
        var tail := CommaList(ps[1..]);
        ClosedInside(ps[0]);
        ClosedComma(tail);
        NeverOutAppend(INSIDE, ps[0], ", " + tail);
      }
    }
  }

  lemma ClosedComma(tail: string)
    requires NeverOut(INSIDE, tail)
    ensures NeverOut(INSIDE, ", " + tail)
  {
    var t, u := ", " + tail, " " + tail;
    assert t[1..] == u && u[1..] == tail;
  }

  // ----- what the scanners do not look into

  lemma {:induction false} InQuotes(q: char, n: nat, x: string, rest: string, kw: string)
    requires IsQuote(q) && q !in x
    ensures Run(Mode(q, n), x) == Mode(q, n) && Quiet(Mode(q, n), x, rest, kw) && CommaFree(Mode(q, n), x) && NeverOut(Mode(q, n), x)
    decreases |x|
  {
    if x != "" { InQuotes(q, n, x[1..], rest, kw); }
  }

  /** A text between any of the three quote marks is one piece: no comma, keyword or parenthesis is seen in it. */
  lemma QuotesHide(q: char, x: string, rest: string, kw: string)
    requires (q == '\'' || q == '"' || q == '`') && q !in x && kw != "" && UpperChar(kw[0]) != q
    ensures var t := [q] + (x + [q]); Piece(t) && Closed(t) && Quiet(OUT, t, rest, kw)
  {
    var t, u := [q] + (x + [q]), x + [q];
    assert t[1..] == u && [q][1..] == "";
    InQuotes(q, 0, x, [q] + rest, kw);
    InQuotes(q, 1, x, "", kw);
    RunAppend(Mode(q, 0), x, [q]);
    CommaFreeBoth(Mode(q, 0), x, [q]);
    QuietAppend(Mode(q, 0), x, [q], rest, kw);
    NeverOutAppend(Mode(q, 1), x, [q]);
    QuoteEnds(q, rest, kw);
  }

  lemma QuoteEnds(q: char, rest: string, kw: string)
    requires IsQuote(q) && kw != "" && UpperChar(kw[0]) != q
    ensures Quiet(Mode(q, 0), [q], rest, kw) && CommaFree(Mode(q, 0), [q]) && Run(Mode(q, 0), [q]) == OUT && NeverOut(Mode(q, 1), [q])
  {
    var t := [q] + rest;
    assert [q][1..] == "" && t[0] == q && UpperChar(q) == q;
  }

  lemma {:induction false} CommaFreeBoth(m: Mode, a: string, b: string)
    requires CommaFree(m, a) && CommaFree(Run(m, a), b)
    ensures CommaFree(m, a + b)
    decreases |a|
  {
    if a == "" {
      assert a + b == b;
    } else {
      assert (a + b)[1..] == a[1..] + b;
      CommaFreeBoth(Step(m, a[0]), a[1..], b);
    }
  }

  lemma {:induction false} Inside(m: Mode, p: string, rest: string, kw: string)
    requires NeverOut(m, p) && m != OUT
    ensures Quiet(m, p, rest, kw) && CommaFree(m, p)
    decreases |p|
  {
    if p != "" { Inside(Step(m, p[0]), p[1..], rest, kw); }
  }

  /** So is a closed text between parentheses. */
  lemma ParensHide(x: string, rest: string, kw: string)
    requires Closed(x) && kw != "" && UpperChar(kw[0]) != ')'
    ensures var t := "(" + (x + ")"); Piece(t) && Quiet(OUT, t, rest, kw)
  {
    var t, u := "(" + (x + ")"), x + ")";
    assert t[1..] == u && ")"[1..] == "";
    ClosedInside(x);
    RunAppend(INSIDE, x, ")");
    Inside(INSIDE, x, ")" + rest, kw);
    CommaFreeBoth(INSIDE, x, ")");
    QuietAppend(INSIDE, x, ")", rest, kw);
    assert (")" + rest)[0] == ')' && UpperChar(')') != UpperChar(kw[0]);
  }
}
