/**
 The readers find the clauses of a SELECT where they were written
 (internal/syntax/postgres/parser.go:29-75, 177-196).
 */
module ClauseReading {
  import opened Basics
  import opened Strings
  import opened Numerals
  import opened TopLevel
  import opened TopLevelLaws
  import opened Statements
  import opened Readers
  import opened JoinReading
  import opened Rendering

  /** The keyword is found first at i. (Looked into only where Asked(0) is asserted.) */
  ghost predicate FoundAt(s: string, kw: string, i: int)
    requires kw != ""
  {
    forall z {:trigger Asked(z)} :: Asked(z) ==> Find(OUT, s, kw) == i
  }

  lemma FoundStart(kw: string, rest: string)
    requires kw != "" && kw[0] == ' '
    ensures FoundAt(kw + rest, kw, 0)
  {
    FoundHere(kw, rest);
  }

  lemma FoundNone(kw: string)
    requires kw != ""
    ensures FoundAt("", kw, -1)
  {
  }

  /** The search passes over a prefix in which the keyword does not start.
      (Looked into only where Asked(0) is asserted.) */
  ghost predicate Passes(p: string, rest: string, kw: string) {
    forall z {:trigger Asked(z)} :: Asked(z) ==> Quiet(OUT, p, rest, kw) && Run(OUT, p) == OUT
  }

  lemma FoundShift(t: string, p: string, rest: string, kw: string, i: int)
    requires kw != "" && t == p + rest && Passes(p, rest, kw) && FoundAt(rest, kw, i)
    ensures FoundAt(t, kw, Shift(|p|, i))
  {
    assert Asked(0);
    SkipPrefix(OUT, p, rest, kw);
  }

  predicate WordChars(w: string) {
    forall i :: 0 <= i < |w| ==> w[i] != ' ' && !IsQuote(w[i]) && w[i] != '(' && w[i] != ')'
  }

  /** A word that differs from the keyword somewhere. */
  lemma WordPasses(w: string, rest: string, kw: string, i: nat)
    requires kw != "" && kw[0] == ' ' && WordChars(w)
    requires 0 < i <= |w| && i < |kw| && UpperChar(w[i - 1]) != UpperChar(kw[i])
    ensures Passes(" " + w, rest, kw)
  {
    var p := " " + w;
    WordIsQuiet(w, rest, kw);
    assert p[1..] == w;
    assert (p + rest)[i] == w[i - 1];
  }

  /** A piece that is free of the keyword. */
  lemma PiecePasses(p: string, rest: string, kw: string, gap: nat)
    requires Keyword(kw, gap) && SpaceNext(rest) && Free(p, kw) && NoStraddle(" " + p, rest, kw, gap) && Calm(p)
    ensures Passes(" " + p, rest, kw)
  {
    FreeIsQuiet(p, rest, kw, gap);
    CalmSpaced(p);
  }

  lemma Unleaded(p: string, rest: string, kw: string)
    requires Passes(" " + p, rest, kw)
    ensures Passes(p, rest, kw)
  {
    assert Asked(0);
    assert (" " + p)[1..] == p;
  }

  lemma ClauseKeywords()
    ensures Keyword(WHERE, 0) && Keyword(ORDER_BY, 6) && Keyword(LIMIT, 0) && Keyword(FROM, 0)
    ensures ORDER_BY[6..] == " BY "
  {
  }

  // ----- the limit clause is passed over by the other searches

  lemma NumberWord(n: int)
    ensures var w := Itoa(n); WordChars(w) && w != "" && UpperChar(w[0]) != 'W' && UpperChar(w[0]) != 'O'
  {
    var w := Itoa(n);
    ItoaChars(n);
    assert IsDigit(w[0]) || w[0] == '-';
  }

  predicate Other(kw: string) { kw == WHERE || kw == ORDER_BY }

  lemma NumberPasses(n: int, rest: string, kw: string)
    requires Other(kw)
    ensures Passes(" " + Itoa(n), rest, kw)
  {
    NumberWord(n);
    WordPasses(Itoa(n), rest, kw, 1);
  }

  lemma LimitWordPasses(rest: string, kw: string)
    requires Other(kw)
    ensures Passes(" LIMIT", rest, kw) && Passes(" OFFSET", rest, kw)
  {
    assert " " + "LIMIT" == " LIMIT" && " " + "OFFSET" == " OFFSET";
    WordPasses("LIMIT", rest, kw, 1);
    if kw == WHERE { WordPasses("OFFSET", rest, kw, 1); } else { WordPasses("OFFSET", rest, kw, 2); }
  }

  /** The dialects that write a limit with LIMIT. */
  predicate Limited(d: Dialect) { d != Oracle }

  lemma LimitUnfound(limit: Option<Limit>, kw: string, d: Dialect)
    requires Other(kw) && Limited(d)
    ensures FoundAt(LimitText(limit, d), kw, -1)
  {
    FoundNone(kw);
    if limit.Some? { if d == Postgres { LimitPassed(limit.value, kw); } else { PairPassed(limit.value, kw, d); } }
  }

  lemma OffsetPassed(m: int, kw: string)
    requires Other(kw)
    ensures FoundAt(" OFFSET " + Itoa(m), kw, -1)
  {
    var number := " " + Itoa(m);
    FoundNone(kw);
    NumberPasses(m, "", kw);
    assert number + "" == number;
    FoundShift(number, number, "", kw, -1);
    LimitWordPasses(number, kw);
    assert " OFFSET " + Itoa(m) == " OFFSET" + number;
    FoundShift(" OFFSET" + number, " OFFSET", number, kw, -1);
  }

  lemma LimitPassed(l: Limit, kw: string)
    requires Other(kw)
    ensures FoundAt(LimitText(Some(l), Postgres), kw, -1)
  {
    var offset := if l.offset.Some? then " OFFSET " + Itoa(l.offset.value) else "";
    FoundNone(kw);
    if l.offset.Some? { OffsetPassed(l.offset.value, kw); }
    var n := " " + Itoa(l.count) + offset;
    NumberPasses(l.count, offset, kw);
    FoundShift(n, " " + Itoa(l.count), offset, kw, -1);
    LimitWordPasses(n, kw);
    assert LimitText(Some(l), Postgres) == " LIMIT" + n;
    FoundShift(" LIMIT" + n, " LIMIT", n, kw, -1);
  }

  lemma CommaPasses(m: int, rest: string, kw: string)
    requires Other(kw)
    ensures Passes(" " + (Itoa(m) + ","), rest, kw)
  {
    NumberWord(m);
    WordPasses(Itoa(m) + ",", rest, kw, 1);
  }

  /** The limit with the offset first. */
  lemma PairPassed(l: Limit, kw: string, d: Dialect)
    requires Other(kw) && Limited(d) && d != Postgres
    ensures FoundAt(LimitText(Some(l), d), kw, -1)
  {
    var count := " " + Itoa(l.count);
    var n := if l.offset.Some? then " " + (Itoa(l.offset.value) + ",") + count else count;
    FoundNone(kw);
    NumberPasses(l.count, "", kw);
    assert count + "" == count;
    FoundShift(count, count, "", kw, -1);
    if l.offset.Some? {
      CommaPasses(l.offset.value, count, kw);
      FoundShift(n, " " + (Itoa(l.offset.value) + ","), count, kw, -1);
    }
    LimitWordPasses(n, kw);
    PairSpelled(l, n, d);
    FoundShift(" LIMIT" + n, " LIMIT", n, kw, -1);
  }

  lemma PairSpelled(l: Limit, n: string, d: Dialect)
    requires Limited(d) && d != Postgres
    requires n == if l.offset.Some? then " " + (Itoa(l.offset.value) + ",") + (" " + Itoa(l.count)) else " " + Itoa(l.count)
    ensures LimitText(Some(l), d) == " LIMIT" + n
  {
  }

  // ----- where the clauses are

  function WhereText(where: string): string { if where == "" then "" else WHERE + where }

  function OrderText(orderBy: seq<string>): string { if orderBy == [] then "" else ORDER_BY + CommaList(orderBy) }

  predicate GoodWhere(where: string) {
    where != "" ==> Solid(where) && Free(where, ORDER_BY) && Free(where, LIMIT)
  }

  predicate SolidPieces(ps: seq<string>) {
    AllPieces(ps) && forall i :: 0 <= i < |ps| ==> ps[i] != ""
  }

  predicate GoodOrder(orderBy: seq<string>, where: string) {
    && SolidPieces(orderBy)
    && Free(CommaList(orderBy), LIMIT)
    && (where == "" ==> Free(CommaList(orderBy), WHERE))
  }

  predicate GoodFrom(f: string) {
    Solid(f) && Free(f, WHERE) && Free(f, ORDER_BY) && Free(f, LIMIT)
  }

  lemma PassesAppend(a: string, b: string, rest: string, kw: string)
    requires Passes(a, b + rest, kw) && Passes(b, rest, kw)
    ensures Passes(a + b, rest, kw)
  {
    assert Asked(0);
    QuietAppend(OUT, a, b, rest, kw);
    RunAppend(OUT, a, b);
  }

  /** A clause text starts with a space, and not with the second half of ORDER BY. */
  predicate ClauseNext(rest: string) { SpaceNext(rest) && !Matches(rest, " BY ") }

  lemma ClauseStart(w: string, rest: string)
    requires |w| >= 2 && w[0] == ' ' && UpperChar(w[1]) != 'B'
    ensures ClauseNext(w + rest)
  {
    NotHere(w + rest, " BY ", 1);
  }

  lemma LimitNext(limit: Option<Limit>, d: Dialect)
    requires Limited(d)
    ensures ClauseNext(LimitText(limit, d))
  {
    if limit.Some? {
      var text := LimitText(limit, d);
      assert text[..6] == " LIMIT" && text[..6] + text[6..] == text;
      ClauseStart(text[..6], text[6..]);
    }
  }

  lemma OrderNext(orderBy: seq<string>, rest: string)
    requires ClauseNext(rest)
    ensures ClauseNext(OrderText(orderBy) + rest)
  {
    if orderBy == [] { assert "" + rest == rest; } else { ClauseStart(OrderText(orderBy), rest); }
  }

  lemma WhereNext(where: string, rest: string)
    requires ClauseNext(rest)
    ensures ClauseNext(WhereText(where) + rest)
  {
    if where == "" { assert "" + rest == rest; } else { ClauseStart(WhereText(where), rest); }
  }

  lemma ClausePiecePasses(p: string, rest: string, kw: string)
    requires kw == WHERE || kw == ORDER_BY || kw == LIMIT
    requires Calm(p) && Free(p, kw) && ClauseNext(rest)
    ensures Passes(" " + p, rest, kw)
  {
    ClauseKeywords();
    if kw == ORDER_BY { PiecePasses(p, rest, kw, 6); } else { PiecePasses(p, rest, kw, 0); }
  }

  lemma WhereWordPasses(rest: string, kw: string)
    requires kw == ORDER_BY || kw == LIMIT
    ensures Passes(" WHERE", rest, kw)
  {
    assert " " + "WHERE" == " WHERE";
    WordPasses("WHERE", rest, kw, 1);
  }

  lemma WherePasses(where: string, rest: string, kw: string)
    requires where != "" && GoodWhere(where) && (kw == ORDER_BY || kw == LIMIT) && ClauseNext(rest)
    ensures Passes(WhereText(where), rest, kw)
  {
    ClausePiecePasses(where, rest, kw);
    WhereWordPasses(" " + where + rest, kw);
    PassesAppend(" WHERE", " " + where, rest, kw);
    assert WhereText(where) == " WHERE" + (" " + where);
  }

  lemma OrderWordPasses(rest: string, kw: string)
    requires kw == WHERE || kw == LIMIT
    ensures Passes(" ORDER BY", rest, kw)
  {
    WordPasses("BY", rest, kw, 1);
    WordPasses("ORDER", " BY" + rest, kw, 1);
    PassesAppend(" ORDER", " BY", rest, kw);
    assert " ORDER" + " BY" == " ORDER BY";
  }

  lemma OrderPasses(orderBy: seq<string>, rest: string, kw: string)
    requires orderBy != [] && AllPieces(orderBy) && (kw == WHERE || kw == LIMIT)
    requires Free(CommaList(orderBy), kw) && ClauseNext(rest)
    ensures Passes(OrderText(orderBy), rest, kw)
  {
    var list := CommaList(orderBy);
    CalmList(orderBy);
    ClausePiecePasses(list, rest, kw);
    OrderWordPasses(" " + list + rest, kw);
    PassesAppend(" ORDER BY", " " + list, rest, kw);
    assert OrderText(orderBy) == " ORDER BY" + (" " + list);
  }

  lemma FromPasses(f: string, rest: string, kw: string)
    requires GoodFrom(f) && (kw == WHERE || kw == ORDER_BY || kw == LIMIT) && ClauseNext(rest)
    ensures Passes(f, rest, kw)
  {
    ClausePiecePasses(f, rest, kw);
    Unleaded(f, rest, kw);
  }

  function Place(here: bool, i: int): int { if here then i else -1 }

  lemma LimitFound(limit: Option<Limit>, d: Dialect)
    requires Limited(d)
    ensures FoundAt(LimitText(limit, d), LIMIT, Place(limit.Some?, 0))
  {
    var text := LimitText(limit, d);
    if limit.None? {
      FoundNone(LIMIT);
    } else {
      assert text == LIMIT + text[7..];
      FoundStart(LIMIT, text[7..]);
    }
  }

  /** In the clauses after WHERE. */
  lemma FoundInOrder(orderBy: seq<string>, limit: Option<Limit>, where: string, d: Dialect)
    requires GoodOrder(orderBy, where) && Limited(d)
    ensures var t, o := OrderText(orderBy) + LimitText(limit, d), OrderText(orderBy);
      && FoundAt(t, ORDER_BY, Place(orderBy != [], 0))
      && FoundAt(t, LIMIT, Place(limit.Some?, |o|))
      && (where == "" ==> FoundAt(t, WHERE, -1))
  {
    var l, o := LimitText(limit, d), OrderText(orderBy);
    LimitNext(limit, d);
    LimitFound(limit, d);
    LimitUnfound(limit, WHERE, d);
    LimitUnfound(limit, ORDER_BY, d);
    if orderBy == [] {
      assert o + l == l;
    } else {
      OrderPasses(orderBy, l, LIMIT);
      FoundShift(o + l, o, l, LIMIT, Place(limit.Some?, 0));
      OrderFirst(orderBy, l);
      if where == "" {
        OrderPasses(orderBy, l, WHERE);
        FoundShift(o + l, o, l, WHERE, -1);
      }
    }
  }

  lemma OrderFirst(orderBy: seq<string>, rest: string)
    requires orderBy != []
    ensures FoundAt(OrderText(orderBy) + rest, ORDER_BY, 0)
  {
    var list := CommaList(orderBy);
    assert OrderText(orderBy) + rest == ORDER_BY + (list + rest);
    FoundStart(ORDER_BY, list + rest);
  }

  lemma WhereFirst(where: string, rest: string)
    requires where != ""
    ensures FoundAt(WhereText(where) + rest, WHERE, 0)
  {
    assert WhereText(where) + rest == WHERE + (where + rest);
    FoundStart(WHERE, where + rest);
  }

  function TailText(where: string, orderBy: seq<string>, limit: Option<Limit>, d: Dialect): string {
    WhereText(where) + (OrderText(orderBy) + LimitText(limit, d))
  }

  lemma FoundInTail(where: string, orderBy: seq<string>, limit: Option<Limit>, d: Dialect)
    requires GoodWhere(where) && GoodOrder(orderBy, where) && Limited(d)
    ensures var t, w, o := TailText(where, orderBy, limit, d), WhereText(where), OrderText(orderBy);
      && FoundAt(t, WHERE, Place(where != "", 0))
      && FoundAt(t, ORDER_BY, Place(orderBy != [], |w|))
      && FoundAt(t, LIMIT, Place(limit.Some?, |w| + |o|))
      && ClauseNext(t)
  {
    var w, o, l := WhereText(where), OrderText(orderBy), LimitText(limit, d);
    FoundInOrder(orderBy, limit, where, d);
    LimitNext(limit, d);
    OrderNext(orderBy, l);
    WhereNext(where, o + l);
    if where == "" {
      assert w + (o + l) == o + l;
    } else {
      WhereFirst(where, o + l);
      WherePasses(where, o + l, ORDER_BY);
      WherePasses(where, o + l, LIMIT);
      FoundShift(w + (o + l), w, o + l, ORDER_BY, Place(orderBy != [], 0));
      FoundShift(w + (o + l), w, o + l, LIMIT, Place(limit.Some?, |o|));
    }
  }

  /** Each clause is found where it was written, and a missing one is not found. */
  lemma ClausesFound(f: string, where: string, orderBy: seq<string>, limit: Option<Limit>, d: Dialect)
    requires GoodFrom(f) && GoodWhere(where) && GoodOrder(orderBy, where) && Limited(d)
    ensures var t, w, o := f + TailText(where, orderBy, limit, d), WhereText(where), OrderText(orderBy);
      && FoundAt(t, WHERE, Place(where != "", |f|))
      && FoundAt(t, ORDER_BY, Place(orderBy != [], |f| + |w|))
      && FoundAt(t, LIMIT, Place(limit.Some?, |f| + |w| + |o|))
  {
    var tail, w, o := TailText(where, orderBy, limit, d), WhereText(where), OrderText(orderBy);
    FoundInTail(where, orderBy, limit, d);
    FromPasses(f, tail, WHERE);
    FromPasses(f, tail, ORDER_BY);
    FromPasses(f, tail, LIMIT);
    FoundShift(f + tail, f, tail, WHERE, Place(where != "", 0));
    FoundShift(f + tail, f, tail, ORDER_BY, Place(orderBy != [], |w|));
    FoundShift(f + tail, f, tail, LIMIT, Place(limit.Some?, |w| + |o|));
  }
}
