/**
 When the SELECT readers slice out of bounds (internal/syntax/postgres/parser.go:39-66,
 internal/syntax/mysql/parser.go:38-65): the closing space of a clause keyword is the opening space of
 the next keyword, so that the clause between them would end before it starts.
 */
module ReaderPanics {
  import opened Basics
  import opened Strings
  import opened TopLevel
  import opened TopLevelLaws
  import opened Statements
  import opened Readers
  import opened DmlReaders
  import opened Normalizing
  import opened JoinReading
  import opened MySqlJoins
  import opened ClauseReading

  /** The first top-level `b` opens with the space that closes the first top-level `a`. */
  predicate SharesSpace(s: string, a: string, b: string)
    requires a != "" && b != ""
  {
    Find(OUT, s, a) >= 0 && Find(OUT, s, b) == Find(OUT, s, a) + |a| - 1
  }

  /** A WHERE or ORDER BY without a clause, directly followed by a later keyword. */
  predicate EmptyClause(after: string) {
    SharesSpace(after, WHERE, ORDER_BY) || SharesSpace(after, WHERE, LIMIT) || SharesSpace(after, ORDER_BY, LIMIT)
  }

  // ----- keywords overlap in a space only

  lemma FoundMatches(s: string, kw: string)
    requires kw != "" && Find(OUT, s, kw) >= 0
    ensures Find(OUT, s, kw) + |kw| <= |s| && Matches(s[Find(OUT, s, kw)..], kw)
  {
    FindIsFirst(OUT, s, kw);
  }

  /** Two keywords that match the same character of a text agree on it. */
  lemma MatchAt(s: string, i: nat, a: string, j: nat, b: string, k: nat)
    requires i <= |s| && j <= |s| && Matches(s[i..], a) && Matches(s[j..], b) && i <= k < i + |a| && j <= k < j + |b|
    ensures UpperChar(a[k - i]) == UpperChar(b[k - j])
  {
    assert s[i..][k - i] == s[k] && s[j..][k - j] == s[k];
  }

  lemma AfterWhere(s: string, b: string)
    requires b == ORDER_BY || b == LIMIT
    requires Find(OUT, s, WHERE) >= 0 && Find(OUT, s, WHERE) < Find(OUT, s, b) < Find(OUT, s, WHERE) + |WHERE|
    ensures SharesSpace(s, WHERE, b)
  {
    var i, j := Find(OUT, s, WHERE), Find(OUT, s, b);
    FoundMatches(s, WHERE);
    FoundMatches(s, b);
    MatchAt(s, i, WHERE, j, b, j);
    WhereSpace(j - i);
  }

  /** Past its first character, WHERE has a space at its end only. */
  lemma WhereSpace(k: nat)
    requires 0 < k < |WHERE| && UpperChar(WHERE[k]) == ' '
    ensures k == |WHERE| - 1
  {
  }

  lemma AfterOrderBy(s: string)
    requires Find(OUT, s, ORDER_BY) >= 0 && Find(OUT, s, ORDER_BY) < Find(OUT, s, LIMIT) < Find(OUT, s, ORDER_BY) + |ORDER_BY|
    ensures SharesSpace(s, ORDER_BY, LIMIT)
  {
    var i, j := Find(OUT, s, ORDER_BY), Find(OUT, s, LIMIT);
    FoundMatches(s, ORDER_BY);
    FoundMatches(s, LIMIT);
    MatchAt(s, i, ORDER_BY, j, LIMIT, j);
    if j == i + 6 { MatchAt(s, i, ORDER_BY, j, LIMIT, j + 1); }
  }

  // ----- the slices

  predicate Inside(i: int, a: string, j: int) { i >= 0 && i < j < i + |a| }

  /** Slicing fails exactly when a later keyword lies strictly inside an earlier one. */
  lemma SlicesFail(after: string, w: int, o: int, l: int)
    requires w == -1 || 0 <= w <= |after| - |WHERE|
    requires o == -1 || 0 <= o <= |after| - |ORDER_BY|
    requires l == -1 || 0 <= l <= |after| - |LIMIT|
    ensures WhereOf(after, w, o, l).Panics? <==> Inside(w, WHERE, o) || Inside(w, WHERE, l)
    ensures OrderOf(after, o, l).Panics? <==> Inside(o, ORDER_BY, l)
    ensures !WhereOf(after, w, o, l).Failed? && !OrderOf(after, o, l).Failed?
  {
  }

  lemma AssembledPanics(columns: seq<string>, from: (string, seq<Join>), after: string, w: int, o: int, l: int,
                        limit: Outcome<Option<Limit>>)
    requires !WhereOf(after, w, o, l).Failed? && !OrderOf(after, o, l).Failed?
    ensures Assembled(columns, from, after, w, o, l, limit).Panics?
       <==> WhereOf(after, w, o, l).Panics? || OrderOf(after, o, l).Panics?
  {
  }

  lemma InsideShares(s: string)
    ensures Inside(Find(OUT, s, WHERE), WHERE, Find(OUT, s, ORDER_BY)) <==> SharesSpace(s, WHERE, ORDER_BY)
    ensures Inside(Find(OUT, s, WHERE), WHERE, Find(OUT, s, LIMIT)) <==> SharesSpace(s, WHERE, LIMIT)
    ensures Inside(Find(OUT, s, ORDER_BY), ORDER_BY, Find(OUT, s, LIMIT)) <==> SharesSpace(s, ORDER_BY, LIMIT)
  {
    if Inside(Find(OUT, s, WHERE), WHERE, Find(OUT, s, ORDER_BY)) { AfterWhere(s, ORDER_BY); }
    if Inside(Find(OUT, s, WHERE), WHERE, Find(OUT, s, LIMIT)) { AfterWhere(s, LIMIT); }
    if Inside(Find(OUT, s, ORDER_BY), ORDER_BY, Find(OUT, s, LIMIT)) { AfterOrderBy(s); }
  }

  lemma ClausesPanic(columns: seq<string>, after: string)
    ensures PostgresClauses(columns, after).Panics? <==> EmptyClause(after)
    ensures MySqlClauses(columns, after).Panics? <==> EmptyClause(after)
  {
    var w, o, l := Find(OUT, after, WHERE), Find(OUT, after, ORDER_BY), Find(OUT, after, LIMIT);
    SlicesFail(after, w, o, l);
    InsideShares(after);
    AssembledPanics(columns, FromAndJoins(FromPart(after, w, o, l)), after, w, o, l, PostgresLimitOf(after, l));
    AssembledPanics(columns, MySqlFromAndJoins(FromPart(after, w, o, l)), after, w, o, l, MySqlLimitOf(after, l));
  }

  /** A SELECT with a FROM clause, and after it a clause without text. */
  predicate EmptyClauseIn(sql: string)
    requires |sql| >= |SELECT|
  {
    var body := Trim(sql[|SELECT|..]);
    var from := Find(OUT, body, FROM);
    from >= 0 && EmptyClause(body[from + |FROM|..])
  }

  /** Both SELECT readers slice out of bounds exactly on such a statement. */
  lemma SelectPanicsExactly(sql: string)
    requires |sql| >= |SELECT|
    ensures PostgresSelect(sql).Panics? <==> EmptyClauseIn(sql)
    ensures MySqlSelect(sql).Panics? <==> EmptyClauseIn(sql)
  {
    var body := Trim(sql[|SELECT|..]);
    var from := Find(OUT, body, FROM);
    if from >= 0 { ClausesPanic(Split(body[..from]), body[from + |FROM|..]); }
  }

  // ----- the other readers keep to their bounds

  lemma ListReads(table: string, columns: seq<string>, body: string, d: Dialect)
    ensures !InsertList(table, columns, body, d).Panics?
  {
  }

  lemma ValuesReads(sql: string, table: string, columns: seq<string>, after: string, d: Dialect)
    ensures !InsertValues(sql, table, columns, after, d).Panics?
  {
    var at := Find(OUT, after, VALUES);
    if at >= 0 { ListReads(table, columns, Trim(after[at + |VALUES|..]), d); }
  }

  lemma ColumnsRead(sql: string, body: string, open: nat, close: nat, d: Dialect)
    requires open < close < |body|
    ensures !InsertColumns(sql, body, open, close, d).Panics?
  {
    ValuesReads(sql, Trim(body[..open]), OuterAll(Split(body[open + 1..close])), Trim(body[close + 1..]), d);
  }

  lemma BodyReads(sql: string, body: string, d: Dialect)
    ensures !InsertBody(sql, body, d).Panics?
  {
    var open := IndexOf(body, "(");
    MatchParenFits(body, open);
    var close := MatchParen(body, open);
    if open >= 0 && close >= 0 { ColumnsRead(sql, body, open, close, d); }
  }

  lemma InsertReads(sql: string, d: Dialect)
    requires |sql| >= |INSERT_INTO|
    ensures !ReadInsert(sql, d).Panics?
  {
    BodyReads(sql, Trim(sql[|INSERT_INTO|..]), d);
  }

  lemma UpdateReads(sql: string)
    requires |sql| >= |UPDATE|
    ensures !ReadUpdate(sql).Panics?
  {
  }

  /** Reading a statement slices out of bounds exactly when it is a SELECT with a clause without text. */
  lemma ParsePanicsExactly(sql: string, d: Dialect)
    ensures Parse(sql, d, ReaderFor(d)).Panics?
       <==> Matches(Statementless(Trim(sql)), SELECT) && EmptyClauseIn(Statementless(Trim(sql)))
  {
    var t := Statementless(Trim(sql));
    if Matches(t, SELECT) {
      SelectPanicsExactly(t);
    } else if Matches(t, INSERT_INTO) {
      InsertReads(t, d);
    } else if Matches(t, UPDATE) {
      UpdateReads(t);
    }
  }

  // ----- an input

  /** WHERE and LIMIT in a row are such a clause, after any FROM clause that holds no keyword itself. */
  lemma WhereThenLimit(f: string, rest: string)
    requires GoodFrom(f)
    ensures EmptyClause(f + (" WHERE" + (LIMIT + rest)))
  {
    var limit, tail := LIMIT + rest, " WHERE" + (LIMIT + rest);
    assert tail == WHERE + ("LIMIT " + rest);
    FoundStart(WHERE, "LIMIT " + rest);
    FoundStart(LIMIT, rest);
    WhereWordPasses(limit, LIMIT);
    FoundShift(tail, " WHERE", limit, LIMIT, 0);
    ClauseStart(" WHERE", limit);
    FromPasses(f, tail, WHERE);
    FromPasses(f, tail, LIMIT);
    FoundShift(f + tail, f, tail, WHERE, 0);
    FoundShift(f + tail, f, tail, LIMIT, 6);
    assert Asked(0);
  }

  const EMPTY_WHERE := "SELECT a FROM t WHERE LIMIT 1"

  lemma SmallFrom()
    ensures GoodFrom("t")
  {
    assert Solid("t");
  }

  /** A column list of one letter is passed over. */
  lemma FromAfterLetter(after: string)
    ensures FoundAt("a" + (FROM + after), FROM, 1)
  {
    FoundStart(FROM, after);
    NotHere("a" + (FROM + after), FROM, 0);
    assert Passes("a", FROM + after, FROM);
    FoundShift("a" + (FROM + after), "a", FROM + after, FROM, 0);
  }

  lemma SelectLetter(sql: string, after: string)
    requires |sql| >= |SELECT| && sql[|SELECT|..] == "a" + (FROM + after)
    requires Trimmed(sql[|SELECT|..]) && EmptyClause(after)
    ensures EmptyClauseIn(sql)
  {
    var body := "a" + (FROM + after);
    TrimTrimmed(body);
    FromAfterLetter(after);
    assert Asked(0);
    assert body[1 + |FROM|..] == after;
  }

  lemma EmptyWhereBody()
    ensures EmptyClauseIn(EMPTY_WHERE)
  {
    var after := "t" + (" WHERE" + (LIMIT + "1"));
    assert EMPTY_WHERE[|SELECT|..] == "a" + (FROM + after);
    SmallFrom();
    WhereThenLimit("t", "1");
    SelectLetter(EMPTY_WHERE, after);
  }

  /** `SELECT a FROM t WHERE LIMIT 1` makes both readers slice out of bounds. */
  lemma EmptyWherePanics(d: Dialect)
    ensures Parse(EMPTY_WHERE, d, ReaderFor(d)).Panics?
  {
    EmptyWhereBody();
    TrimTrimmed(EMPTY_WHERE);
    assert Statementless(EMPTY_WHERE) == EMPTY_WHERE && Matches(EMPTY_WHERE, SELECT);
    ParsePanicsExactly(EMPTY_WHERE, d);
  }
}
