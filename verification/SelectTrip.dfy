/**
 A SELECT rendered for PostgreSQL, parsed and normalised is the same SELECT; one rendered for MySQL is,
 exactly when it has at most one join
 (internal/render/render.go:106-145, 1139-1162, internal/syntax/postgres/parser.go:12-75, 177-240,
 internal/normalize/normalize.go:15-35).
 */
module SelectTrip {
  import opened Basics
  import opened Strings
  import Numerals
  import opened TopLevel
  import opened TopLevelLaws
  import opened Statements
  import opened Readers
  import opened Normalizing
  import opened JoinReading
  import opened MySqlJoins
  import opened Rendering
  import opened ClauseReading
  import opened SelectReading
  import opened KeptText

  function FromText(s: Statement): string
    requires s.Select?
  {
    s.from + JoinsText(s.joins)
  }

  /**
   A SELECT in pieces: every piece is trimmed, closes its quotes and parentheses and has something in
   it; the joins are upper-case kinds with an ON; no piece holds, between spaces, a keyword the reader
   would look for in its place.
   */
  predicate GoodSelect(s: Statement) {
    && s.Select?
    && s.columns != [] && SolidPieces(s.columns) && Free(CommaList(s.columns), FROM)
    && Solid(s.from) && JoinFree(s.from) && GoodJoins(s.joins)
    && Free(FromText(s), WHERE) && Free(FromText(s), ORDER_BY) && Free(FromText(s), LIMIT)
    && GoodWhere(s.where) && GoodOrder(s.orderBy, s.where) && GoodLimit(s.limit)
  }

  predicate EndsStatement(p: string) { p != "" && p[|p| - 1] == ';' }

  // ----- the FROM clause is calm

  lemma CalmAppend(a: string, b: string)
    requires Calm(a) && Calm(b)
    ensures Calm(a + b)
  {
    RunAppend(OUT, a, b);
  }

  lemma CalmWord(w: string)
    requires forall i :: 0 <= i < |w| ==> !IsQuote(w[i]) && w[i] != '(' && w[i] != ')'
    ensures Calm(w)
  {
    if w != "" { CalmWord(w[1..]); }
  }

  lemma CalmJoinText(kind: string, table: string, on: string, rest: string)
    requires JoinKind(kind) && Calm(table) && Calm(on) && Calm(rest)
    ensures Calm(JoinText(Join(kind, table, on), rest))
  {
    CalmWord(kind);
    CalmWord(" ");
    CalmWord(" ON ");
    CalmAppend(on, rest);
    CalmAppend(" ON ", on + rest);
    CalmAppend(table, " ON " + (on + rest));
    CalmAppend(" ", table + (" ON " + (on + rest)));
    CalmAppend(kind, " " + (table + (" ON " + (on + rest))));
  }

  lemma {:induction false} CalmJoins(js: seq<Join>)
    requires GoodJoins(js)
    ensures Calm(JoinsText(js))
  {
    if js != [] {
      var j := js[0];
      FirstGood(js);
      CalmJoins(js[1..]);
      CalmJoinText(j.kind, j.table, j.on, JoinsText(js[1..]));
      JoinsTextTail(js);
      CalmWord(" ");
      CalmAppend(" ", JoinText(j, JoinsText(js[1..])));
    }
  }

  // ----- the ends of the text

  predicate LastSolid(t: string) { t != "" && !IsSpace(t[|t| - 1]) }

  lemma LastAppend(a: string, b: string)
    requires if b == "" then LastSolid(a) else LastSolid(b)
    ensures LastSolid(a + b)
  {
    assert b == "" ==> a + b == a;
  }

  lemma {:induction false} ListTrimmed(ps: seq<string>)
    requires ps != [] && SolidPieces(ps)
    ensures LastSolid(CommaList(ps)) && !IsSpace(CommaList(ps)[0])
  {
    assert Piece(ps[0]) && ps[0] != "";
    if |ps| > 1 {
      ListTrimmed(ps[1..]);
      var tail := CommaList(ps[1..]);
      LastAppend(", ", tail);
      LastAppend(ps[0], ", " + tail);
    }
  }

  lemma LimitLast(limit: Option<Limit>, d: Dialect)
    requires Read(d)
    ensures LimitText(limit, d) != "" ==> LastSolid(LimitText(limit, d))
  {
    if limit.Some? {
      var l := limit.value;
      NumberShape(l.count);
      if l.offset.Some? { NumberShape(l.offset.value); }
      LimitSpelled(l, d);
      LastAppend(LimitHead(l, d), LimitLastNumber(l, d));
    }
  }

  /** A limit clause up to its last number, and that number. */
  function LimitHead(l: Limit, d: Dialect): string {
    if l.offset.None? then " LIMIT "
    else if d == Postgres then " LIMIT " + Numerals.Itoa(l.count) + " OFFSET "
    else " LIMIT " + Numerals.Itoa(l.offset.value) + ", "
  }

  function LimitLastNumber(l: Limit, d: Dialect): string {
    if d == Postgres && l.offset.Some? then Numerals.Itoa(l.offset.value) else Numerals.Itoa(l.count)
  }

  lemma LimitSpelled(l: Limit, d: Dialect)
    requires Read(d)
    ensures LimitText(Some(l), d) == LimitHead(l, d) + LimitLastNumber(l, d)
  {
    assert " LIMIT " + Numerals.Itoa(l.count) + "" == " LIMIT " + Numerals.Itoa(l.count);
  }

  lemma FromLast(from: string, js: seq<Join>)
    requires Solid(from) && GoodJoins(js)
    ensures LastSolid(from + JoinsText(js))
  {
    JoinsTextShape(js);
    var rest := JoinsText(js);
    if rest != "" { assert rest[|rest| - 1] == rest[1..][|rest| - 2]; }
    LastAppend(from, rest);
  }

  lemma OrderLast(orderBy: seq<string>)
    requires SolidPieces(orderBy)
    ensures OrderText(orderBy) != "" ==> LastSolid(OrderText(orderBy))
  {
    if orderBy != [] {
      ListTrimmed(orderBy);
      LastAppend(ORDER_BY, CommaList(orderBy));
    }
  }

  lemma WhereLast(where: string)
    requires where != "" ==> Solid(where)
    ensures WhereText(where) != "" ==> LastSolid(WhereText(where))
  {
    if where != "" { LastAppend(WHERE, where); }
  }

  lemma FourLast(a: string, b: string, c: string, d: string)
    requires LastSolid(a) && (b != "" ==> LastSolid(b)) && (c != "" ==> LastSolid(c)) && (d != "" ==> LastSolid(d))
    ensures LastSolid(a + (b + (c + d)))
  {
    if c + d != "" { LastAppend(c, d); }
    if b + (c + d) != "" { LastAppend(b, c + d); }
    LastAppend(a, b + (c + d));
  }

  // ----- the text of a SELECT

  /** The clauses, with the table and the joins that the FROM clause is read as. */
  function ClausesOf(s: Statement, d: Dialect, from: string, joins: seq<Join>): Clauses
    requires s.Select?
  {
    Clauses(d, FromText(s), from, joins, s.where, s.orderBy, s.limit)
  }

  function AfterFrom(s: Statement, d: Dialect): string
    requires s.Select?
  {
    FromText(s) + (WhereText(s.where) + (OrderText(s.orderBy) + LimitText(s.limit, d)))
  }

  function SelectText(columns: string, after: string): string { SELECT + (columns + (FROM + after)) }

  /** What the renderer writes when no dialect has to be changed. */
  function Written(s: Statement, d: Dialect): string { Text(Parts(s, d), WriterOf(TreatmentOf(d, d)), 0) }

  lemma FromSolid(s: Statement)
    requires s.Select? && Solid(s.from) && GoodJoins(s.joins)
    ensures Solid(FromText(s)) && LastSolid(FromText(s))
  {
    FromLast(s.from, s.joins);
    CalmJoins(s.joins);
    CalmAppend(s.from, JoinsText(s.joins));
    assert FromText(s)[0] == s.from[0];
  }

  lemma AfterLast(s: Statement, d: Dialect)
    requires s.Select? && Read(d) && Solid(s.from) && GoodJoins(s.joins)
    requires (s.where != "" ==> Solid(s.where)) && SolidPieces(s.orderBy)
    ensures LastSolid(AfterFrom(s, d))
  {
    FromSolid(s);
    WhereLast(s.where);
    OrderLast(s.orderBy);
    LimitLast(s.limit, d);
    FourLast(FromText(s), WhereText(s.where), OrderText(s.orderBy), LimitText(s.limit, d));
  }

  lemma ColumnsRead(columns: seq<string>, after: string)
    requires columns != [] && SolidPieces(columns) && Free(CommaList(columns), FROM)
    ensures Find(OUT, CommaList(columns) + (FROM + after), FROM) == |CommaList(columns)|
    ensures Split(CommaList(columns)) == columns
  {
    var list := CommaList(columns);
    CalmList(columns);
    ClauseKeywords();
    FreeIsQuiet(list, FROM + after, FROM, 0);
    Unlead(list, FROM + after, FROM);
    SkipPrefix(OUT, list, FROM + after, FROM);
    FoundHere(FROM, after);
    SplitList(columns, "");
  }

  /** The SELECT reader of a dialect. */
  function SelectIn(d: Dialect, t: string): Outcome<Statement>
    requires |t| >= |SELECT|
  {
    if d == Postgres then PostgresSelect(t) else MySqlSelect(t)
  }

  /** What the SELECT reader makes of a text. (Looked into only where Asked(0) is asserted.) */
  ghost predicate SelectGives(d: Dialect, t: string, s: Statement) {
    forall z {:trigger Asked(z)} :: Asked(z) ==> |t| >= |SELECT| && SelectIn(d, t) == Ok(s)
  }

  lemma BodyRead(d: Dialect, list: string, columns: seq<string>, after: string, s: Statement)
    requires Find(OUT, list + (FROM + after), FROM) == |list| && Split(list) == columns
    requires Trim(list + (FROM + after)) == list + (FROM + after) && ClausesGive(d, columns, after, s)
    ensures SelectGives(d, SelectText(list, after), s)
  {
    assert Asked(0);
    var t, body := SelectText(list, after), list + (FROM + after);
    assert t[|SELECT|..] == body;
    Halves(list, FROM, after);
  }

  lemma TextTrimmed(list: string, after: string)
    requires LastSolid(list) && !IsSpace(list[0]) && LastSolid(after)
    ensures Trim(list + (FROM + after)) == list + (FROM + after)
    ensures Trim(SelectText(list, after)) == SelectText(list, after)
  {
    var body := list + (FROM + after);
    LastAppend(FROM, after);
    LastAppend(list, FROM + after);
    assert body[0] == list[0];
    TrimTrimmed(body);
    LastAppend(SELECT, body);
    assert SelectText(list, after)[0] == 'S';
    TrimTrimmed(SelectText(list, after));
  }

  lemma SelectIsParsed(d: Dialect, t: string, s: Statement)
    requires Read(d) && Trim(t) == t && !EndsStatement(t) && Matches(t, SELECT) && SelectGives(d, t, s)
    ensures ParseGives(t, d, ReaderFor(d), Ok(s))
  {
    assert Asked(0);
  }

  lemma SelectStarts(list: string, after: string)
    ensures Matches(SelectText(list, after), SELECT)
  {
  }

  lemma SelectPieces(s: Statement, d: Dialect)
    requires s.Select? && SolidPieces(s.columns) && Trimmed(s.from) && GoodJoins(s.joins) && Trimmed(s.where) && SolidPieces(s.orderBy)
    ensures Plainly(SelectParts(s, d)) == SelectText(CommaList(s.columns), AfterFrom(s, d))
  {
    PlainlyOne(Fixed("SELECT "));
    PlainlyOne(Fixed(" FROM "));
    PlainlyOne(Fragment(s.from));
    PlainlyOne(Fixed(LimitText(s.limit, d)));
    TrimTrimmed(s.from);
    SolidTrimmed(s.columns);
    PlainList(s.columns);
    PlainJoins(s.joins);
    PlainWhere(s.where);
    SolidTrimmed(s.orderBy);
    PlainOrder(s.orderBy);
    EightParts([Fixed("SELECT ")], ListParts(s.columns), [Fixed(" FROM ")], [Fragment(s.from)], JoinsParts(s.joins),
               WhereParts(s.where), OrderParts(s.orderBy), [Fixed(LimitText(s.limit, d))]);
  }

  lemma SolidTrimmed(ps: seq<string>)
    requires SolidPieces(ps)
    ensures forall i :: 0 <= i < |ps| ==> Trimmed(ps[i])
  {
    forall i | 0 <= i < |ps| ensures Trimmed(ps[i]) { assert Piece(ps[i]); }
  }

  lemma SelectWritten(s: Statement, d: Dialect)
    requires GoodSelect(s)
    ensures Written(s, d) == SelectText(CommaList(s.columns), AfterFrom(s, d))
  {
    KeptIsPlain(Parts(s, d), d, 0);
    SelectPieces(s, d);
  }

  lemma SelectSeals(s: Statement, d: Dialect, from: string, joins: seq<Join>)
    requires GoodSelect(s) && Read(d)
    ensures var c := ClausesOf(s, d, from, joins);
      Sealed(c) && Texts(c, WhereText(s.where), OrderText(s.orderBy), LimitText(s.limit, d))
  {
    FromSolid(s);
  }

  /** The statement with the table and the joins its FROM clause is read as. */
  function WithFrom(s: Statement, from: string, joins: seq<Join>): Statement
    requires s.Select?
  {
    Select(s.columns, from, joins, s.where, s.orderBy, s.limit)
  }

  lemma SelectClauses(s: Statement, d: Dialect, from: string, joins: seq<Join>)
    requires GoodSelect(s) && Read(d) && FromReads(d, FromText(s), from, joins)
    ensures ClausesGive(d, s.columns, AfterFrom(s, d), WithFrom(s, from, joins))
  {
    SelectSeals(s, d, from, joins);
    ClausesRead(s.columns, ClausesOf(s, d, from, joins), WhereText(s.where), OrderText(s.orderBy), LimitText(s.limit, d));
  }

  lemma SelectIsRead(s: Statement, d: Dialect, from: string, joins: seq<Join>)
    requires GoodSelect(s) && Read(d) && FromReads(d, FromText(s), from, joins)
    ensures var t := SelectText(CommaList(s.columns), AfterFrom(s, d));
      Trim(t) == t && Matches(t, SELECT) && SelectGives(d, t, WithFrom(s, from, joins))
  {
    var list, after := CommaList(s.columns), AfterFrom(s, d);
    ColumnsRead(s.columns, after);
    ListTrimmed(s.columns);
    AfterLast(s, d);
    TextTrimmed(list, after);
    SelectClauses(s, d, from, joins);
    BodyRead(d, list, s.columns, after, WithFrom(s, from, joins));
    SelectStarts(list, after);
  }

  predicate JoinsTrimmed(js: seq<Join>) {
    forall i :: 0 <= i < |js| ==> Trimmed(js[i].kind) && Trimmed(js[i].table) && Trimmed(js[i].on)
  }

  lemma GoodTrimmed(js: seq<Join>)
    requires GoodJoins(js)
    ensures JoinsTrimmed(js)
  {
    forall i | 0 <= i < |js| ensures Trimmed(js[i].kind) && Trimmed(js[i].table) && Trimmed(js[i].on) {
      assert GoodJoin(js[i]);
      JoinBasics(js[i]);
    }
  }

  lemma JoinsNormal(js: seq<Join>)
    requires JoinsTrimmed(js)
    ensures NormalJoins(js) == js
  {
    forall i | 0 <= i < |js| ensures NormalJoins(js)[i] == js[i] {
      TrimTrimmed(js[i].kind);
      TrimTrimmed(js[i].table);
      TrimTrimmed(js[i].on);
    }
  }

  lemma SelectNormal(s: Statement)
    requires s.Select? && Trimmed(s.from) && JoinsTrimmed(s.joins) && Trimmed(s.where)
    ensures Normal(s) == s
  {
    TrimTrimmed(s.from);
    TrimTrimmed(s.where);
    JoinsNormal(s.joins);
  }

  /** Rendered, parsed and normalised, a SELECT in pieces comes back as it was, but for what its FROM clause is read as. */
  lemma SelectReadsBack(s: Statement, d: Dialect, from: string, joins: seq<Join>)
    requires GoodSelect(s) && Read(d) && !EndsStatement(Written(s, d))
    requires FromReads(d, FromText(s), from, joins) && Trimmed(from) && JoinsTrimmed(joins)
    ensures Recovered(Written(s, d), d, ReaderFor(d)) == Ok(WithFrom(s, from, joins))
  {
    SelectWritten(s, d);
    SelectIsRead(s, d, from, joins);
    SelectIsParsed(d, Written(s, d), WithFrom(s, from, joins));
    SelectNormal(WithFrom(s, from, joins));
    NormalGiven(Written(s, d), d, ReaderFor(d), WithFrom(s, from, joins), WithFrom(s, from, joins));
  }

  lemma PostgresFrom(s: Statement)
    requires GoodSelect(s)
    ensures FromReads(Postgres, FromText(s), s.from, s.joins)
  {
    FromIsRead(s.from, s.joins);
    assert Asked(0);
  }

  /** Rendered for PostgreSQL, parsed and normalised, a SELECT in pieces comes back as it was. */
  lemma SelectRoundTrip(s: Statement)
    requires GoodSelect(s) && !EndsStatement(Written(s, Postgres))
    ensures Recovered(Written(s, Postgres), Postgres, PostgresReader()) == Ok(s)
  {
    PostgresFrom(s);
    GoodTrimmed(s.joins);
    SelectReadsBack(s, Postgres, s.from, s.joins);
  }

  // ----- the MySQL reader

  lemma {:induction false} AppendedTrimmed(t: string)
    ensures JoinsTrimmed(AppendJoins(t))
    decreases |t|
  {
    if Trim(t) != "" && FindJoin(t).0 >= 0 {
      var r := SplitRemainder(AfterKeyword(t));
      TailShorter(t);
      AppendedTrimmed(Trim(r.tail));
      AsJoinTrimmed(FindJoin(t).1, r);
    }
  }

  lemma AsJoinTrimmed(keyword: string, r: Remainder)
    ensures JoinsTrimmed([AsJoin(keyword, r)])
  {
    TrimIs(keyword);
    TrimIs(r.table);
    TrimIs(r.on);
  }

  lemma JoinsTrimmedAppend(a: seq<Join>, b: seq<Join>)
    requires JoinsTrimmed(a) && JoinsTrimmed(b)
    ensures JoinsTrimmed(a + b)
  {
  }

  lemma {:induction false} MySqlTrimmed(base: string, joins: seq<Join>)
    requires JoinsTrimmed(joins)
    ensures var r := MySqlFrom(base, joins); Trimmed(r.0) && JoinsTrimmed(r.1)
    decreases |base|
  {
    TrimIs(base);
    if FindJoin(base).0 >= 0 {
      FindJoinFits(base);
      var r := SplitRemainder(AfterKeyword(base));
      var more := joins + [AsJoin(FindJoin(base).1, r)];
      TailShorter(base);
      AsJoinTrimmed(FindJoin(base).1, r);
      JoinsTrimmedAppend(joins, [AsJoin(FindJoin(base).1, r)]);
      TrimIs(base[..FindJoin(base).0]);
      AppendedTrimmed(Trim(r.tail));
      JoinsTrimmedAppend(more, AppendJoins(Trim(r.tail)));
      MySqlTrimmed(Trim(r.tail), more);
    }
  }

  /** Rendered for MySQL, parsed and normalised, a SELECT in pieces comes back as it was exactly when it has at
      most one join. */
  lemma MySqlSelectExactly(s: Statement)
    requires GoodSelect(s) && !EndsStatement(Written(s, MySql))
    ensures Recovered(Written(s, MySql), MySql, MySqlReader()) == Ok(s) <==> |s.joins| <= 1
  {
    var r := MySqlFromAndJoins(FromText(s));
    MySqlTrimmed(Trim(FromText(s)), []);
    SelectReadsBack(s, MySql, r.0, r.1);
    MySqlJoinsExactly(s.from, s.joins);
  }

  /** And with more joins, the SELECT that comes back has the first one, and of those behind it what the reader
      makes of them. */
  lemma MySqlSelectReadsBack(s: Statement)
    requires GoodSelect(s) && !EndsStatement(Written(s, MySql)) && (s.joins != [] ==> PlainTables(s.joins[1..]))
    ensures Recovered(Written(s, MySql), MySql, MySqlReader()) == Ok(WithFrom(s, s.from, Intact(s.joins)))
  {
    var r := MySqlFromAndJoins(FromText(s));
    MySqlTrimmed(Trim(FromText(s)), []);
    SelectReadsBack(s, MySql, r.0, r.1);
    MySqlJoinsRead(s.from, s.joins);
  }
}
