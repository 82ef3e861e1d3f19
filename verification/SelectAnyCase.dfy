/**
 A rendered SELECT with its keywords in any case of letters is read as the same statement, but for the join words
 of PostgreSQL (internal/syntax/postgres/parser.go:12-75, 177-242, internal/syntax/mysql/parser.go:12-75,
 171-264, internal/syntax/syntax.go:141-184).
 */
module SelectAnyCase {
  import opened Basics
  import opened Strings
  import opened Numerals
  import opened TopLevel
  import opened TopLevelLaws
  import opened Statements
  import opened Readers
  import opened Normalizing
  import opened JoinReading
  import opened MySqlJoins
  import opened Rendering
  import opened ClauseReading
  import opened SelectReading
  import opened SelectTrip
  import opened LetterCase
  import opened JoinsAnyCase
  import opened KeptText

  /** How the words of a SELECT are spelled. */
  datatype Words = Words(select: string, from: string, where: string, order: string, limit: string, offset: string, joins: seq<JoinWords>)

  predicate Spelled(w: Words, s: Statement)
    requires s.Select?
  {
    && Alike(w.select, SELECT) && Alike(w.from, FROM) && Alike(w.where, WHERE) && Alike(w.order, ORDER_BY)
    && Alike(w.limit, LIMIT) && Alike(w.offset, OFFSET) && JoinsSpelled(w.joins, s.joins)
  }

  function OrderIn(word: string, orderBy: seq<string>): string { if orderBy == [] then "" else word + CommaList(orderBy) }

  /** The figures of a limit: the count, and the offset behind its word or, in MySQL, before a comma. */
  function FiguresIn(l: Limit, offset: string, d: Dialect): string {
    match l.offset
    case None => Itoa(l.count)
    case Some(m) => if d == Postgres then Itoa(l.count) + (offset + Itoa(m)) else Itoa(m) + (", " + Itoa(l.count))
  }

  function LimitIn(word: string, offset: string, limit: Option<Limit>, d: Dialect): string {
    match limit case None => "" case Some(l) => word + FiguresIn(l, offset, d)
  }

  function FromIn(s: Statement, w: Words): string
    requires s.Select?
  {
    s.from + JoinsIn(s.joins, w.joins)
  }

  function AfterIn(s: Statement, w: Words, d: Dialect): string
    requires s.Select?
  {
    FromIn(s, w) + (Clause(w.where, s.where) + (OrderIn(w.order, s.orderBy) + LimitIn(w.limit, w.offset, s.limit, d)))
  }

  /** The text of a SELECT with its words spelled so. */
  function TextIn(s: Statement, w: Words, d: Dialect): string
    requires s.Select?
  {
    w.select + (CommaList(s.columns) + (w.from + AfterIn(s, w, d)))
  }

  // ----- the limit

  lemma LimitTwin(w: Words, limit: Option<Limit>, d: Dialect)
    requires Read(d) && Alike(w.limit, LIMIT) && Alike(w.offset, OFFSET)
    ensures Twins(LimitText(limit, d), LimitIn(w.limit, w.offset, limit, d))
  {
    if limit.None? {
      TwinItself("");
    } else {
      var l := limit.value;
      AlikeTurned(w.limit, LIMIT);
      Seal(LIMIT, w.limit);
      FiguresTwin(l, w.offset, d);
      TwinAppend(LIMIT, w.limit, FiguresIn(l, OFFSET, d), FiguresIn(l, w.offset, d));
      FiguresSpelled(l, d);
    }
  }

  lemma FiguresTwin(l: Limit, offset: string, d: Dialect)
    requires Alike(offset, OFFSET)
    ensures Twins(FiguresIn(l, OFFSET, d), FiguresIn(l, offset, d))
  {
    if d == Postgres && l.offset.Some? {
      var n, m := Itoa(l.count), Itoa(l.offset.value);
      AlikeTurned(offset, OFFSET);
      Seal(OFFSET, offset);
      TwinItself(n);
      TwinItself(m);
      TwinAppend(OFFSET, offset, m, m);
      TwinAppend(n, n, OFFSET + m, offset + m);
    } else {
      TwinItself(FiguresIn(l, offset, d));
    }
  }

  lemma FiguresSpelled(l: Limit, d: Dialect)
    requires Read(d)
    ensures LimitText(Some(l), d) == LIMIT + FiguresIn(l, OFFSET, d)
  {
    var n := Itoa(l.count);
    assert n + "" == n;
    if l.offset.Some? {
      Assoc(LIMIT, n, OFFSET + Itoa(l.offset.value));
      Assoc(LIMIT, Itoa(l.offset.value), ", " + n);
    }
  }

  lemma OffsetInRead(n: int, m: int, word: string)
    requires IsInt(n) && IsInt(m) && Alike(word, OFFSET)
    ensures PostgresLimit(Itoa(n) + (word + Itoa(m))) == Ok(Limit(Some(m), n))
  {
    var a, b := Itoa(n), Itoa(m);
    var t, u := a + (word + b), a + (OFFSET + b);
    NumberShape(n);
    NumberShape(m);
    OffsetPlace(a, b);
    AlikeItself(a);
    AlikeItself(b);
    AlikeAppend(word, OFFSET, b, b);
    AlikeAppend(a, a, word + b, OFFSET + b);
    AlikeExactly(t, u);
    TrimmedAround(a, word, b);
    NumberRead(n);
    NumberRead(m);
    OffsetInAt(t, a, word, b, n, m);
  }

  lemma OffsetInAt(t: string, a: string, word: string, b: string, n: int, m: int)
    requires t == a + (word + b) && |word| == |OFFSET| && IndexOf(Upper(Trim(t)), OFFSET) == |a|
    requires ReadNumber(a) == Ok(n) && ReadNumber(b) == Ok(m)
    ensures PostgresLimit(t) == Ok(Limit(Some(m), n))
  {
    Middle(a, word, b);
  }

  /** What stands behind LIMIT is read back, in either dialect. */
  lemma FiguresInRead(l: Limit, offset: string, d: Dialect)
    requires Read(d) && GoodLimit(Some(l)) && Alike(offset, OFFSET)
    ensures (if d == Postgres then PostgresLimit(FiguresIn(l, offset, d)) else MySqlLimit(FiguresIn(l, offset, d))) == Ok(l)
  {
    if d == Postgres && l.offset.Some? {
      OffsetInRead(l.count, l.offset.value, offset);
    } else if d == Postgres {
      CountRead(l.count);
    } else {
      MySqlLimitRead(l);
      FiguresSpelled(l, MySql);
      assert (LIMIT + FiguresIn(l, offset, d))[|LIMIT|..] == FiguresIn(l, offset, d);
    }
  }

  lemma LimitInAt(d: Dialect, t: string, p: string, word: string, x: string, l: Limit, places: Places)
    requires Read(d) && |word| == |LIMIT| && t == p + (word + x) && places.l == |p|
    requires (if d == Postgres then PostgresLimit(x) else MySqlLimit(x)) == Ok(l)
    ensures LimitGives(d, t, places, Some(l))
  {
    Middle(p, word, x);
  }

  lemma LimitInGiven(c: Clauses, w: Words, wt: string, ot: string, lt: string)
    requires Read(c.d) && GoodLimit(c.limit) && lt == LimitIn(w.limit, w.offset, c.limit, c.d) && (lt == "" <==> c.limit.None?)
    requires Alike(w.limit, LIMIT) && Alike(w.offset, OFFSET)
    ensures LimitGives(c.d, Whole(c, wt, ot, lt), PlacesOf(c, wt, ot, lt), c.limit)
  {
    var t, p := Whole(c, wt, ot, lt), c.f + wt + ot;
    assert t == p + lt;
    if c.limit.Some? {
      FiguresInRead(c.limit.value, w.offset, c.d);
      LimitInAt(c.d, t, p, w.limit, FiguresIn(c.limit.value, w.offset, c.d), c.limit.value, PlacesOf(c, wt, ot, lt));
    }
  }

  // ----- the clauses

  lemma ClauseTwin(word: string, kw: string, x: string)
    requires Alike(word, kw)
    ensures Twins(Clause(kw, x), Clause(word, x))
  {
    AlikeTurned(word, kw);
    Seal(kw, word);
    TwinItself(x);
    TwinItself("");
    TwinAppend(kw, word, x, x);
  }

  lemma OrderTwin(word: string, orderBy: seq<string>)
    requires Alike(word, ORDER_BY)
    ensures Twins(OrderText(orderBy), OrderIn(word, orderBy))
  {
    if orderBy == [] { TwinItself(""); } else {
      var list := CommaList(orderBy);
      AlikeTurned(word, ORDER_BY);
      Seal(ORDER_BY, word);
      TwinItself(list);
      TwinAppend(ORDER_BY, word, list, list);
    }
  }

  /** The four texts of the clauses in two spellings. */
  ghost predicate FourTwins(c: Clauses, wt: string, ot: string, lt: string, f: string, wt': string, ot': string, lt': string) {
    Twins(c.f, f) && Twins(wt, wt') && Twins(ot, ot') && Twins(lt, lt')
  }

  lemma WholeTwin(c: Clauses, wt: string, ot: string, lt: string, f: string, wt': string, ot': string, lt': string)
    requires FourTwins(c, wt, ot, lt, f, wt', ot', lt')
    ensures Twins(Whole(c, wt, ot, lt), Whole(c.(f := f), wt', ot', lt'))
    ensures PlacesOf(c, wt, ot, lt) == PlacesOf(c.(f := f), wt', ot', lt')
  {
    TwinLength(c.f, f);
    TwinLength(wt, wt');
    TwinLength(ot, ot');
    TwinLength(lt, lt');
    TwinAppend(ot, ot', lt, lt');
    TwinAppend(wt, wt', ot + lt, ot' + lt');
    TwinAppend(c.f, f, wt + (ot + lt), wt' + (ot' + lt'));
  }

  lemma FoundIn(t: string, u: string, p: Places)
    requires Found(t, p) && Twins(t, u)
    ensures Found(u, p)
  {
    TwinFound(t, u, WHERE, p.w);
    TwinFound(t, u, ORDER_BY, p.o);
    TwinFound(t, u, LIMIT, p.l);
  }

  lemma WordsLong(w: Words)
    requires Alike(w.where, WHERE) && Alike(w.order, ORDER_BY)
    ensures |w.where| == |WHERE| && |w.order| == |ORDER_BY|
  {
  }

  /** Each clause is read where the keywords are, whatever their case. */
  lemma GivenIn(c: Clauses, f: string, w: Words, wt: string, ot: string, lt: string)
    requires Sealed(c) && |w.where| == |WHERE| && |w.order| == |ORDER_BY| && Alike(w.limit, LIMIT) && Alike(w.offset, OFFSET)
    requires wt == Clause(w.where, c.where) && ot == OrderIn(w.order, c.orderBy) && lt == LimitIn(w.limit, w.offset, c.limit, c.d)
    requires lt == "" <==> c.limit.None?
    ensures var t, p := Whole(c.(f := f), wt, ot, lt), PlacesOf(c.(f := f), wt, ot, lt);
      WhereGives(t, p, c.where) && OrderGives(t, p, c.orderBy) && LimitGives(c.d, t, p, c.limit)
  {
    var e := c.(f := f);
    OrderSplits(c);
    SealedBasics(c);
    WhereGiven(e, w.where, wt, ot, lt);
    OrderGiven(e, w.order, wt, ot, lt);
    LimitInGiven(e, w, wt, ot, lt);
  }

  lemma ClausesInRead(columns: seq<string>, c: Clauses, f: string, w: Words, wt: string, ot: string, lt: string,
                      wt': string, ot': string, lt': string)
    requires Sealed(c) && Texts(c, wt, ot, lt) && FourTwins(c, wt, ot, lt, f, wt', ot', lt')
    requires |w.where| == |WHERE| && |w.order| == |ORDER_BY| && Alike(w.limit, LIMIT) && Alike(w.offset, OFFSET)
    requires wt' == Clause(w.where, c.where) && ot' == OrderIn(w.order, c.orderBy) && lt' == LimitIn(w.limit, w.offset, c.limit, c.d)
    requires FromReads(c.d, f, c.from, c.joins)
    ensures ClausesGive(c.d, columns, Whole(c.(f := f), wt', ot', lt'), Select(columns, c.from, c.joins, c.where, c.orderBy, c.limit))
  {
    var e := c.(f := f);
    PlacesFound(c, wt, ot, lt);
    TextsEmpty(c, wt, ot, lt);
    TwinLength(lt, lt');
    WholeTwin(c, wt, ot, lt, f, wt', ot', lt');
    FoundIn(Whole(c, wt, ot, lt), Whole(e, wt', ot', lt'), PlacesOf(c, wt, ot, lt));
    GivenIn(c, f, w, wt', ot', lt');
    FromEnds(e, wt', ot', lt');
    Assemble(columns, e, Whole(e, wt', ot', lt'), PlacesOf(e, wt', ot', lt'));
  }

  // ----- the statement

  lemma FromTwin(s: Statement, w: Words)
    requires s.Select? && JoinsSpelled(w.joins, s.joins)
    ensures Twins(FromText(s), FromIn(s, w))
  {
    JoinsTwin(s.joins, w.joins);
    TwinItself(s.from);
    TwinAppend(s.from, s.from, JoinsText(s.joins), JoinsIn(s.joins, w.joins));
  }

  lemma PartsTwin(s: Statement, w: Words, d: Dialect, c: Clauses)
    requires s.Select? && Read(d) && Spelled(w, s) && c.f == FromText(s)
    ensures FourTwins(c, WhereText(s.where), OrderText(s.orderBy), LimitText(s.limit, d),
                      FromIn(s, w), Clause(w.where, s.where), OrderIn(w.order, s.orderBy), LimitIn(w.limit, w.offset, s.limit, d))
  {
    FromTwin(s, w);
    ClauseTwin(w.where, WHERE, s.where);
    OrderTwin(w.order, s.orderBy);
    LimitTwin(w, s.limit, d);
  }

  lemma AfterTwin(s: Statement, w: Words, d: Dialect)
    requires s.Select? && Read(d) && Spelled(w, s)
    ensures Twins(AfterFrom(s, d), AfterIn(s, w, d))
  {
    var c := ClausesOf(s, d, s.from, s.joins);
    PartsTwin(s, w, d, c);
    WholeTwin(c, WhereText(s.where), OrderText(s.orderBy), LimitText(s.limit, d),
              FromIn(s, w), Clause(w.where, s.where), OrderIn(w.order, s.orderBy), LimitIn(w.limit, w.offset, s.limit, d));
  }

  /** The written text and its spelling are alike. */
  lemma TextTwin(s: Statement, w: Words, d: Dialect)
    requires s.Select? && Read(d) && Spelled(w, s)
    ensures var list := CommaList(s.columns);
      && Twins(list + (FROM + AfterFrom(s, d)), list + (w.from + AfterIn(s, w, d)))
      && Twins(SelectText(list, AfterFrom(s, d)), TextIn(s, w, d))
  {
    var list, a, b := CommaList(s.columns), AfterFrom(s, d), AfterIn(s, w, d);
    AfterTwin(s, w, d);
    AlikeTurned(w.from, FROM);
    AlikeTurned(w.select, SELECT);
    Seal(FROM, w.from);
    Seal(SELECT, w.select);
    TwinItself(list);
    TwinAppend(FROM, w.from, a, b);
    TwinAppend(list, list, FROM + a, w.from + b);
    TwinAppend(SELECT, w.select, list + (FROM + a), list + (w.from + b));
  }

  lemma ClausesOfSelect(s: Statement, w: Words, d: Dialect, from: string, joins: seq<Join>)
    requires GoodSelect(s) && Read(d) && Spelled(w, s) && FromReads(d, FromIn(s, w), from, joins)
    ensures ClausesGive(d, s.columns, AfterIn(s, w, d), WithFrom(s, from, joins))
  {
    var c := ClausesOf(s, d, from, joins);
    SelectSeals(s, d, from, joins);
    PartsTwin(s, w, d, c);
    WordsLong(w);
    ClausesInRead(s.columns, c, FromIn(s, w), w, WhereText(s.where), OrderText(s.orderBy), LimitText(s.limit, d),
                  Clause(w.where, s.where), OrderIn(w.order, s.orderBy), LimitIn(w.limit, w.offset, s.limit, d));
  }

  lemma BodyInRead(d: Dialect, select: string, list: string, from: string, columns: seq<string>, after: string, s: Statement)
    requires |select| == |SELECT| && |from| == |FROM| && Trimmed(list + (from + after))
    requires Find(OUT, list + (from + after), FROM) == |list| && Split(list) == columns && ClausesGive(d, columns, after, s)
    ensures SelectGives(d, select + (list + (from + after)), s)
  {
    assert Asked(0);
    var t, body := select + (list + (from + after)), list + (from + after);
    assert t[|SELECT|..] == body;
    TrimTrimmed(body);
    Halves(list, from, after);
  }

  lemma TrimmedBoth(s: Statement, d: Dialect)
    requires GoodSelect(s) && Read(d)
    ensures var list := CommaList(s.columns);
      Trimmed(list + (FROM + AfterFrom(s, d))) && Trimmed(SelectText(list, AfterFrom(s, d)))
  {
    ListTrimmed(s.columns);
    AfterLast(s, d);
    TextTrimmed(CommaList(s.columns), AfterFrom(s, d));
    TrimIs(CommaList(s.columns) + (FROM + AfterFrom(s, d)));
    TrimIs(SelectText(CommaList(s.columns), AfterFrom(s, d)));
  }

  lemma FoundFrom(s: Statement, w: Words, d: Dialect)
    requires GoodSelect(s) && Read(d) && Spelled(w, s)
    ensures var list := CommaList(s.columns);
      Find(OUT, list + (w.from + AfterIn(s, w, d)), FROM) == |list| && Split(list) == s.columns
  {
    ColumnsRead(s.columns, AfterFrom(s, d));
    TextTwin(s, w, d);
    TwinFind(CommaList(s.columns) + (FROM + AfterFrom(s, d)), CommaList(s.columns) + (w.from + AfterIn(s, w, d)), FROM);
  }

  lemma EndsInRead(s: Statement, w: Words, d: Dialect)
    requires GoodSelect(s) && Read(d) && Spelled(w, s)
    ensures Trimmed(CommaList(s.columns) + (w.from + AfterIn(s, w, d))) && Trimmed(TextIn(s, w, d))
    ensures Matches(TextIn(s, w, d), SELECT) && (EndsStatement(TextIn(s, w, d)) <==> EndsStatement(Written(s, d)))
  {
    var list := CommaList(s.columns);
    TrimmedBoth(s, d);
    TextTwin(s, w, d);
    SelectWritten(s, d);
    SelectStarts(list, AfterFrom(s, d));
    TwinEnds(list + (FROM + AfterFrom(s, d)), list + (w.from + AfterIn(s, w, d)));
    TwinEnds(SelectText(list, AfterFrom(s, d)), TextIn(s, w, d));
    TwinMatches(SelectText(list, AfterFrom(s, d)), TextIn(s, w, d), SELECT);
  }

  lemma SelectInRead(s: Statement, w: Words, d: Dialect, from: string, joins: seq<Join>)
    requires GoodSelect(s) && Read(d) && Spelled(w, s) && FromReads(d, FromIn(s, w), from, joins)
    ensures SelectGives(d, TextIn(s, w, d), WithFrom(s, from, joins))
  {
    EndsInRead(s, w, d);
    FoundFrom(s, w, d);
    ClausesOfSelect(s, w, d, from, joins);
    assert |w.select| == |SELECT| && |w.from| == |FROM|;
    BodyInRead(d, w.select, CommaList(s.columns), w.from, s.columns, AfterIn(s, w, d), WithFrom(s, from, joins));
  }

  /** Parsed and normalised, the text comes back as the statement, but for what its FROM clause is read as. */
  lemma SelectInBack(s: Statement, w: Words, d: Dialect, from: string, joins: seq<Join>)
    requires GoodSelect(s) && Read(d) && Spelled(w, s) && !EndsStatement(Written(s, d))
    requires FromReads(d, FromIn(s, w), from, joins) && Trimmed(from) && JoinsTrimmed(joins)
    ensures Recovered(TextIn(s, w, d), d, ReaderFor(d)) == Ok(WithFrom(s, from, joins))
  {
    EndsInRead(s, w, d);
    SelectInRead(s, w, d, from, joins);
    TrimTrimmed(TextIn(s, w, d));
    SelectIsParsed(d, TextIn(s, w, d), WithFrom(s, from, joins));
    SelectNormal(WithFrom(s, from, joins));
    NormalGiven(TextIn(s, w, d), d, ReaderFor(d), WithFrom(s, from, joins), WithFrom(s, from, joins));
  }

  lemma {:induction false} TakenTrimmed(js: seq<Join>, ws: seq<JoinWords>)
    requires GoodJoins(js) && JoinsSpelled(ws, js)
    ensures JoinsTrimmed(AllTaken(js, ws))
  {
    if js != [] {
      assert GoodJoin(js[0]) && Spells(ws[0], js[0]) && GoodJoins(js[1..]) && JoinsSpelled(ws[1..], js[1..]);
      TakenTrimmed(js[1..], ws[1..]);
      OneTakenTrimmed(js[0], ws[0]);
      JoinsTrimmedAppend([Captured(js[0], ws[0].kind)], AllTaken(js[1..], ws[1..]));
    }
  }

  lemma OneTakenTrimmed(j: Join, w: JoinWords)
    requires GoodJoin(j) && Spells(w, j)
    ensures JoinsTrimmed([Captured(j, w.kind)])
  {
    KindTrimmed(j.kind);
    AlikeEnds(w.kind, j.kind);
    assert w.kind + " " + j.table == w.kind + (" " + j.table);
    TrimmedAround(w.kind, " ", j.table);
  }

  /** The text differs from the rendered one in the case of letters only. */
  lemma TextAlike(s: Statement, w: Words, d: Dialect)
    requires GoodSelect(s) && Read(d) && Spelled(w, s)
    ensures Alike(Written(s, d), TextIn(s, w, d))
  {
    SelectWritten(s, d);
    TextTwin(s, w, d);
    Unsealed(Written(s, d), TextIn(s, w, d));
  }

  /** What the PostgreSQL reader makes of a SELECT in any case of letters: the same statement, but that join words
      without capitals are left in the table name. */
  lemma PostgresAnyCase(s: Statement, w: Words)
    requires GoodSelect(s) && Spelled(w, s) && !EndsStatement(Written(s, Postgres))
    ensures Recovered(TextIn(s, w, Postgres), Postgres, PostgresReader()) == Ok(s.(joins := AllTaken(s.joins, w.joins)))
  {
    PostgresJoinsRead(s.from, s.joins, w.joins);
    assert FromReads(Postgres, FromIn(s, w), s.from, AllTaken(s.joins, w.joins)) by { assert Asked(0); }
    TakenTrimmed(s.joins, w.joins);
    SelectInBack(s, w, Postgres, s.from, AllTaken(s.joins, w.joins));
  }

  /** So it is the same statement exactly when its join words are in capitals. */
  lemma PostgresAnyCaseExactly(s: Statement, w: Words)
    requires GoodSelect(s) && Spelled(w, s) && !EndsStatement(Written(s, Postgres))
    ensures Alike(Written(s, Postgres), TextIn(s, w, Postgres))
    ensures Recovered(TextIn(s, w, Postgres), Postgres, PostgresReader()) == Ok(s)
       <==> forall i :: 0 <= i < |s.joins| ==> w.joins[i].kind == s.joins[i].kind
  {
    TextAlike(s, w, Postgres);
    PostgresAnyCase(s, w);
    TakenExactly(s.joins, w.joins);
  }

  /** A SELECT in any case of letters is the same statement to the MySQL reader, exactly when it has at most one
      join. */
  lemma MySqlAnyCase(s: Statement, w: Words)
    requires GoodSelect(s) && Spelled(w, s) && !EndsStatement(Written(s, MySql))
    ensures Alike(Written(s, MySql), TextIn(s, w, MySql))
    ensures Recovered(TextIn(s, w, MySql), MySql, MySqlReader()) == Ok(s) <==> |s.joins| <= 1
  {
    TextAlike(s, w, MySql);
    var f := FromIn(s, w);
    var r := MySqlFromAndJoins(f);
    MySqlTrimmed(Trim(f), []);
    assert FromReads(MySql, f, r.0, r.1);
    SelectInBack(s, w, MySql, r.0, r.1);
    MySqlAnyCaseExactly(s.from, s.joins, w.joins);
  }

  // ----- small letters

  lemma {:induction false} LetterMissing(m: Mode, s: string, kw: string, j: nat)
    requires j < |kw| && forall i :: 0 <= i < |s| ==> UpperChar(s[i]) != UpperChar(kw[j])
    ensures Find(m, s, kw) < 0
    decreases |s|
  {
    if |s| >= |kw| {
      assert UpperChar(s[j]) != UpperChar(kw[j]);
      LetterMissing(Step(m, s[0]), s[1..], kw, j);
    }
  }

  const JOINED := Select(["a"], "t", [Join("JOIN", "u", "b")], "", [], None)

  const SMALL := Words("select ", " from ", " where ", " order by ", " limit ", " offset ", [JoinWords("join", " on ")])

  predicate Letter(p: string) { |p| == 1 && 'a' <= p[0] <= 'z' }

  lemma LetterFree(p: string, kw: string)
    requires Letter(p) && |kw| >= 4
    ensures Free(p, kw)
  {
    var t := " " + p + " ";
    assert |t| == 3;
  }

  lemma LetterPiece(p: string)
    requires Letter(p)
    ensures p != "" && Piece(p)
  {
    var rest := p[1..];
    assert rest == "" && Step(OUT, p[0]) == OUT;
    assert Run(OUT, p) == Run(OUT, rest) && Run(OUT, rest) == OUT;
    assert CommaFree(OUT, rest);
  }

  lemma LetterRead(p: string)
    requires Letter(p)
    ensures Solid(p) && Piece(p) && JoinFree(p) && Free(p, FROM) && Free(p, ON)
  {
    LetterPiece(p);
    LetterFree(p, LEFT_JOIN);
    LetterFree(p, INNER_JOIN);
    LetterFree(p, JOIN);
    LetterFree(p, FROM);
    LetterFree(p, ON);
  }

  const WRITTEN_FROM := "t JOIN u ON b"

  lemma FromWithout(kw: string, j: nat)
    requires (kw == WHERE && j == 1) || (kw == ORDER_BY && j == 3) || (kw == LIMIT && j == 1)
    ensures Free(WRITTEN_FROM, kw)
  {
    var s := " " + WRITTEN_FROM + " ";
    forall i | 0 <= i < |s| ensures UpperChar(s[i]) != kw[j] { }
    LetterMissing(OUT, s, kw, j);
  }

  lemma JoinedFrom()
    ensures FromText(JOINED) == WRITTEN_FROM
  {
    JoinsTextTail(JOINED.joins);
    assert JoinsText([]) == "" && JOINED.joins[1..] == [];
    OneJoinText("JOIN", "u", "b");
  }

  lemma OneJoinText(kind: string, table: string, on: string)
    ensures "t" + (" " + JoinText(Join(kind, table, on), "")) == "t " + kind + " " + table + " ON " + on
  {
  }

  /** A SELECT of one column, one join and nothing else. */
  lemma OneColumn(a: string)
    requires Letter(a)
    ensures SolidPieces([a]) && CommaList([a]) == a
  {
    LetterPiece(a);
    assert [a][0] == a;
  }

  lemma JoinedGood()
    ensures GoodSelect(JOINED)
  {
    LetterRead("a");
    LetterRead("t");
    LetterRead("u");
    LetterRead("b");
    OneColumn("a");
    JoinedFrom();
    FromWithout(WHERE, 1);
    FromWithout(ORDER_BY, 3);
    FromWithout(LIMIT, 1);
    NothingElse(JOINED, JOINED.joins[0]);
  }

  lemma NothingElse(s: Statement, j: Join)
    requires s.Select? && s.joins == [j] && s.where == "" && s.orderBy == [] && s.limit.None? && GoodJoin(j)
    requires s.columns != [] && SolidPieces(s.columns) && Free(CommaList(s.columns), FROM) && Solid(s.from) && JoinFree(s.from)
    requires Free(FromText(s), WHERE) && Free(FromText(s), ORDER_BY) && Free(FromText(s), LIMIT)
    ensures GoodSelect(s)
  {
    LetterFreeNothing();
  }

  lemma LetterFreeNothing()
    ensures GoodOrder([], "") && GoodWhere("") && GoodLimit(None)
  {
    assert CommaList([]) == "" && |" " + "" + " "| == 2;
  }

  lemma SmallSpelled()
    ensures Spelled(SMALL, JOINED)
  {
    assert Spells(SMALL.joins[0], JOINED.joins[0]);
  }

  const SMALL_TEXT := "select a from t join u on b"

  lemma SmallText()
    ensures TextIn(JOINED, SMALL, Postgres) == SMALL_TEXT
  {
    OneColumn("a");
    OneJoinIn(JOINED.joins[0], SMALL.joins[0]);
    assert JOINED.joins == [JOINED.joins[0]] && SMALL.joins == [SMALL.joins[0]];
    SmallLetters();
    BareText(JOINED, SMALL, " join u on b");
  }

  lemma SmallLetters()
    ensures "select " + "a" + " from " + "t" + " join u on b" == SMALL_TEXT
    ensures " " + "join" + " " + "u" + " on " + "b" == " join u on b"
  {
  }

  lemma OneJoinIn(j: Join, w: JoinWords)
    ensures JoinsIn([j], [w]) == " " + w.kind + " " + j.table + w.on + j.on
  {
    assert [j][1..] == [] && JoinsIn([], []) == "";
    assert j.on + "" == j.on;
    assert [j][0] == j && [w][0] == w;
  }

  lemma BareText(s: Statement, w: Words, joins: string)
    requires s.Select? && s.where == "" && s.orderBy == [] && s.limit.None? && JoinsIn(s.joins, w.joins) == joins
    ensures TextIn(s, w, Postgres) == w.select + CommaList(s.columns) + w.from + s.from + joins
  {
    var f := s.from + joins;
    assert f + ("" + ("" + "")) == f;
    Nested(w.select, CommaList(s.columns), w.from, s.from, joins, "", "");
  }

  lemma SmallEnds()
    ensures !EndsStatement(Written(JOINED, Postgres))
  {
    JoinedGood();
    SmallSpelled();
    SmallText();
    EndsInRead(JOINED, SMALL, Postgres);
  }

  lemma SmallTaken()
    ensures AllTaken(JOINED.joins, SMALL.joins) == [Join("JOIN", "join u", "b")]
  {
    assert AllTaken(JOINED.joins[1..], SMALL.joins[1..]) == [];
    assert "join" + " " + "u" == "join u" && "join"[0] != "JOIN"[0];
  }

  /** The same statement in small letters: the PostgreSQL reader takes "join u" for the table. */
  lemma SmallJoinStays()
    ensures Recovered(SMALL_TEXT, Postgres, PostgresReader()) == Ok(JOINED.(joins := [Join("JOIN", "join u", "b")]))
  {
    JoinedGood();
    SmallSpelled();
    SmallEnds();
    SmallText();
    SmallTaken();
    PostgresAnyCase(JOINED, SMALL);
  }
}
