/**
 Which written statements come back when their text may end in a semicolon: exactly those whose text
 does not (internal/render/render.go:106-145, 171-197, internal/syntax/syntax.go:94-96,
 internal/normalize/normalize.go:15-89).
 */
module SemicolonTrip {
  import opened Basics
  import opened Strings
  import Numerals
  import opened TopLevel
  import opened TopLevelLaws
  import opened Statements
  import opened Readers
  import opened DmlReaders
  import opened MySqlJoins
  import opened Normalizing
  import opened JoinReading
  import opened Rendering
  import opened ClauseReading
  import opened SelectReading
  import opened SelectTrip
  import opened QuotedNames
  import opened DmlTrip
  import opened Semicolons

  // ----- names

  lemma {:induction false} CutLeftSemis(s: string)
    ensures Semis(CutLeft(s)) <= Semis(s)
  {
    if s != "" && IsCut(s[0]) { CutLeftSemis(s[1..]); }
  }

  lemma CutSemis(s: string)
    ensures Semis(Cut(s)) <= Semis(s)
  {
    var l := CutLeft(s);
    CutLeftSemis(s);
    SemisCut(l, |Cut(s)|);
    assert l[..|Cut(s)|] == Cut(s);
  }

  lemma {:induction false} SplitOnSemis(s: string, sep: char)
    ensures AllSemis(SplitOn(s, sep)) <= Semis(s)
  {
    if s == "" {
      assert [""][1..] == [];
    } else {
      var r := SplitOn(s[1..], sep);
      SplitOnSemis(s[1..], sep);
      if s[0] == sep {
        assert ([""] + r)[1..] == r;
      } else {
        assert ([[s[0]] + r[0]] + r[1..])[1..] == r[1..];
        SemisAppend([s[0]], r[0]);
        assert [s[0]][1..] == "";
      }
    }
  }

  lemma {:induction false} JoinWithSemis(ps: seq<string>, sep: char)
    requires sep != ';'
    ensures Semis(JoinWith(ps, sep)) == AllSemis(ps)
  {
    if |ps| == 1 {
      assert ps[1..] == [];
    } else if |ps| > 1 {
      JoinWithSemis(ps[1..], sep);
      SemisAppend([sep], JoinWith(ps[1..], sep));
      SemisAppend(ps[0], [sep] + JoinWith(ps[1..], sep));
      assert [sep][1..] == "";
    }
  }

  lemma {:induction false} CutAllSemis(ps: seq<string>)
    ensures AllSemis(CutAll(ps)) <= AllSemis(ps)
  {
    if ps != [] {
      CutSemis(ps[0]);
      CutAllSemis(ps[1..]);
    }
  }

  lemma {:induction false} QuotePartsSemis(ps: seq<string>, q: char)
    requires q != ';'
    ensures AllSemis(QuoteParts(ps, q)) <= AllSemis(ps)
  {
    if ps != [] {
      CutSemis(ps[0]);
      SemisAppend([q] + Cut(ps[0]), [q]);
      SemisAppend([q], Cut(ps[0]));
      assert [q][1..] == "";
      QuotePartsSemis(ps[1..], q);
    }
  }

  lemma BareSemis(name: string)
    ensures Semis(Bare(name)) <= Semis(name)
  {
    var ps := SplitOn(Trim(name), '.');
    SemisTrim(name);
    SplitOnSemis(Trim(name), '.');
    CutAllSemis(ps);
    JoinWithSemis(CutAll(ps), '.');
  }

  lemma QuotedSemis(name: string, q: char)
    requires Marks(q)
    ensures Semis(Quoted(name, q)) <= Semis(name)
  {
    var ps := SplitOn(Trim(name), '.');
    SemisTrim(name);
    SplitOnSemis(Trim(name), '.');
    QuotePartsSemis(ps, q);
    JoinWithSemis(QuoteParts(ps, q), '.');
  }

  // ----- normalising

  lemma {:induction false} NormalJoinsSemis(js: seq<Join>)
    ensures JoinSemis(NormalJoins(js)) <= JoinSemis(js)
  {
    if js != [] {
      var front, j := js[..|js| - 1], js[|js| - 1];
      NormalJoinsSemis(front);
      SemisTrim(j.table);
      SemisTrim(j.on);
      OneJoin(j);
      OneJoin(Join(Trim(j.kind), Trim(j.table), Trim(j.on)));
      JoinSemisAppend(front, [j]);
      assert front + [j] == js;
      JoinSemisAppend(NormalJoins(front), [Join(Trim(j.kind), Trim(j.table), Trim(j.on))]);
    }
  }

  lemma {:induction false} AssignedAppend(a: seq<Assignment>, b: seq<Assignment>)
    ensures AssignedSemis(a + b) == AssignedSemis(a) + AssignedSemis(b)
  {
    if a == [] {
      assert a + b == b;
    } else {
      assert (a + b)[1..] == a[1..] + b;
      AssignedAppend(a[1..], b);
    }
  }

  lemma OneAssigned(x: Assignment)
    ensures AssignedSemis([x]) == Semis(x.column) + Semis(x.value)
  {
    assert [x][1..] == [];
  }

  lemma {:induction false} NormalAssignedSemis(xs: seq<Assignment>)
    ensures AssignedSemis(NormalAssignments(xs)) <= AssignedSemis(xs)
  {
    if xs != [] {
      var front, x := xs[..|xs| - 1], xs[|xs| - 1];
      var y := Assignment(Bare(x.column), Trim(x.value));
      NormalAssignedSemis(front);
      BareSemis(x.column);
      SemisTrim(x.value);
      OneAssigned(x);
      OneAssigned(y);
      AssignedAppend(front, [x]);
      assert front + [x] == xs;
      AssignedAppend(NormalAssignments(front), [y]);
    }
  }

  /** Normalising adds no semicolon. */
  lemma NormalSemis(x: Statement)
    ensures Weight(Normal(x)) <= Weight(x)
  {
    match x
    case Select(_, from, joins, where, _, _) =>
      SemisTrim(from);
      SemisTrim(where);
      NormalJoinsSemis(joins);
    case Update(table, xs, where) =>
      BareSemis(table);
      NormalAssignedSemis(xs);
      SemisTrim(where);
    case Delete(table, where) =>
      BareSemis(table);
      SemisTrim(where);
    case _ =>
  }

  // ----- what UPDATE and DELETE are read as

  lemma CutEqualsSemis(part: string, a: Assignment)
    requires CutEquals(part) == Ok(a)
    ensures Semis(a.column) + Semis(a.value) <= Semis(part)
  {
    var i := IndexOf(part, "=");
    IndexFits(part, "=");
    SemisTwo(part, i, i + 1);
    SemisTrim(part[..i]);
    SemisTrim(part[i + 1..]);
  }

  lemma {:induction false} PairUpSemis(parts: seq<string>, xs: seq<Assignment>)
    requires PairUp(parts) == Ok(xs)
    ensures AssignedSemis(xs) <= AllSemis(parts)
  {
    if parts != [] {
      CutEqualsSemis(parts[0], CutEquals(parts[0]).value);
      PairUpSemis(parts[1..], PairUp(parts[1..]).value);
      OneAssigned(CutEquals(parts[0]).value);
      AssignedAppend([CutEquals(parts[0]).value], PairUp(parts[1..]).value);
    }
  }

  lemma AssignmentsSemis(input: string, xs: seq<Assignment>)
    requires ReadAssignments(input) == Ok(xs)
    ensures AssignedSemis(xs) <= Semis(input)
  {
    SplitSemis(input);
    PairUpSemis(Split(input), xs);
  }

  lemma UpdateFromSemis(table: string, after: string, x: Statement)
    requires UpdateFrom(table, after) == Ok(x)
    ensures Weight(x) <= Semis(table) + Semis(after)
  {
    var w := Find(OUT, after, WHERE);
    if w >= 0 {
      SemisTwo(after, w, w + |WHERE|);
      SemisTrim(after[w + |WHERE|..]);
      AssignmentsSemis(after[..w], x.assignments);
    } else {
      AssignmentsSemis(after, x.assignments);
    }
  }

  lemma UpdateSemis(u: string, x: Statement)
    requires |u| >= |UPDATE| && ReadUpdate(u) == Ok(x)
    ensures Weight(x) <= Semis(u)
  {
    var body := Trim(u[|UPDATE|..]);
    var at := Find(OUT, body, SET);
    SemisCut(u, |UPDATE|);
    SemisTrim(u[|UPDATE|..]);
    if at >= 0 {
      SemisTwo(body, at, at + |SET|);
      SemisTrim(body[..at]);
      UpdateFromSemis(Trim(body[..at]), body[at + |SET|..], x);
    }
  }

  lemma DeleteBodySemis(body: string)
    ensures Weight(DeleteFrom(body)) <= Semis(body)
  {
    var w := Find(OUT, body, WHERE);
    if w < 0 {
      SemisTrim(body);
      SemisNone("");
    } else {
      SemisTwo(body, w, w + |WHERE|);
      SemisTrim(body[..w]);
      SemisTrim(body[w + |WHERE|..]);
    }
  }

  lemma DeleteSemis(u: string)
    requires |u| >= |DELETE_FROM|
    ensures Weight(DeleteFrom(Trim(u[|DELETE_FROM|..]))) <= Semis(u)
  {
    SemisCut(u, |DELETE_FROM|);
    SemisTrim(u[|DELETE_FROM|..]);
    DeleteBodySemis(Trim(u[|DELETE_FROM|..]));
  }

  // ----- what SELECT is read as

  function PlacesIn(after: string): Places {
    Places(Find(OUT, after, WHERE), Find(OUT, after, ORDER_BY), Find(OUT, after, LIMIT))
  }

  predicate InOrder(p: Places) { Ordered(p.w, p.o, p.l) }

  /** The clause keywords stand in order. (Looked into only where Asked(0) is asserted.) */
  ghost predicate AfterPlaced(after: string) {
    forall z {:trigger Asked(z)} :: Asked(z) ==> InOrder(PlacesIn(after))
  }

  lemma FromOfSemis(d: Dialect, f: string)
    ensures Semis(FromOf(d, f).0) + JoinSemis(FromOf(d, f).1) <= Semis(f)
  {
    if d == Postgres { FromSemis(f); } else { MySqlFromAndJoinsSemis(f); }
  }

  lemma ClausesInSemis(d: Dialect, columns: seq<string>, after: string, x: Statement)
    requires AfterPlaced(after) && ClausesIn(d, columns, after) == Ok(x)
    ensures Weight(x) <= AllSemis(columns) + Semis(after)
  {
    assert Asked(0);
    var p := PlacesIn(after);
    var f := FromPart(after, p.w, p.o, p.l);
    FromOfSemis(d, f);
    AssembledSemis(columns, FromOf(d, f), after, p.w, p.o, p.l,
                   if d == Postgres then PostgresLimitOf(after, p.l) else MySqlLimitOf(after, p.l), x);
  }

  /** Behind FROM, which is at `from` or nowhere, the clause keywords stand in order. */
  ghost predicate WellPlaced(body: string, from: int) {
    from >= 0 ==> from + |FROM| <= |body| && AfterPlaced(body[from + |FROM|..])
  }

  lemma BodySemis(d: Dialect, body: string, from: nat, x: Statement)
    requires from + |FROM| <= |body| && AfterPlaced(body[from + |FROM|..])
    requires ClausesIn(d, Split(body[..from]), body[from + |FROM|..]) == Ok(x)
    ensures Weight(x) <= Semis(body)
  {
    SemisTwo(body, from, from + |FROM|);
    SplitSemis(body[..from]);
    ClausesInSemis(d, Split(body[..from]), body[from + |FROM|..], x);
  }

  /** What the body of a SELECT with FROM at `from` is read as. */
  predicate BodyReads(d: Dialect, body: string, from: int, x: Statement)
    requires from + |FROM| <= |body| || from < 0
  {
    if from < 0 then x.Raw? else ClausesIn(d, Split(body[..from]), body[from + |FROM|..]) == Ok(x)
  }

  lemma SelectReadAs(d: Dialect, u: string, x: Statement)
    requires |u| >= |SELECT| && SelectIn(d, u) == Ok(x)
    ensures var body := Trim(u[|SELECT|..]); BodyReads(d, body, Find(OUT, body, FROM), x)
  {
  }

  lemma BodyReadSemis(d: Dialect, body: string, from: int, x: Statement)
    requires (from + |FROM| <= |body| || from < 0) && WellPlaced(body, from) && BodyReads(d, body, from, x)
    ensures Weight(x) <= Semis(body)
  {
    if from >= 0 { BodySemis(d, body, from, x); }
  }

  lemma SelectSemis(d: Dialect, u: string, x: Statement)
    requires |u| >= |SELECT| && WellPlaced(Trim(u[|SELECT|..]), Find(OUT, Trim(u[|SELECT|..]), FROM)) && SelectIn(d, u) == Ok(x)
    ensures Weight(x) <= Semis(u)
  {
    var body := Trim(u[|SELECT|..]);
    SelectReadAs(d, u, x);
    SemisCut(u, |SELECT|);
    SemisTrim(u[|SELECT|..]);
    BodyReadSemis(d, body, Find(OUT, body, FROM), x);
  }

  // ----- a text without its last character

  /** A keyword is found in a shorter text where it was, or not at all. */
  lemma {:induction false} FindShorter(m: Mode, t: string, n: nat, kw: string)
    requires n <= |t| && kw != ""
    ensures Find(m, t[..n], kw) == Find(m, t, kw) || Find(m, t[..n], kw) == -1
    decreases |t|
  {
    var u := t[..n];
    if |u| >= |kw| {
      assert u[1..] == t[1..][..n - 1];
      assert Matches(u, kw) <==> Matches(t, kw);
      FindShorter(Step(m, t[0]), t[1..], n - 1, kw);
    }
  }

  /** What is read of a text that ends in a semicolon. */
  lemma Shortened(t: string)
    requires Trim(t) == t && EndsStatement(t) && t[0] != ';'
    ensures var u := Statementless(Trim(t)); u < t && Semis(u) < Semis(t) && (u != "" ==> !IsSpace(u[|u| - 1]))
  {
    var n := |t| - 1;
    var r := t[..n];
    TrimIs(t);
    assert r[0] == t[0] && TrimLeft(r) == r;
    TrimRightIs(r);
    SemisTrim(r);
    SemisCut(t, n);
    assert t[n..] == ";" && ";"[1..] == "";
  }

  lemma PlacesShorter(after: string, n: nat)
    requires n <= |after| && AfterPlaced(after)
    ensures AfterPlaced(after[..n])
  {
    assert Asked(0);
    FindShorter(OUT, after, n, WHERE);
    FindShorter(OUT, after, n, ORDER_BY);
    FindShorter(OUT, after, n, LIMIT);
  }

  lemma AfterShorter(body: string, u: string, i: nat)
    requires u <= body && i <= |u| && AfterPlaced(body[i..])
    ensures AfterPlaced(u[i..])
  {
    PlacesShorter(body[i..], |u| - i);
    assert u[i..] == body[i..][..|u| - i];
  }

  lemma FoundShorter(body: string, u: string, from: int)
    requires u <= body && WellPlaced(body, from) && from + |FROM| <= |u|
    ensures WellPlaced(u, from)
  {
    if from >= 0 { AfterShorter(body, u, from + |FROM|); }
  }

  lemma BodyShorter(body: string, u: string)
    requires u <= body && WellPlaced(body, Find(OUT, body, FROM))
    ensures WellPlaced(u, Find(OUT, u, FROM))
  {
    assert u == body[..|u|];
    FindShorter(OUT, body, |u|, FROM);
    if Find(OUT, u, FROM) >= 0 { FoundShorter(body, u, Find(OUT, u, FROM)); }
  }

  /** Without its last characters, the body of a SELECT is still trimmed. */
  lemma BodyOf(body: string, u: string)
    requires u <= SELECT + body && |u| >= |SELECT| && !IsSpace(u[|u| - 1]) && body != "" && !IsSpace(body[0])
    ensures |u| - |SELECT| <= |body| && Trim(u[|SELECT|..]) == body[..|u| - |SELECT|]
  {
    var n := |u| - |SELECT|;
    assert u == (SELECT + body)[..|u|] && (SELECT + body)[|SELECT|..] == body;
    assert u[|SELECT|..] == body[..n];
    assert (SELECT + body)[|SELECT| - 1] == ' ';
    assert n > 0;
    assert body[..n][0] == body[0] && body[..n][n - 1] == u[|u| - 1];
    TrimTrimmed(body[..n]);
  }

  lemma SelectShorter(list: string, after: string, u: string)
    requires u <= SelectText(list, after) && |u| >= |SELECT| && !IsSpace(u[|u| - 1])
    requires list != "" && !IsSpace(list[0]) && Find(OUT, list + (FROM + after), FROM) == |list| && AfterPlaced(after)
    ensures WellPlaced(Trim(u[|SELECT|..]), Find(OUT, Trim(u[|SELECT|..]), FROM))
  {
    var body := list + (FROM + after);
    assert body[|list| + |FROM|..] == after;
    BodyOf(body, u);
    BodyShorter(body, body[..|u| - |SELECT|]);
  }

  // ----- the written texts

  lemma FourSemis(a: string, b: string, c: string, e: string)
    ensures Semis(a + (b + (c + e))) == Semis(a) + Semis(b) + Semis(c) + Semis(e)
  {
    SemisAppend(c, e);
    SemisAppend(b, c + e);
    SemisAppend(a, b + (c + e));
  }

  lemma {:induction false} CommaSemis(ps: seq<string>)
    ensures Semis(CommaList(ps)) == AllSemis(ps)
  {
    if |ps| == 1 {
      assert ps[1..] == [];
    } else if |ps| > 1 {
      CommaSemis(ps[1..]);
      SemisNone(", ");
      SemisAppend(", ", CommaList(ps[1..]));
      SemisAppend(ps[0], ", " + CommaList(ps[1..]));
    }
  }

  lemma KindSemis(kind: string, t: string)
    requires JoinKind(kind)
    ensures Semis(" " + (kind + (" " + t))) == Semis(t)
  {
    SemisNone(" ");
    SemisNone(kind);
    FourSemis(" ", kind, " ", t);
  }

  lemma JoinTextSemis(j: Join, rest: string)
    requires JoinKind(j.kind)
    ensures Semis(" " + JoinText(j, rest)) == Semis(j.table) + Semis(j.on) + Semis(rest)
  {
    SemisNone(" ON ");
    FourSemis(j.table, " ON ", j.on, rest);
    KindSemis(j.kind, j.table + (" ON " + (j.on + rest)));
  }

  lemma {:induction false} JoinsTextSemis(js: seq<Join>)
    requires GoodJoins(js)
    ensures Semis(JoinsText(js)) == JoinSemis(js)
  {
    if js != [] {
      assert GoodJoin(js[0]);
      JoinsTextSemis(js[1..]);
      JoinsTextTail(js);
      JoinTextSemis(js[0], JoinsText(js[1..]));
    }
  }

  lemma WhereTextSemis(where: string)
    ensures Semis(WhereText(where)) == Semis(where)
  {
    SemisNone(WHERE);
    if where != "" { SemisAppend(WHERE, where); }
  }

  lemma OrderTextSemis(orderBy: seq<string>)
    ensures Semis(OrderText(orderBy)) == AllSemis(orderBy)
  {
    SemisNone(ORDER_BY);
    CommaSemis(orderBy);
    if orderBy != [] { SemisAppend(ORDER_BY, CommaList(orderBy)); }
  }

  lemma LimitTextSemis(limit: Option<Limit>, d: Dialect)
    requires Read(d)
    ensures Semis(LimitText(limit, d)) == 0
  {
    if limit.Some? {
      LimitSpelled(limit.value, d);
      Numerals.ItoaChars(limit.value.count);
      if limit.value.offset.Some? { Numerals.ItoaChars(limit.value.offset.value); }
      SemisNone(LimitHead(limit.value, d));
      SemisNone(LimitLastNumber(limit.value, d));
      SemisAppend(LimitHead(limit.value, d), LimitLastNumber(limit.value, d));
    }
  }

  lemma AfterSemis(s: Statement, d: Dialect)
    requires s.Select? && GoodJoins(s.joins) && Read(d)
    ensures Semis(AfterFrom(s, d)) == Semis(s.from) + JoinSemis(s.joins) + Semis(s.where) + AllSemis(s.orderBy)
  {
    JoinsTextSemis(s.joins);
    SemisAppend(s.from, JoinsText(s.joins));
    WhereTextSemis(s.where);
    OrderTextSemis(s.orderBy);
    LimitTextSemis(s.limit, d);
    FourSemis(FromText(s), WhereText(s.where), OrderText(s.orderBy), LimitText(s.limit, d));
  }

  lemma HeadSemis(list: string, after: string)
    ensures Semis(SelectText(list, after)) == Semis(list) + Semis(after)
  {
    SemisNone(SELECT);
    SemisNone(FROM);
    FourSemis(SELECT, list, FROM, after);
  }

  lemma SelectTextSemis(s: Statement, d: Dialect)
    requires s.Select? && GoodJoins(s.joins) && Read(d)
    ensures Semis(SelectText(CommaList(s.columns), AfterFrom(s, d))) == Weight(s)
  {
    AfterSemis(s, d);
    CommaSemis(s.columns);
    HeadSemis(CommaList(s.columns), AfterFrom(s, d));
  }

  lemma {:induction false} AssignmentTextsSemis(xs: seq<Assignment>, q: char)
    requires Marks(q)
    ensures AllSemis(AssignmentTexts(xs, q)) <= AssignedSemis(xs)
  {
    if xs != [] {
      AssignmentTextsSemis(xs[1..], q);
      QuotedSemis(xs[0].column, q);
      SemisNone(" = ");
      SemisAppend(" = ", xs[0].value);
      SemisAppend(Quoted(xs[0].column, q), " = " + xs[0].value);
      assert AssignmentTexts(xs, q)[1..] == AssignmentTexts(xs[1..], q);
    }
  }

  lemma UpdateTextSemis(s: Statement, q: char)
    requires s.Update? && Marks(q)
    ensures Semis(UPDATE + (Quoted(s.table, q) + (SET + (AssignmentsText(s.assignments, q) + WhereText(s.where))))) <= Weight(s)
  {
    QuotedSemis(s.table, q);
    AssignmentTextsSemis(s.assignments, q);
    CommaSemis(AssignmentTexts(s.assignments, q));
    WhereTextSemis(s.where);
    SemisAppend(AssignmentsText(s.assignments, q), WhereText(s.where));
    SemisNone(UPDATE);
    SemisNone(SET);
    FourSemis(UPDATE, Quoted(s.table, q), SET, AssignmentsText(s.assignments, q) + WhereText(s.where));
  }

  lemma DeleteTextSemis(s: Statement, q: char)
    requires s.Delete? && Marks(q)
    ensures Semis(DELETE_FROM + (Quoted(s.table, q) + WhereText(s.where))) <= Weight(s)
  {
    QuotedSemis(s.table, q);
    WhereTextSemis(s.where);
    SemisNone(DELETE_FROM);
    SemisAppend(Quoted(s.table, q), WhereText(s.where));
    SemisAppend(DELETE_FROM, Quoted(s.table, q) + WhereText(s.where));
  }

  // ----- which reader a statement comes from

  lemma InsertMakes(u: string, d: Dialect)
    requires |u| >= |INSERT_INTO|
    ensures ReadInsert(u, d).Ok? ==> ReadInsert(u, d).value.Insert? || ReadInsert(u, d).value.Raw?
  {
    var body := Trim(u[|INSERT_INTO|..]);
    var open := IndexOf(body, "(");
    MatchParenFits(body, open);
    if open >= 0 && MatchParen(body, open) >= 0 { ColumnsMake(u, body, open, MatchParen(body, open), d); }
  }

  lemma ColumnsMake(u: string, body: string, open: nat, close: nat, d: Dialect)
    requires open < close < |body|
    ensures var r := InsertColumns(u, body, open, close, d); r.Ok? ==> r.value.Insert? || r.value.Raw?
  {
    ListMakes(Trim(body[..open]), OuterAll(Split(body[open + 1..close])), Trim(body[close + 1..]), d);
  }

  lemma ListMakes(table: string, columns: seq<string>, after: string, d: Dialect)
    ensures Find(OUT, after, VALUES) >= 0 ==>
      var r := InsertList(table, columns, Trim(after[Find(OUT, after, VALUES) + |VALUES|..]), d); r.Ok? ==> r.value.Insert?
  {
  }

  lemma ParsedSelect(t: string, d: Dialect, x: Statement)
    requires Read(d) && Parse(t, d, ReaderFor(d)) == Ok(x) && x.Select?
    ensures var u := Statementless(Trim(t)); |u| >= |SELECT| && SelectIn(d, u) == Ok(x)
  {
    var u := Statementless(Trim(t));
    if !Matches(u, SELECT) && Matches(u, INSERT_INTO) { InsertMakes(u, d); }
  }

  lemma ParsedUpdate(t: string, d: Dialect, select: string -> Outcome<Statement>, x: Statement)
    requires Parse(t, d, select) == Ok(x) && x.Update?
    requires var u := Statementless(Trim(t)); u != "" ==> u[0] == 'U'
    ensures var u := Statementless(Trim(t)); |u| >= |UPDATE| && ReadUpdate(u) == Ok(x)
  {
    var u := Statementless(Trim(t));
    StartsOther(u, UPDATE);
  }

  lemma ParsedDelete(t: string, d: Dialect, select: string -> Outcome<Statement>, x: Statement)
    requires Parse(t, d, select) == Ok(x) && x.Delete?
    requires var u := Statementless(Trim(t)); u != "" ==> u[0] == 'D'
    ensures var u := Statementless(Trim(t)); |u| >= |DELETE_FROM| && ReadDelete(u) == Ok(x)
  {
    var u := Statementless(Trim(t));
    StartsOther(u, DELETE_FROM);
  }

  /** By its first letter, a text matches no other first words. */
  lemma StartsOther(u: string, head: string)
    requires (head == UPDATE || head == DELETE_FROM) && (u != "" ==> u[0] == head[0])
    ensures !Matches(u, SELECT) && !Matches(u, INSERT_INTO) && (head != UPDATE ==> !Matches(u, UPDATE))
  {
    assert Matches(u, SELECT) ==> UpperChar(u[0]) == UpperChar(SELECT[0]);
    assert Matches(u, INSERT_INTO) ==> UpperChar(u[0]) == UpperChar(INSERT_INTO[0]);
    assert Matches(u, UPDATE) ==> UpperChar(u[0]) == UpperChar(UPDATE[0]);
  }

  // ----- the round trips

  /** The outcome is another statement, or none. */
  lemma Lighter(t: string, d: Dialect, select: string -> Outcome<Statement>, s: Statement)
    requires var r := Parse(t, d, select); r.Ok? && SameKind(r.value, s) ==> Weight(r.value) < Weight(s)
    ensures Recovered(t, d, select) != Ok(s)
  {
    var r := Parse(t, d, select);
    if r.Ok? { NormalSemis(r.value); }
  }

  predicate SameKind(x: Statement, s: Statement) {
    (x.Select? <==> s.Select?) && (x.Update? <==> s.Update?) && (x.Delete? <==> s.Delete?)
  }

  lemma SelectInOrder(s: Statement, d: Dialect)
    requires GoodSelect(s) && Read(d)
    ensures AfterPlaced(AfterFrom(s, d))
  {
    var c := ClausesOf(s, d, "", []);
    var wt, ot, lt := WhereText(s.where), OrderText(s.orderBy), LimitText(s.limit, d);
    SelectSeals(s, d, "", []);
    PlacesFound(c, wt, ot, lt);
    PlacesAre(AfterFrom(s, d), PlacesOf(c, wt, ot, lt));
  }

  lemma PlacesAre(t: string, p: Places)
    requires Found(t, p)
    ensures PlacesIn(t) == p
  {
    assert Asked(0);
  }

  lemma SelectPlaced(s: Statement, d: Dialect, u: string)
    requires GoodSelect(s) && Read(d) && u <= SelectText(CommaList(s.columns), AfterFrom(s, d))
    requires |u| >= |SELECT| && !IsSpace(u[|u| - 1])
    ensures WellPlaced(Trim(u[|SELECT|..]), Find(OUT, Trim(u[|SELECT|..]), FROM))
  {
    ListTrimmed(s.columns);
    ColumnsRead(s.columns, AfterFrom(s, d));
    SelectInOrder(s, d);
    SelectShorter(CommaList(s.columns), AfterFrom(s, d), u);
  }

  /** A text and what is left of it without its semicolon. */
  predicate Loses(t: string, u: string) {
    u < t && Semis(u) < Semis(t) && (u != "" ==> !IsSpace(u[|u| - 1]))
  }

  lemma SelectShortened(s: Statement, d: Dialect, t: string)
    requires GoodSelect(s) && Read(d) && t == SelectText(CommaList(s.columns), AfterFrom(s, d)) && EndsStatement(t)
    ensures Loses(t, Statementless(Trim(t)))
  {
    ListTrimmed(s.columns);
    AfterLast(s, d);
    TextTrimmed(CommaList(s.columns), AfterFrom(s, d));
    assert t[0] == 'S';
    Shortened(t);
  }

  lemma SelectLighter(s: Statement, d: Dialect, u: string, x: Statement)
    requires GoodSelect(s) && Read(d) && Loses(SelectText(CommaList(s.columns), AfterFrom(s, d)), u)
    requires |u| >= |SELECT| && SelectIn(d, u) == Ok(x)
    ensures Weight(x) < Weight(s)
  {
    SelectPlaced(s, d, u);
    SelectSemis(d, u, x);
    SelectTextSemis(s, d);
  }

  /** What a SELECT is read as without its semicolon has fewer of them. */
  lemma SelectLoses(s: Statement, d: Dialect, t: string, x: Statement)
    requires GoodSelect(s) && Read(d) && t == SelectText(CommaList(s.columns), AfterFrom(s, d)) && EndsStatement(t)
    requires Parse(t, d, ReaderFor(d)) == Ok(x) && x.Select?
    ensures Weight(x) < Weight(s)
  {
    SelectShortened(s, d, t);
    ParsedSelect(t, d, x);
    SelectLighter(s, d, Statementless(Trim(t)), x);
  }

  lemma SelectNotBack(s: Statement, d: Dialect)
    requires GoodSelect(s) && Read(d) && EndsStatement(Written(s, d))
    ensures Recovered(Written(s, d), d, ReaderFor(d)) != Ok(s)
  {
    var t := Written(s, d);
    SelectWritten(s, d);
    var r := Parse(t, d, ReaderFor(d));
    if r.Ok? && r.value.Select? { SelectLoses(s, d, t, r.value); }
    Lighter(t, d, ReaderFor(d), s);
  }

  /** Rendered for PostgreSQL, parsed and normalised, a SELECT in pieces comes back as it was exactly when its text
      does not end in a semicolon. */
  lemma SelectRoundTripExactly(s: Statement)
    requires GoodSelect(s)
    ensures Recovered(Written(s, Postgres), Postgres, PostgresReader()) == Ok(s) <==> !EndsStatement(Written(s, Postgres))
  {
    if EndsStatement(Written(s, Postgres)) { SelectNotBack(s, Postgres); } else { SelectRoundTrip(s); }
  }

  /** Rendered for MySQL, it has to have at most one join as well. */
  lemma MySqlRoundTripExactly(s: Statement)
    requires GoodSelect(s)
    ensures Recovered(Written(s, MySql), MySql, MySqlReader()) == Ok(s)
       <==> |s.joins| <= 1 && !EndsStatement(Written(s, MySql))
  {
    if EndsStatement(Written(s, MySql)) { SelectNotBack(s, MySql); } else { MySqlSelectExactly(s); }
  }

  lemma UpdateLoses(s: Statement, d: Dialect, select: string -> Outcome<Statement>, t: string, x: Statement)
    requires GoodUpdate(s, d) && EndsStatement(t)
    requires t == UPDATE + (Quoted(s.table, QuoteMark(d)) + (SET + (AssignmentsText(s.assignments, QuoteMark(d)) + WhereText(s.where))))
    requires Parse(t, d, select) == Ok(x) && x.Update?
    ensures Weight(x) < Weight(s)
  {
    var q := QuoteMark(d);
    UpdateIsRead(s.table, s.assignments, s.where, q);
    assert t[0] == 'U';
    Shortened(t);
    ParsedUpdate(t, d, select, x);
    UpdateSemis(Statementless(Trim(t)), x);
    UpdateTextSemis(s, q);
  }

  /** An UPDATE comes back exactly when its text does not end in a semicolon. */
  lemma UpdateRoundTripExactly(s: Statement, d: Dialect, select: string -> Outcome<Statement>)
    requires Read(d) && GoodUpdate(s, d)
    ensures Recovered(Written(s, d), d, select) == Ok(s) <==> !EndsStatement(Written(s, d))
  {
    var t := Written(s, d);
    if EndsStatement(t) {
      UpdateWritten(s, d);
      var r := Parse(t, d, select);
      if r.Ok? && r.value.Update? { UpdateLoses(s, d, select, t, r.value); }
      Lighter(t, d, select, s);
    } else {
      UpdateRoundTrip(s, d, select);
    }
  }

  lemma DeleteLoses(s: Statement, d: Dialect, select: string -> Outcome<Statement>, t: string, x: Statement)
    requires GoodDelete(s, d) && EndsStatement(t)
    requires t == DELETE_FROM + (Quoted(s.table, QuoteMark(d)) + WhereText(s.where))
    requires Parse(t, d, select) == Ok(x) && x.Delete?
    ensures Weight(x) < Weight(s)
  {
    var q := QuoteMark(d);
    DeleteIsRead(s.table, s.where, q);
    assert t[0] == 'D';
    Shortened(t);
    ParsedDelete(t, d, select, x);
    DeleteSemis(Statementless(Trim(t)));
    DeleteTextSemis(s, q);
  }

  /** So does a DELETE. */
  lemma DeleteRoundTripExactly(s: Statement, d: Dialect, select: string -> Outcome<Statement>)
    requires Read(d) && GoodDelete(s, d)
    ensures Recovered(Written(s, d), d, select) == Ok(s) <==> !EndsStatement(Written(s, d))
  {
    var t := Written(s, d);
    if EndsStatement(t) {
      DeleteWritten(s, d);
      var r := Parse(t, d, select);
      if r.Ok? && r.value.Delete? { DeleteLoses(s, d, select, t, r.value); }
      Lighter(t, d, select, s);
    } else {
      DeleteRoundTrip(s, d, select);
    }
  }
}
