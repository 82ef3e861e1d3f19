/**
 A rendered UPDATE, DELETE or INSERT with its keywords in any case of letters is read as the same statement
 (internal/syntax/mysql/parser.go:12-27, 77-169, internal/syntax/postgres/parser.go:12-27, 77-175,
 internal/syntax/syntax.go:141-184).
 */
module DmlAnyCase {
  import opened Basics
  import opened Strings
  import opened TopLevel
  import opened TopLevelLaws
  import opened Statements
  import opened Readers
  import opened DmlReaders
  import opened Normalizing
  import opened ClauseReading
  import opened JoinReading
  import opened SelectReading
  import opened SelectTrip
  import opened QuotedNames
  import opened DmlTrip
  import opened LetterCase
  import opened JoinsAnyCase
  import opened SelectAnyCase

  lemma DispatchTwin(u: string, t: string, head: string)
    requires Twins(u, t) && DispatchesTo(u, head) && Trimmed(t)
    ensures DispatchesTo(t, head)
  {
    TrimTrimmed(t);
    TwinEnds(u, t);
    TwinMatches(u, t, head);
    TwinMatches(u, t, SELECT);
    TwinMatches(u, t, INSERT_INTO);
    TwinMatches(u, t, UPDATE);
    TwinMatches(u, t, DELETE_FROM);
  }

  lemma HeadTwin(head: string, word: string, a: string, b: string)
    requires Alike(word, head) && Twins(a, b)
    ensures Twins(head + a, word + b) && |word| == |head|
  {
    AlikeTurned(word, head);
    Seal(head, word);
    TwinAppend(head, word, a, b);
  }

  lemma TailTwin(x: string, a: string, b: string)
    requires Twins(a, b)
    ensures Twins(x + a, x + b)
  {
    TwinItself(x);
    TwinAppend(x, x, a, b);
  }

  lemma TrimmedTwin(u: string, t: string)
    requires Twins(u, t) && Trim(u) == u
    ensures Trim(t) == t && Trimmed(t)
  {
    TrimIs(u);
    TwinEnds(u, t);
    TrimTrimmed(t);
  }

  // ----- DELETE

  /** A DELETE with its words spelled so. */
  function DeleteIn(s: Statement, d: Dialect, delete: string, where: string): string
    requires s.Delete?
  {
    delete + (Quoted(s.table, QuoteMark(d)) + Clause(where, s.where))
  }

  lemma DeleteTwins(s: Statement, d: Dialect, delete: string, where: string)
    requires s.Delete? && Alike(delete, DELETE_FROM) && Alike(where, WHERE)
    ensures var q := Quoted(s.table, QuoteMark(d));
      && Twins(q + WhereText(s.where), q + Clause(where, s.where))
      && Twins(DELETE_FROM + (q + WhereText(s.where)), DeleteIn(s, d, delete, where))
  {
    var q := Quoted(s.table, QuoteMark(d));
    ClauseTwin(where, WHERE, s.where);
    TailTwin(q, WhereText(s.where), Clause(where, s.where));
    HeadTwin(DELETE_FROM, delete, q + WhereText(s.where), q + Clause(where, s.where));
  }

  lemma DeleteInBody(t: string, word: string, where: string)
    requires Trimmed(t) && Trimmed(where) && |word| == |WHERE|
    requires Find(OUT, t + Clause(word, where), WHERE) == Place(where != "", |t|)
    ensures DeleteFrom(t + Clause(word, where)) == Delete(t, where)
  {
    TrimTrimmed(t);
    if where == "" {
      assert t + "" == t;
    } else {
      Halves(t, word, where);
      TrimTrimmed(where);
    }
  }

  lemma DeleteInRead(s: Statement, d: Dialect, delete: string, where: string)
    requires Read(d) && GoodDelete(s, d) && Alike(delete, DELETE_FROM) && Alike(where, WHERE)
    ensures var t := DeleteIn(s, d, delete, where); |t| >= |DELETE_FROM| && ReadDelete(t) == Ok(Delete(Quoted(s.table, QuoteMark(d)), s.where))
  {
    var q := Quoted(s.table, QuoteMark(d));
    var u, body := q + WhereText(s.where), q + Clause(where, s.where);
    DeleteTwins(s, d, delete, where);
    NameThenWhere(s.table, s.where, QuoteMark(d));
    NameWhereLast(s.table, s.where, QuoteMark(d));
    QuotedTame(s.table, QuoteMark(d));
    TwinFind(u, body, WHERE);
    TrimTrimmed(u);
    TrimmedTwin(u, body);
    DeleteInBody(q, where, s.where);
    assert DeleteIn(s, d, delete, where)[|DELETE_FROM|..] == body;
  }

  lemma ParsedAsDelete(t: string, select: string -> Outcome<Statement>, s: Statement, d: Dialect)
    requires DispatchesTo(t, DELETE_FROM) && |t| >= |DELETE_FROM| && ReadDelete(t) == Ok(s)
    ensures ParseGives(t, d, select, Ok(s))
  {
  }

  /** A DELETE in any case of letters is the same statement. */
  lemma DeleteAnyCase(s: Statement, d: Dialect, delete: string, where: string, select: string -> Outcome<Statement>)
    requires Read(d) && GoodDelete(s, d) && Alike(delete, DELETE_FROM) && Alike(where, WHERE) && !EndsStatement(Written(s, d))
    ensures Alike(Written(s, d), DeleteIn(s, d, delete, where))
    ensures Recovered(DeleteIn(s, d, delete, where), d, select) == Ok(s)
  {
    var q, t := Quoted(s.table, QuoteMark(d)), DeleteIn(s, d, delete, where);
    var u := DELETE_FROM + (q + WhereText(s.where));
    DeleteWritten(s, d);
    DeleteIsRead(s.table, s.where, QuoteMark(d));
    Dispatched(DELETE_FROM, q + WhereText(s.where));
    DeleteTwins(s, d, delete, where);
    TrimmedTwin(u, t);
    Unsealed(u, t);
    DispatchTwin(u, t, DELETE_FROM);
    DeleteInRead(s, d, delete, where);
    ParsedAsDelete(t, select, Delete(q, s.where), d);
    DeleteNormal(s, d);
    NormalGiven(t, d, select, Delete(q, s.where), s);
  }

  // ----- UPDATE

  datatype UpdateWords = UpdateWords(update: string, sets: string, where: string)

  predicate UpdateSpelled(w: UpdateWords) { Alike(w.update, UPDATE) && Alike(w.sets, SET) && Alike(w.where, WHERE) }

  /** What follows the table of an UPDATE. */
  function AfterTable(xs: seq<Assignment>, where: string, q: char, sets: string, word: string): string {
    sets + (AssignmentsText(xs, q) + Clause(word, where))
  }

  function UpdateIn(s: Statement, d: Dialect, w: UpdateWords): string
    requires s.Update?
  {
    var q := QuoteMark(d);
    w.update + (Quoted(s.table, q) + AfterTable(s.assignments, s.where, q, w.sets, w.where))
  }

  lemma UpdateTwins(s: Statement, d: Dialect, w: UpdateWords)
    requires s.Update? && UpdateSpelled(w)
    ensures var q := QuoteMark(d);
      var name, list := Quoted(s.table, q), AssignmentsText(s.assignments, q);
      && Twins(list + WhereText(s.where), list + Clause(w.where, s.where))
      && Twins(name + (SET + (list + WhereText(s.where))), name + AfterTable(s.assignments, s.where, q, w.sets, w.where))
      && Twins(UPDATE + (name + (SET + (list + WhereText(s.where)))), UpdateIn(s, d, w))
  {
    var q := QuoteMark(d);
    var name, list := Quoted(s.table, q), AssignmentsText(s.assignments, q);
    ClauseTwin(w.where, WHERE, s.where);
    TailTwin(list, WhereText(s.where), Clause(w.where, s.where));
    HeadTwin(SET, w.sets, list + WhereText(s.where), list + Clause(w.where, s.where));
    TailTwin(name, SET + (list + WhereText(s.where)), AfterTable(s.assignments, s.where, q, w.sets, w.where));
    HeadTwin(UPDATE, w.update, name + (SET + (list + WhereText(s.where))), name + AfterTable(s.assignments, s.where, q, w.sets, w.where));
  }

  lemma UpdateInTail(table: string, list: string, xs: seq<Assignment>, word: string, where: string)
    requires Find(OUT, list + Clause(word, where), WHERE) == Place(where != "", |list|) && |word| == |WHERE|
    requires ReadAssignments(list) == Ok(xs) && Trimmed(where)
    ensures UpdateFrom(table, list + Clause(word, where)) == Ok(Update(table, xs, where))
  {
    if where == "" {
      assert list + "" == list;
    } else {
      Halves(list, word, where);
      TrimTrimmed(where);
    }
  }

  /** Looked into only where Asked(0) is asserted. */
  ghost predicate UpdateGives(table: string, after: string, r: Outcome<Statement>) {
    forall z {:trigger Asked(z)} :: Asked(z) ==> UpdateFrom(table, after) == r
  }

  lemma AfterSetRead(s: Statement, d: Dialect, w: UpdateWords)
    requires Read(d) && GoodUpdate(s, d) && UpdateSpelled(w)
    ensures var q := QuoteMark(d);
      UpdateGives(Quoted(s.table, q), AssignmentsText(s.assignments, q) + Clause(w.where, s.where),
                  Ok(Update(Quoted(s.table, q), QuotedAssignments(s.assignments, q), s.where)))
  {
    var q := QuoteMark(d);
    var list := AssignmentsText(s.assignments, q);
    UpdateTwins(s, d, w);
    AssignmentsThenWhere(s.assignments, s.where, q);
    TwinFind(list + WhereText(s.where), list + Clause(w.where, s.where), WHERE);
    AssignmentsRead(s.assignments, q);
    UpdateInTail(Quoted(s.table, q), list, QuotedAssignments(s.assignments, q), w.where, s.where);
  }

  lemma SetFound(s: Statement, d: Dialect, w: UpdateWords)
    requires Read(d) && GoodUpdate(s, d) && UpdateSpelled(w)
    ensures var q := QuoteMark(d);
      Find(OUT, Quoted(s.table, q) + AfterTable(s.assignments, s.where, q, w.sets, w.where), SET) == |Quoted(s.table, q)|
      && Trim(Quoted(s.table, q)) == Quoted(s.table, q)
  {
    var q := QuoteMark(d);
    var after := AssignmentsText(s.assignments, q) + WhereText(s.where);
    UpdateHead(s.table, after, q);
    UpdateTwins(s, d, w);
    TwinFind(Quoted(s.table, q) + (SET + after), Quoted(s.table, q) + AfterTable(s.assignments, s.where, q, w.sets, w.where), SET);
  }

  lemma UpdateInBody(update: string, sets: string, t: string, after: string, r: Outcome<Statement>)
    requires |update| == |UPDATE| && |sets| == |SET|
    requires var body := t + (sets + after); Trim(body) == body && Find(OUT, body, SET) == |t| && Trim(t) == t
    requires UpdateGives(t, after, r)
    ensures ReadUpdate(update + (t + (sets + after))) == r
  {
    assert Asked(0);
    Halves(t, sets, after);
    assert (update + (t + (sets + after)))[|UPDATE|..] == t + (sets + after);
  }

  lemma BodyIsTrimmed(s: Statement, d: Dialect)
    requires Read(d) && GoodUpdate(s, d)
    ensures var q := QuoteMark(d);
      var body := Quoted(s.table, q) + (SET + (AssignmentsText(s.assignments, q) + WhereText(s.where))); Trim(body) == body
  {
    var q := QuoteMark(d);
    var after := AssignmentsText(s.assignments, q) + WhereText(s.where);
    AfterSetLast(s.assignments, s.where, q);
    LastAppend(SET, after);
    QuotedTame(s.table, q);
    LastAppend(Quoted(s.table, q), SET + after);
    TrimTrimmed(Quoted(s.table, q) + (SET + after));
  }

  lemma UpdateInRead(s: Statement, d: Dialect, w: UpdateWords)
    requires Read(d) && GoodUpdate(s, d) && UpdateSpelled(w)
    ensures var q := QuoteMark(d);
      |UpdateIn(s, d, w)| >= |UPDATE|
      && ReadUpdate(UpdateIn(s, d, w)) == Ok(Update(Quoted(s.table, q), QuotedAssignments(s.assignments, q), s.where))
  {
    var q := QuoteMark(d);
    var name, list := Quoted(s.table, q), AssignmentsText(s.assignments, q);
    SetFound(s, d, w);
    AfterSetRead(s, d, w);
    BodyIsTrimmed(s, d);
    UpdateTwins(s, d, w);
    TrimmedTwin(name + (SET + (list + WhereText(s.where))), name + AfterTable(s.assignments, s.where, q, w.sets, w.where));
    assert |w.update| == |UPDATE| && |w.sets| == |SET|;
    UpdateInBody(w.update, w.sets, name, list + Clause(w.where, s.where), Ok(Update(name, QuotedAssignments(s.assignments, q), s.where)));
  }

  lemma ParsedAsUpdate(t: string, select: string -> Outcome<Statement>, s: Statement, d: Dialect)
    requires DispatchesTo(t, UPDATE) && |t| >= |UPDATE| && ReadUpdate(t) == Ok(s)
    ensures ParseGives(t, d, select, Ok(s))
  {
  }

  lemma UpdateInDispatched(s: Statement, d: Dialect, w: UpdateWords)
    requires Read(d) && GoodUpdate(s, d) && UpdateSpelled(w) && !EndsStatement(Written(s, d))
    ensures DispatchesTo(UpdateIn(s, d, w), UPDATE) && Alike(Written(s, d), UpdateIn(s, d, w))
  {
    var q := QuoteMark(d);
    var body := Quoted(s.table, q) + (SET + (AssignmentsText(s.assignments, q) + WhereText(s.where)));
    UpdateWritten(s, d);
    UpdateIsRead(s.table, s.assignments, s.where, q);
    Dispatched(UPDATE, body);
    UpdateTwins(s, d, w);
    TrimmedTwin(UPDATE + body, UpdateIn(s, d, w));
    Unsealed(UPDATE + body, UpdateIn(s, d, w));
    DispatchTwin(UPDATE + body, UpdateIn(s, d, w), UPDATE);
  }

  /** An UPDATE in any case of letters is the same statement. */
  lemma UpdateAnyCase(s: Statement, d: Dialect, w: UpdateWords, select: string -> Outcome<Statement>)
    requires Read(d) && GoodUpdate(s, d) && UpdateSpelled(w) && !EndsStatement(Written(s, d))
    ensures Alike(Written(s, d), UpdateIn(s, d, w))
    ensures Recovered(UpdateIn(s, d, w), d, select) == Ok(s)
  {
    var q := QuoteMark(d);
    var read := Update(Quoted(s.table, q), QuotedAssignments(s.assignments, q), s.where);
    UpdateInDispatched(s, d, w);
    UpdateInRead(s, d, w);
    ParsedAsUpdate(UpdateIn(s, d, w), select, read, d);
    UpdateNormal(s, d);
    NormalGiven(UpdateIn(s, d, w), d, select, read, s);
  }
}
