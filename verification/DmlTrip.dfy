/**
 UPDATE and DELETE, rendered for MySQL or PostgreSQL, parsed and normalised, are the same statements
 (internal/render/render.go:171-197, internal/syntax/mysql/parser.go:132-169,
 internal/syntax/postgres/parser.go:140-175,
 internal/syntax/syntax.go:98-226, internal/normalize/normalize.go:55-89).
 */
module DmlTrip {
  import opened Basics
  import opened Strings
  import opened TopLevel
  import opened TopLevelLaws
  import opened Statements
  import opened Readers
  import opened DmlReaders
  import opened Normalizing
  import opened Rendering
  import opened ClauseReading
  import opened KeptText
  import opened JoinReading
  import opened SelectTrip
  import opened SelectReading
  import opened QuotedNames

  /** A name that quoting and unquoting gives back. */
  predicate SimpleName(name: string, q: char) { Marks(q) && q !in name && Bare(name) == name }

  // ----- DELETE

  predicate GoodDelete(s: Statement, d: Dialect) {
    s.Delete? && SimpleName(s.table, QuoteMark(d)) && (s.where != "" ==> Solid(s.where))
  }

  lemma HeadWhere(head: string, where: string)
    requires Trimmed(where)
    ensures Plainly([Fixed(head)] + WhereParts(where)) == head + WhereText(where)
  {
    PlainWhere(where);
    PlainlyOne(Fixed(head));
    PlainlyAppend([Fixed(head)], WhereParts(where));
  }

  lemma DeleteWritten(s: Statement, d: Dialect)
    requires s.Delete? && Trimmed(s.where)
    ensures Written(s, d) == DELETE_FROM + (Quoted(s.table, QuoteMark(d)) + WhereText(s.where))
  {
    KeptIsPlain(DeleteParts(s, d), d, 0);
    HeadWhere("DELETE FROM " + Quoted(s.table, QuoteMark(d)), s.where);
    Assoc(DELETE_FROM, Quoted(s.table, QuoteMark(d)), WhereText(s.where));
  }

  lemma NameThenWhere(table: string, where: string, q: char)
    requires SimpleName(table, q)
    ensures var t := Quoted(table, q); Find(OUT, t + WhereText(where), WHERE) == Place(where != "", |t|)
  {
    var t, w := Quoted(table, q), WhereText(where);
    QuotedTame(table, q);
    TameIsQuiet(OUT, t, w, WHERE, q);
    SkipPrefix(OUT, t, w, WHERE);
    if where != "" { FoundHere(WHERE, where); }
  }

  lemma DeleteBody(t: string, where: string)
    requires Trimmed(t) && Trimmed(where) && Find(OUT, t + WhereText(where), WHERE) == Place(where != "", |t|)
    ensures DeleteFrom(t + WhereText(where)) == Delete(t, where)
  {
    TrimTrimmed(t);
    if where == "" {
      assert t + "" == t;
    } else {
      Halves(t, WHERE, where);
      TrimTrimmed(where);
      assert t + WhereText(where) == t + (WHERE + where);
    }
  }

  /** The statement text after its first words. */
  lemma BodyTrimmed(head: string, body: string)
    requires head != "" && !IsSpace(head[0]) && body != "" && !IsSpace(body[0]) && LastSolid(body)
    ensures Trim(head + body) == head + body && Trim((head + body)[|head|..]) == body
  {
    LastAppend(head, body);
    TrimTrimmed(head + body);
    assert (head + body)[|head|..] == body;
    TrimTrimmed(body);
  }

  lemma NameWhereLast(table: string, where: string, q: char)
    requires SimpleName(table, q) && (where != "" ==> Solid(where))
    ensures var b := Quoted(table, q) + WhereText(where); b != "" && !IsSpace(b[0]) && LastSolid(b)
  {
    QuotedTame(table, q);
    WhereLast(where);
    LastAppend(Quoted(table, q), WhereText(where));
  }

  lemma DeleteIsRead(table: string, where: string, q: char)
    requires SimpleName(table, q) && (where != "" ==> Solid(where))
    ensures var t := DELETE_FROM + (Quoted(table, q) + WhereText(where));
      Trim(t) == t && ReadDelete(t) == Ok(Delete(Quoted(table, q), where))
  {
    var name := Quoted(table, q);
    NameThenWhere(table, where, q);
    NameWhereLast(table, where, q);
    QuotedTame(table, q);
    BodyTrimmed(DELETE_FROM, name + WhereText(where));
    DeleteBody(name, where);
  }

  predicate DispatchesTo(t: string, head: string) {
    && Trim(t) == t && !EndsStatement(t) && Matches(t, head)
    && (head != SELECT ==> !Matches(t, SELECT)) && (head != INSERT_INTO ==> !Matches(t, INSERT_INTO))
    && (head != UPDATE ==> !Matches(t, UPDATE)) && (head != DELETE_FROM ==> !Matches(t, DELETE_FROM))
  }

  lemma Dispatched(head: string, body: string)
    requires head == INSERT_INTO || head == UPDATE || head == DELETE_FROM
    requires Trim(head + body) == head + body && !EndsStatement(head + body)
    ensures DispatchesTo(head + body, head)
  {
    var t := head + body;
    assert UpperChar(t[0]) == UpperChar(head[0]);
    assert Matches(t, SELECT) ==> UpperChar(t[0]) == UpperChar(SELECT[0]);
    assert Matches(t, INSERT_INTO) ==> UpperChar(t[0]) == UpperChar(INSERT_INTO[0]);
    assert Matches(t, UPDATE) ==> UpperChar(t[0]) == UpperChar(UPDATE[0]);
    assert Matches(t, DELETE_FROM) ==> UpperChar(t[0]) == UpperChar(DELETE_FROM[0]);
  }

  lemma ParsesAsDelete(body: string, select: string -> Outcome<Statement>, s: Statement, d: Dialect)
    requires DispatchesTo(DELETE_FROM + body, DELETE_FROM) && ReadDelete(DELETE_FROM + body) == Ok(s)
    ensures ParseGives(DELETE_FROM + body, d, select, Ok(s))
  {
  }

  /** Rendered, parsed and normalised, a DELETE comes back as it was. */
  lemma DeleteRoundTrip(s: Statement, d: Dialect, select: string -> Outcome<Statement>)
    requires Read(d) && GoodDelete(s, d) && !EndsStatement(Written(s, d))
    ensures Recovered(Written(s, d), d, select) == Ok(s)
  {
    var q := Quoted(s.table, QuoteMark(d));
    var body := q + WhereText(s.where);
    DeleteWritten(s, d);
    DeleteIsRead(s.table, s.where, QuoteMark(d));
    Dispatched(DELETE_FROM, body);
    ParsesAsDelete(body, select, Delete(q, s.where), d);
    DeleteNormal(s, d);
    NormalGiven(DELETE_FROM + body, d, select, Delete(q, s.where), s);
  }

  lemma DeleteNormal(s: Statement, d: Dialect)
    requires s.Delete? && SimpleName(s.table, QuoteMark(d)) && Trimmed(s.where)
    ensures Normal(Delete(Quoted(s.table, QuoteMark(d)), s.where)) == s
  {
    BareQuoted(s.table, QuoteMark(d));
    TrimTrimmed(s.where);
  }

  // ----- UPDATE

  function AssignmentText(a: Assignment, q: char): string { Quoted(a.column, q) + (" = " + a.value) }

  function AssignmentTexts(xs: seq<Assignment>, q: char): (r: seq<string>)
    ensures |r| == |xs| && forall i :: 0 <= i < |xs| ==> r[i] == AssignmentText(xs[i], q)
  {
    if xs == [] then [] else [AssignmentText(xs[0], q)] + AssignmentTexts(xs[1..], q)
  }

  function AssignmentsText(xs: seq<Assignment>, q: char): string { CommaList(AssignmentTexts(xs, q)) }

  predicate GoodAssignment(a: Assignment, q: char) {
    SimpleName(a.column, q) && '=' !in a.column && a.value != "" && Piece(a.value)
  }

  predicate GoodAssignments(xs: seq<Assignment>, q: char) {
    forall i :: 0 <= i < |xs| ==> GoodAssignment(xs[i], q)
  }

  predicate GoodUpdate(s: Statement, d: Dialect) {
    && s.Update? && SimpleName(s.table, QuoteMark(d))
    && s.assignments != [] && GoodAssignments(s.assignments, QuoteMark(d)) && Free(AssignmentsText(s.assignments, QuoteMark(d)), WHERE)
    && (s.where != "" ==> Solid(s.where))
  }

  lemma {:induction false} CommaFreeAppend(m: Mode, a: string, b: string)
    ensures CommaFree(m, a + b) <==> CommaFree(m, a) && CommaFree(Run(m, a), b)
    decreases |a|
  {
    if a == "" {
      assert a + b == b;
    } else {
      var t := a + b;
      assert t[1..] == a[1..] + b;
      CommaFreeAppend(Step(m, a[0]), a[1..], b);
    }
  }

  lemma EqualsCalm()
    ensures Calm(" = ") && CommaFree(OUT, " = ")
  {
    assert " = "[1..] == "= " && "= "[1..] == " " && " "[1..] == "";
  }

  lemma AssignmentPiece(a: Assignment, q: char)
    requires SimpleName(a.column, q) && a.value != "" && Piece(a.value)
    ensures Piece(AssignmentText(a, q)) && AssignmentText(a, q) != ""
  {
    var name, tail := Quoted(a.column, q), " = " + a.value;
    QuotedTame(a.column, q);
    TameIsCommaFree(OUT, name, q);
    EqualsCalm();
    CalmAppend(" = ", a.value);
    CommaFreeAppend(OUT, " = ", a.value);
    CalmAppend(name, tail);
    CommaFreeAppend(OUT, name, tail);
    TrimmedAround(name, " = ", a.value);
  }

  lemma EqualsAt(q: string, tail: string)
    requires '=' !in q
    ensures IndexOf(q + ("=" + tail), "=") == |q|
  {
    IndexSkip(q, "=" + tail, "=");
    IndexHere("=", tail);
  }

  lemma CutAt(part: string, a: string, b: string, q: string, v: string)
    requires part == a + ("=" + b) && IndexOf(part, "=") == |a| && Trim(a) == q && Trim(b) == v
    ensures CutEquals(part) == Ok(Assignment(q, v))
  {
    Halves(a, "=", b);
  }

  lemma SpelledEquals(q: string, v: string)
    ensures q + (" = " + v) == (q + " ") + ("=" + (" " + v))
  {
  }

  lemma AssignmentCut(q: string, v: string)
    requires '=' !in q && Trimmed(q) && Trimmed(v)
    ensures CutEquals(q + (" = " + v)) == Ok(Assignment(q, v))
  {
    SpelledEquals(q, v);
    EqualsAt(q + " ", " " + v);
    TrimTail(q);
    TrimLead(v);
    CutAt(q + (" = " + v), q + " ", " " + v, q, v);
  }

  lemma AssignmentIsRead(a: Assignment, q: char)
    requires GoodAssignment(a, q)
    ensures CutEquals(AssignmentText(a, q)) == Ok(Assignment(Quoted(a.column, q), a.value))
  {
    QuotedTame(a.column, q);
    QuotedLacks(a.column, '=', q);
    AssignmentCut(Quoted(a.column, q), a.value);
  }

  function QuotedAssignments(xs: seq<Assignment>, q: char): (r: seq<Assignment>)
    ensures |r| == |xs| && forall i :: 0 <= i < |xs| ==> r[i] == Assignment(Quoted(xs[i].column, q), xs[i].value)
  {
    if xs == [] then [] else [Assignment(Quoted(xs[0].column, q), xs[0].value)] + QuotedAssignments(xs[1..], q)
  }

  lemma {:induction false} AssignmentsPair(xs: seq<Assignment>, q: char)
    requires GoodAssignments(xs, q)
    ensures PairUp(AssignmentTexts(xs, q)) == Ok(QuotedAssignments(xs, q))
  {
    if xs != [] {
      assert GoodAssignment(xs[0], q);
      AssignmentIsRead(xs[0], q);
      AssignmentsPair(xs[1..], q);
      var texts := AssignmentTexts(xs, q);
      assert texts[0] == AssignmentText(xs[0], q) && texts[1..] == AssignmentTexts(xs[1..], q);
    }
  }

  lemma AssignmentsSolid(xs: seq<Assignment>, q: char)
    requires GoodAssignments(xs, q)
    ensures SolidPieces(AssignmentTexts(xs, q))
  {
    var texts := AssignmentTexts(xs, q);
    forall i | 0 <= i < |texts| ensures Piece(texts[i]) && texts[i] != "" {
      assert GoodAssignment(xs[i], q);
      AssignmentPiece(xs[i], q);
    }
  }

  lemma AssignmentsRead(xs: seq<Assignment>, q: char)
    requires xs != [] && GoodAssignments(xs, q)
    ensures ReadAssignments(AssignmentsText(xs, q)) == Ok(QuotedAssignments(xs, q))
  {
    AssignmentsSolid(xs, q);
    SplitList(AssignmentTexts(xs, q), "");
    AssignmentsPair(xs, q);
  }

  lemma AssignmentsThenWhere(xs: seq<Assignment>, where: string, q: char)
    requires GoodAssignments(xs, q) && Free(AssignmentsText(xs, q), WHERE)
    ensures var t := AssignmentsText(xs, q); Find(OUT, t + WhereText(where), WHERE) == Place(where != "", |t|)
  {
    var t, w := AssignmentsText(xs, q), WhereText(where);
    AssignmentsSolid(xs, q);
    CalmList(AssignmentTexts(xs, q));
    ClauseKeywords();
    FreeIsQuiet(t, w, WHERE, 0);
    Unlead(t, w, WHERE);
    SkipPrefix(OUT, t, w, WHERE);
    if where != "" { FoundHere(WHERE, where); }
  }

  lemma UpdateTail(table: string, list: string, xs: seq<Assignment>, where: string)
    requires Find(OUT, list + WhereText(where), WHERE) == Place(where != "", |list|)
    requires ReadAssignments(list) == Ok(xs) && Trimmed(where)
    ensures UpdateFrom(table, list + WhereText(where)) == Ok(Update(table, xs, where))
  {
    if where == "" {
      assert list + "" == list;
    } else {
      Halves(list, WHERE, where);
      TrimTrimmed(where);
      assert list + WhereText(where) == list + (WHERE + where);
    }
  }

  lemma UpdateHead(table: string, after: string, q: char)
    requires SimpleName(table, q)
    ensures var t := Quoted(table, q); Find(OUT, t + (SET + after), SET) == |t| && Trim(t) == t
  {
    var t := Quoted(table, q);
    QuotedTame(table, q);
    TameIsQuiet(OUT, t, SET + after, SET, q);
    SkipPrefix(OUT, t, SET + after, SET);
    FoundHere(SET, after);
    TrimTrimmed(t);
  }

  lemma UpdateBody(t: string, after: string, r: Outcome<Statement>)
    requires var body := t + (SET + after); Trim((UPDATE + body)[|UPDATE|..]) == body && Find(OUT, body, SET) == |t| && Trim(t) == t
    requires UpdateFrom(t, after) == r
    ensures ReadUpdate(UPDATE + (t + (SET + after))) == r
  {
    Halves(t, SET, after);
  }

  lemma AfterSetLast(xs: seq<Assignment>, where: string, q: char)
    requires xs != [] && GoodAssignments(xs, q) && (where != "" ==> Solid(where))
    ensures LastSolid(AssignmentsText(xs, q) + WhereText(where))
  {
    AssignmentsSolid(xs, q);
    ListTrimmed(AssignmentTexts(xs, q));
    WhereLast(where);
    LastAppend(AssignmentsText(xs, q), WhereText(where));
  }

  lemma UpdateIsRead(table: string, xs: seq<Assignment>, where: string, q: char)
    requires SimpleName(table, q) && xs != [] && GoodAssignments(xs, q) && Free(AssignmentsText(xs, q), WHERE) && (where != "" ==> Solid(where))
    ensures var t := UPDATE + (Quoted(table, q) + (SET + (AssignmentsText(xs, q) + WhereText(where))));
      Trim(t) == t && ReadUpdate(t) == Ok(Update(Quoted(table, q), QuotedAssignments(xs, q), where))
  {
    var name, after := Quoted(table, q), AssignmentsText(xs, q) + WhereText(where);
    AssignmentsThenWhere(xs, where, q);
    AssignmentsRead(xs, q);
    UpdateTail(name, AssignmentsText(xs, q), QuotedAssignments(xs, q), where);
    UpdateHead(table, after, q);
    AfterSetLast(xs, where, q);
    LastAppend(SET, after);
    QuotedTame(table, q);
    LastAppend(name, SET + after);
    BodyTrimmed(UPDATE, name + (SET + after));
    UpdateBody(name, after, UpdateFrom(name, after));
  }

  lemma {:induction false} AssignmentsWritten(xs: seq<Assignment>, q: char)
    requires GoodAssignments(xs, q)
    ensures Plainly(AssignmentsParts(xs, q)) == AssignmentsText(xs, q)
  {
    if xs != [] {
      assert GoodAssignment(xs[0], q);
      AssignmentsWritten(xs[1..], q);
      AssignmentWritten(xs[0], q);
      ListStep(xs, AssigningParts(q), AssignmentText(xs[0], q), AssignmentsText(xs[1..], q));
      var texts := AssignmentTexts(xs, q);
      assert texts[0] == AssignmentText(xs[0], q) && texts[1..] == AssignmentTexts(xs[1..], q);
    }
  }

  lemma AssignmentWritten(a: Assignment, q: char)
    requires Trimmed(a.value)
    ensures Plainly(AssigningParts(q)(a)) == AssignmentText(a, q)
  {
    PlainlyPair(Quoted(a.column, q) + " = ", a.value);
    Assoc(Quoted(a.column, q), " = ", a.value);
  }

  lemma ListStep<T>(xs: seq<T>, f: T -> seq<Part>, head: string, rest: string)
    requires xs != [] && Plainly(f(xs[0])) == head && Plainly(Separated(xs[1..], f, COMMA)) == rest
    ensures Plainly(Separated(xs, f, COMMA)) == if |xs| == 1 then head else head + (", " + rest)
  {
    if |xs| > 1 {
      PlainlyAppend(f(xs[0]) + COMMA, Separated(xs[1..], f, COMMA));
      PlainlyAppend(f(xs[0]), COMMA);
      PlainlyOne(Fixed(", "));
      Assoc(head, ", ", rest);
    }
  }

  lemma UpdateWritten(s: Statement, d: Dialect)
    requires s.Update? && GoodAssignments(s.assignments, QuoteMark(d)) && Trimmed(s.where)
    ensures Written(s, d) == UPDATE + (Quoted(s.table, QuoteMark(d)) + (SET + (AssignmentsText(s.assignments, QuoteMark(d)) + WhereText(s.where))))
  {
    var head := "UPDATE " + Quoted(s.table, QuoteMark(d)) + " SET ";
    KeptIsPlain(UpdateParts(s, d), d, 0);
    AssignmentsWritten(s.assignments, QuoteMark(d));
    ThreeParts(head, AssignmentsParts(s.assignments, QuoteMark(d)), WhereParts(s.where));
    PlainWhere(s.where);
    Nested(UPDATE, Quoted(s.table, QuoteMark(d)), SET, AssignmentsText(s.assignments, QuoteMark(d)), WhereText(s.where), "", "");
  }

  lemma ThreeParts(head: string, b: seq<Part>, c: seq<Part>)
    ensures Plainly([Fixed(head)] + b + c) == head + Plainly(b) + Plainly(c)
  {
    PlainlyOne(Fixed(head));
    PlainlyAppend([Fixed(head)], b);
    PlainlyAppend([Fixed(head)] + b, c);
  }

  lemma AssignmentsNormal(xs: seq<Assignment>, q: char)
    requires GoodAssignments(xs, q)
    ensures NormalAssignments(QuotedAssignments(xs, q)) == xs
  {
    var ys := QuotedAssignments(xs, q);
    forall i | 0 <= i < |xs| ensures NormalAssignments(ys)[i] == xs[i] {
      assert GoodAssignment(xs[i], q);
      BareQuoted(xs[i].column, q);
      TrimTrimmed(xs[i].value);
    }
  }

  lemma UpdateNormal(s: Statement, d: Dialect)
    requires s.Update? && SimpleName(s.table, QuoteMark(d)) && GoodAssignments(s.assignments, QuoteMark(d)) && Trimmed(s.where)
    ensures Normal(Update(Quoted(s.table, QuoteMark(d)), QuotedAssignments(s.assignments, QuoteMark(d)), s.where)) == s
  {
    var q := QuoteMark(d);
    BareQuoted(s.table, q);
    AssignmentsNormal(s.assignments, q);
    TrimTrimmed(s.where);
    NormalUpdate(Quoted(s.table, q), QuotedAssignments(s.assignments, q), s.where, s.table, s.assignments);
  }

  lemma NormalUpdate(name: string, xs: seq<Assignment>, where: string, table: string, ys: seq<Assignment>)
    requires Bare(name) == table && NormalAssignments(xs) == ys && Trim(where) == where
    ensures Normal(Update(name, xs, where)) == Update(table, ys, where)
  {
  }

  lemma ParsesAsUpdate(body: string, select: string -> Outcome<Statement>, s: Statement, d: Dialect)
    requires DispatchesTo(UPDATE + body, UPDATE) && ReadUpdate(UPDATE + body) == Ok(s)
    ensures ParseGives(UPDATE + body, d, select, Ok(s))
  {
  }

  /** Rendered, parsed and normalised, an UPDATE comes back as it was. */
  lemma UpdateRoundTrip(s: Statement, d: Dialect, select: string -> Outcome<Statement>)
    requires Read(d) && GoodUpdate(s, d) && !EndsStatement(Written(s, d))
    ensures Recovered(Written(s, d), d, select) == Ok(s)
  {
    var q := Quoted(s.table, QuoteMark(d));
    var body, read := q + (SET + (AssignmentsText(s.assignments, QuoteMark(d)) + WhereText(s.where))), QuotedAssignments(s.assignments, QuoteMark(d));
    UpdateWritten(s, d);
    UpdateIsRead(s.table, s.assignments, s.where, QuoteMark(d));
    Dispatched(UPDATE, body);
    ParsesAsUpdate(body, select, Update(q, read, s.where), d);
    UpdateNormal(s, d);
    NormalGiven(UPDATE + body, d, select, Update(q, read, s.where), s);
  }
}
