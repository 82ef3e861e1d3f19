/**
 INSERT, rendered for MySQL or PostgreSQL, parsed and normalised: which statements come back, the upsert
 clause included (internal/render/render.go:147-169, 1107-1137, internal/syntax/mysql/parser.go:77-130,
 internal/syntax/postgres/parser.go:77-138, internal/syntax/syntax.go:186-235,
 internal/normalize/normalize.go:36-54).
 */
module InsertTrip {
  import opened Basics
  import opened Strings
  import opened TopLevel
  import opened TopLevelLaws
  import opened Statements
  import opened Readers
  import opened DmlReaders
  import opened Normalizing
  import opened Rendering
  import opened KeptText
  import opened SelectTrip
  import opened SelectReading
  import opened QuotedNames
  import opened DmlTrip

  // ----- the upsert clause

  /** The only value an assigned column is ever written with. */
  function Inserted(column: string, d: Dialect): string {
    var name := Quoted(column, QuoteMark(d));
    if d == MySql then "VALUES(" + (name + ")") else "EXCLUDED." + name
  }

  function AllInserted(xs: seq<Assignment>, d: Dialect): (r: seq<Assignment>)
    ensures |r| == |xs| && forall i :: 0 <= i < |xs| ==> r[i] == Assignment(xs[i].column, Inserted(xs[i].column, d))
  {
    if xs == [] then [] else [Assignment(xs[0].column, Inserted(xs[0].column, d))] + AllInserted(xs[1..], d)
  }

  function FirstOf(columns: seq<string>): seq<string> { columns[..if columns == [] then 0 else 1] }

  /** A target list without columns is read as one column without a name. */
  function Targets(targets: seq<string>): seq<string> { if targets == [] then [""] else targets }

  /** The upsert clause that comes back: MySQL does not write the targets, and without assignments its clause is
      not seen at all, which is an error in PostgreSQL. */
  function Regained(conflict: Option<Conflict>, columns: seq<string>, d: Dialect): Outcome<Option<Conflict>> {
    match conflict
    case None => Ok(None)
    case Some(c) =>
      if c.assignments == [] then (if d == MySql then Ok(None) else Failed)
      else if d == MySql then Ok(Some(Conflict(MySqlStyle, FirstOf(columns), AllInserted(c.assignments, d))))
      else Ok(Some(Conflict(PostgresStyle, Targets(c.targets), AllInserted(c.assignments, d))))
  }

  /** The style of the dialect, the first column or any columns as targets, and the inserted value for each of
      the assigned columns. */
  predicate SaysInserted(c: Conflict, columns: seq<string>, d: Dialect) {
    && (if d == MySql then c.style == MySqlStyle && columns != [] && c.targets == [columns[0]]
        else c.style == PostgresStyle && c.targets != [])
    && c.assignments != []
    && forall i :: 0 <= i < |c.assignments| ==> c.assignments[i].value == Inserted(c.assignments[i].column, d)
  }

  predicate GoodAssigned(xs: seq<Assignment>, q: char) {
    forall i :: 0 <= i < |xs| ==> SimpleName(xs[i].column, q) && '=' !in xs[i].column
  }

  predicate SimpleColumns(names: seq<string>, q: char) { forall i :: 0 <= i < |names| ==> SimpleColumn(names[i], q) }

  predicate GoodConflict(conflict: Option<Conflict>, d: Dialect) {
    conflict.Some? ==>
      && GoodAssigned(conflict.value.assignments, QuoteMark(d))
      && (d == Postgres ==> SimpleColumns(conflict.value.targets, QuoteMark(d)))
  }

  /** The values of an upsert are never written, so they cannot be told from the text. */
  lemma {:induction false} UpsertSpelled(xs: seq<Assignment>, d: Dialect)
    requires Read(d)
    ensures UpsertList(xs, d) == AssignmentTexts(AllInserted(xs, d), QuoteMark(d))
  {
    if xs != [] {
      UpsertSpelled(xs[1..], d);
      var y := Assignment(xs[0].column, Inserted(xs[0].column, d));
      InsertedSpelled(Quoted(xs[0].column, QuoteMark(d)));
      TextsStep(y, AllInserted(xs[1..], d), QuoteMark(d));
    }
  }

  lemma InsertedSpelled(name: string)
    ensures name + " = VALUES(" + name + ")" == name + (" = " + ("VALUES(" + (name + ")")))
    ensures name + " = EXCLUDED." + name == name + (" = " + ("EXCLUDED." + name))
  {
  }

  lemma TextsStep(y: Assignment, ys: seq<Assignment>, q: char)
    ensures AssignmentTexts([y] + ys, q) == [AssignmentText(y, q)] + AssignmentTexts(ys, q)
  {
    assert ([y] + ys)[1..] == ys;
  }

  lemma InsertedPiece(column: string, d: Dialect)
    requires Read(d) && SimpleName(column, QuoteMark(d))
    ensures Piece(Inserted(column, d)) && Inserted(column, d) != ""
  {
    var q := QuoteMark(d);
    var name := Quoted(column, q);
    QuotedTame(column, q);
    TameIsCommaFree(OUT, name, q);
    TameInside(OUT, name, q);
    if d == MySql {
      CallPiece("VALUES", name);
      assert "VALUES(" + (name + ")") == "VALUES" + ("(" + (name + ")"));
    } else {
      WordPiece("EXCLUDED.", name);
    }
  }

  /** Capital letters and dots. */
  predicate Wordy(w: string) { forall i :: 0 <= i < |w| ==> 'A' <= w[i] <= 'Z' || w[i] == '.' }

  lemma {:induction false} PlainWord(w: string, rest: string)
    requires Wordy(w)
    ensures Run(OUT, w + rest) == Run(OUT, rest) && (CommaFree(OUT, w + rest) <==> CommaFree(OUT, rest))
  {
    if w == "" {
      assert w + rest == rest;
    } else {
      assert (w + rest)[1..] == w[1..] + rest;
      PlainWord(w[1..], rest);
    }
  }

  lemma WordPiece(w: string, rest: string)
    requires Wordy(w) && w != "" && Trimmed(rest) && rest != "" && Calm(rest) && CommaFree(OUT, rest)
    ensures Piece(w + rest)
  {
    PlainWord(w, rest);
    LastAppend(w, rest);
  }

  lemma ParensPiece(p: string)
    requires Closed(p)
    ensures Calm("(" + (p + ")")) && CommaFree(OUT, "(" + (p + ")"))
  {
    var t := "(" + (p + ")");
    assert t[1..] == p + ")";
    NeverOutCommaFree(INSIDE, p);
    RunDeeper(OUT, p);
    RunAppend(INSIDE, p, ")");
    CommaFreeAppend(INSIDE, p, ")");
    assert ")"[1..] == "";
  }

  lemma {:induction false} NeverOutCommaFree(m: Mode, p: string)
    requires m != OUT && NeverOut(m, p)
    ensures CommaFree(m, p)
    decreases |p|
  {
    if p != "" { NeverOutCommaFree(Step(m, p[0]), p[1..]); }
  }

  lemma CallPiece(name: string, p: string)
    requires name != "" && Wordy(name) && Closed(p)
    ensures Piece(name + ("(" + (p + ")")))
  {
    ParensPiece(p);
    WordPiece(name, "(" + (p + ")"));
  }

  lemma InsertedGood(xs: seq<Assignment>, d: Dialect)
    requires Read(d) && GoodAssigned(xs, QuoteMark(d))
    ensures GoodAssignments(AllInserted(xs, d), QuoteMark(d))
  {
    var ys := AllInserted(xs, d);
    forall i | 0 <= i < |ys| ensures GoodAssignment(ys[i], QuoteMark(d)) {
      assert SimpleName(xs[i].column, QuoteMark(d));
      InsertedPiece(xs[i].column, d);
    }
  }

  // ----- what follows the values

  /** Opens the fact with the given number; a fact below is looked into only where its number is asserted. */
  predicate Looked(fact: nat, i: int) { true }

  /** What the reader makes of the text after the values. */
  ghost predicate TailGives(tail: string, columns: seq<string>, d: Dialect, r: Outcome<Option<Conflict>>) {
    forall z {:trigger Looked(7, z)} :: Looked(7, z) ==>
      if Trim(tail) == "" then r == Ok(None) else ReadUpsert(Trim(tail), columns, d) == r
  }

  /** It ends where the text does. */
  predicate Ends(tail: string) { tail == "" || LastSolid(tail) }

  /** The clause as read, before the quote marks of the assigned columns are removed. */
  function QuotedRegained(c: Conflict, columns: seq<string>, d: Dialect): Conflict {
    var xs := QuotedAssignments(AllInserted(c.assignments, d), QuoteMark(d));
    if d == MySql then Conflict(MySqlStyle, FirstOf(columns), xs) else Conflict(PostgresStyle, Targets(c.targets), xs)
  }

  /** The words of an upsert clause before its assignments, without the space that follows them. */
  function UpsertWords(targets: seq<string>, d: Dialect): string {
    if d == MySql then " ON DUPLICATE KEY UPDATE"
    else " ON CONFLICT (" + CommaList(QuotedAll(targets, QuoteMark(d))) + ") DO UPDATE SET"
  }

  lemma ConflictSpelled(c: Conflict, d: Dialect)
    requires Read(d)
    ensures ConflictText(Some(c), d) == UpsertWords(c.targets, d) + (" " + CommaList(UpsertList(c.assignments, d)))
  {
    WordsThenList(CommaList(QuotedAll(c.targets, QuoteMark(d))), CommaList(UpsertList(c.assignments, d)));
  }

  lemma WordsThenList(names: string, list: string)
    ensures " ON DUPLICATE KEY UPDATE " + list == " ON DUPLICATE KEY UPDATE" + (" " + list)
    ensures " ON CONFLICT (" + names + ") DO UPDATE SET " + list == " ON CONFLICT (" + names + ") DO UPDATE SET" + (" " + list)
  {
    var head := " ON CONFLICT (" + names;
    assert ") DO UPDATE SET " == ") DO UPDATE SET" + " ";
    assert head + ") DO UPDATE SET " == head + ") DO UPDATE SET" + " ";
  }

  lemma UpsertRead(columns: seq<string>, c: Conflict, d: Dialect)
    requires Read(d) && c.assignments != [] && GoodConflict(Some(c), d)
    ensures LastSolid(ConflictText(Some(c), d))
    ensures TailGives(ConflictText(Some(c), d), columns, d, Ok(Some(QuotedRegained(c, columns, d))))
  {
    var ys, q := AllInserted(c.assignments, d), QuoteMark(d);
    var list := AssignmentsText(ys, q);
    UpsertSpelled(c.assignments, d);
    InsertedGood(c.assignments, d);
    AssignmentsSolid(ys, q);
    ListTrimmed(AssignmentTexts(ys, q));
    AssignmentsRead(ys, q);
    ConflictSpelled(c, d);
    LastAppend(" ", list);
    LastAppend(UpsertWords(c.targets, d), " " + list);
    if d == MySql {
      DuplicateTail(columns, list, QuotedAssignments(ys, q));
    } else {
      UpdateTail(columns, c.targets, list, QuotedAssignments(ys, q));
    }
  }

  lemma DuplicateTail(columns: seq<string>, list: string, ys: seq<Assignment>)
    requires LastSolid(list) && ReadAssignments(list) == Ok(ys)
    ensures TailGives(UpsertWords([], MySql) + (" " + list), columns, MySql, Ok(Some(Conflict(MySqlStyle, FirstOf(columns), ys))))
  {
    var rest := ON_DUPLICATE + list;
    assert UpsertWords([], MySql) + (" " + list) == " " + rest;
    LastAppend(ON_DUPLICATE, list);
    assert rest[0] == 'O';
    TrimLead(rest);
    DuplicateRead(columns, list, ys);
  }

  lemma DuplicateRead(columns: seq<string>, list: string, ys: seq<Assignment>)
    requires ReadAssignments(list) == Ok(ys)
    ensures ReadUpsert(ON_DUPLICATE + list, columns, MySql) == Ok(Some(Conflict(MySqlStyle, FirstOf(columns), ys)))
  {
    var rest := ON_DUPLICATE + list;
    assert rest[|ON_DUPLICATE|..] == list && rest[..|ON_DUPLICATE|] == ON_DUPLICATE;
    assert Matches(rest, ON_DUPLICATE);
  }

  lemma TargetsRead(targets: seq<string>, q: char)
    requires Marks(q) && SimpleColumns(targets, q)
    ensures var names := CommaList(QuotedAll(targets, q)); Closed(names) && OuterAll(Split(names)) == Targets(targets)
  {
    if targets == [] {
      assert Split("") == [""] && OuterAll([""]) == [Outer("")] && Outer("") == "";
    } else {
      ColumnsListRead(targets, q);
    }
  }

  /** Looked into only where Looked(9, 0) is asserted. */
  ghost predicate ActionGives(action: string, targets: seq<string>, r: Outcome<Option<Conflict>>) {
    forall z {:trigger Looked(9, z)} :: Looked(9, z) ==> ReadAction(action, targets) == r
  }

  /** Looked into only where Looked(10, 0) is asserted. */
  ghost predicate ConflictGives(body: string, r: Outcome<Option<Conflict>>) {
    forall z {:trigger Looked(10, z)} :: Looked(10, z) ==> ReadConflict(body) == r
  }

  lemma ConflictAt(body: string, names: string, after: string, action: string, r: Outcome<Option<Conflict>>)
    requires body == "(" + (names + (")" + after)) && IndexOf(body, "(") == 0 && MatchParen(body, 0) == 1 + |names|
    requires Trim(after) == action && ActionGives(action, OuterAll(Split(names)), r)
    ensures ConflictGives(body, r)
  {
    assert Looked(9, 0);
    assert body[1..1 + |names|] == names && body[1 + |names| + 1..] == after;
  }

  /** A parenthesised list of targets and what follows it. */
  lemma ConflictIsRead(names: string, action: string, r: Outcome<Option<Conflict>>)
    requires Closed(names) && Trimmed(action) && ActionGives(action, OuterAll(Split(names)), r)
    ensures ConflictGives("(" + (names + (")" + (" " + action))), r)
  {
    var after := " " + action;
    var body := "(" + (names + (")" + after));
    MatchesClosed("", names, after);
    assert "" + body == body;
    IndexHere("(", names + (")" + after));
    TrimLead(action);
    ConflictAt(body, names, after, action, r);
  }

  lemma ConflictMatched(body: string, columns: seq<string>, r: Outcome<Option<Conflict>>)
    requires Trimmed(body) && body != "" && ConflictGives(body, r)
    ensures TailGives(" " + (ON_CONFLICT + body), columns, Postgres, r)
  {
    var rest := ON_CONFLICT + body;
    assert Looked(10, 0);
    assert rest[0] == 'O' && rest[|rest| - 1] == body[|body| - 1];
    TrimLead(rest);
    assert rest[|ON_CONFLICT|..] == body && rest[..|ON_CONFLICT|] == ON_CONFLICT;
    TrimTrimmed(body);
    assert Matches(rest, ON_CONFLICT);
  }

  lemma ConflictWritten(names: string, action: string)
    ensures " ON CONFLICT (" + names + (") " + action) == " " + (ON_CONFLICT + ("(" + (names + (")" + (" " + action)))))
  {
    assert ") " + action == ")" + (" " + action);
  }

  /** The clause as it is written, with what is done on a conflict. */
  lemma ConflictTail(columns: seq<string>, targets: seq<string>, action: string, r: Outcome<Option<Conflict>>)
    requires SimpleColumns(targets, '"') && Trimmed(action) && LastSolid(action) && ActionGives(action, Targets(targets), r)
    ensures var tail := " ON CONFLICT (" + CommaList(QuotedAll(targets, '"')) + (") " + action);
      LastSolid(tail) && TailGives(tail, columns, Postgres, r)
  {
    var names := CommaList(QuotedAll(targets, '"'));
    TargetsRead(targets, '"');
    ConflictIsRead(names, action, r);
    LastAppend(") ", action);
    LastAppend(" ON CONFLICT (" + names, ") " + action);
    BodyShape(names, action);
    ConflictMatched("(" + (names + (")" + (" " + action))), columns, r);
    ConflictWritten(names, action);
  }

  lemma BodyShape(names: string, action: string)
    requires LastSolid(action)
    ensures var body := "(" + (names + (")" + (" " + action))); body != "" && Trimmed(body)
  {
    LastAppend(" ", action);
    LastAppend(")", " " + action);
    LastAppend(names, ")" + (" " + action));
    LastAppend("(", names + (")" + (" " + action)));
  }

  lemma UpdateTail(columns: seq<string>, targets: seq<string>, list: string, ys: seq<Assignment>)
    requires SimpleColumns(targets, '"') && LastSolid(list) && ReadAssignments(list) == Ok(ys)
    ensures TailGives(UpsertWords(targets, Postgres) + (" " + list), columns, Postgres,
                      Ok(Some(Conflict(PostgresStyle, Targets(targets), ys))))
  {
    var names, action := CommaList(QuotedAll(targets, '"')), DO_UPDATE + list;
    LastAppend(DO_UPDATE, list);
    ActionRead(list, Targets(targets), ys);
    ConflictTail(columns, targets, action, Ok(Some(Conflict(PostgresStyle, Targets(targets), ys))));
    ActionWritten(names, list);
  }

  lemma ActionWritten(names: string, list: string)
    ensures " ON CONFLICT (" + names + (") " + (DO_UPDATE + list)) == " ON CONFLICT (" + names + ") DO UPDATE SET" + (" " + list)
  {
    var head := " ON CONFLICT (" + names;
    assert ") " + (DO_UPDATE + list) == ") DO UPDATE SET" + (" " + list);
  }

  lemma ActionRead(list: string, targets: seq<string>, ys: seq<Assignment>)
    requires ReadAssignments(list) == Ok(ys)
    ensures ActionGives(DO_UPDATE + list, targets, Ok(Some(Conflict(PostgresStyle, targets, ys))))
    ensures (DO_UPDATE + list)[0] == 'D'
  {
    var action := DO_UPDATE + list;
    assert action[|DO_UPDATE|..] == list && action[..|DO_UPDATE|] == DO_UPDATE;
    assert Matches(action, DO_UPDATE);
  }

  lemma NoTail(columns: seq<string>, d: Dialect)
    ensures TailGives("", columns, d, Ok(None))
  {
  }

  /** An upsert clause without assignments is cut off before its last space: no clause in MySQL, half a clause in
      PostgreSQL. */
  lemma WordsTail(columns: seq<string>, targets: seq<string>, d: Dialect)
    requires Read(d) && (d == Postgres ==> SimpleColumns(targets, QuoteMark(d)))
    ensures LastSolid(UpsertWords(targets, d))
    ensures TailGives(UpsertWords(targets, d), columns, d, if d == MySql then Ok(None) else Failed)
  {
    if d == MySql {
      var rest := "ON DUPLICATE KEY UPDATE";
      assert UpsertWords(targets, d) == " " + rest && |rest| < |ON_DUPLICATE|;
      TrimLead(rest);
    } else {
      HalfConflict(columns, targets);
    }
  }

  const NO_UPDATE := "DO UPDATE SET"

  lemma HalfConflict(columns: seq<string>, targets: seq<string>)
    requires SimpleColumns(targets, '"')
    ensures LastSolid(UpsertWords(targets, Postgres))
    ensures TailGives(UpsertWords(targets, Postgres), columns, Postgres, Failed)
  {
    HalfAction(Targets(targets));
    ConflictTail(columns, targets, NO_UPDATE, Failed);
    HalfWritten(CommaList(QuotedAll(targets, '"')));
  }

  lemma HalfAction(targets: seq<string>)
    ensures ActionGives(NO_UPDATE, targets, Failed) && Trimmed(NO_UPDATE) && LastSolid(NO_UPDATE)
  {
    assert |NO_UPDATE| < |DO_UPDATE|;
  }

  lemma HalfWritten(names: string)
    ensures " ON CONFLICT (" + names + (") " + NO_UPDATE) == " ON CONFLICT (" + names + ") DO UPDATE SET"
  {
  }

  // ----- the values

  function ValuesText(values: string, tail: string): string { VALUES + (" " + ("(" + (values + (")" + tail)))) }

  /** The text after the table name. */
  function ListsText(columns: string, values: string, tail: string): string {
    " " + ("(" + (columns + (")" + (" " + ValuesText(values, tail)))))
  }

  function Made(table: string, columns: seq<string>, values: seq<string>, c: Outcome<Option<Conflict>>): Outcome<Statement> {
    match c case Ok(x) => Ok(Insert(table, columns, values, x)) case _ => Failed
  }

  /** Looked into only where Looked(8, 0) is asserted. */
  ghost predicate ListGives(table: string, columns: seq<string>, body: string, d: Dialect, r: Outcome<Statement>) {
    forall z {:trigger Looked(8, z)} :: Looked(8, z) ==> InsertList(table, columns, body, d) == r
  }

  lemma ListAt(table: string, columns: seq<string>, body: string, list: string, values: seq<string>, tail: string,
               d: Dialect, c: Outcome<Option<Conflict>>)
    requires body == "(" + (list + (")" + tail)) && IndexOf(body, "(") == 0 && MatchParen(body, 0) == 1 + |list|
    requires Split(list) == values && TailGives(tail, columns, d, c)
    ensures ListGives(table, columns, body, d, Made(table, columns, values, c))
  {
    assert Looked(7, 0);
    assert body[1..1 + |list|] == list && body[1 + |list| + 1..] == tail;
  }

  lemma ValuesIsRead(table: string, columns: seq<string>, list: string, values: seq<string>, tail: string,
                     d: Dialect, c: Outcome<Option<Conflict>>)
    requires Closed(list) && Split(list) == values && TailGives(tail, columns, d, c)
    ensures ListGives(table, columns, "(" + (list + (")" + tail)), d, Made(table, columns, values, c))
  {
    var body := "(" + (list + (")" + tail));
    MatchesClosed("", list, tail);
    assert "" + body == body;
    IndexHere("(", list + (")" + tail));
    ListAt(table, columns, body, list, values, tail, d, c);
  }

  /** Looked into only where Looked(2, 0) is asserted. */
  ghost predicate ValuesGive(sql: string, q: string, columns: seq<string>, after: string, d: Dialect, r: Outcome<Statement>) {
    forall z {:trigger Looked(2, z)} :: Looked(2, z) ==> InsertValues(sql, q, columns, after, d) == r
  }

  lemma ValuesWordIsRead(sql: string, table: string, columns: seq<string>, rest: string, d: Dialect, r: Outcome<Statement>)
    requires Trimmed(rest) && ListGives(table, columns, rest, d, r)
    ensures ValuesGive(sql, table, columns, VALUES + (" " + rest), d, r)
  {
    assert Looked(8, 0);
    var after := VALUES + (" " + rest);
    assert Step(OUT, after[0]) == OUT;
    assert after[|VALUES|..] == " " + rest;
    TrimLead(rest);
  }

  lemma EndsSolid(head: string, tail: string)
    requires Ends(tail)
    ensures LastSolid(head + (")" + tail))
  {
    if tail == "" { assert ")" + tail == ")"; } else { LastAppend(")", tail); }
    LastAppend(head, ")" + tail);
  }

  lemma ValuesRead(sql: string, q: string, columns: seq<string>, list: string, values: seq<string>, tail: string,
                   d: Dialect, c: Outcome<Option<Conflict>>)
    requires Closed(list) && Split(list) == values && TailGives(tail, columns, d, c) && Ends(tail)
    ensures ValuesGive(sql, q, columns, ValuesText(list, tail), d, Made(q, columns, values, c))
  {
    var rest := "(" + (list + (")" + tail));
    EndsSolid("(" + list, tail);
    Assoc("(", list, ")" + tail);
    ValuesIsRead(q, columns, list, values, tail, d, c);
    ValuesWordIsRead(sql, q, columns, rest, d, Made(q, columns, values, c));
  }

  // ----- the columns

  lemma OpenAt(q: string, rest: string)
    requires '(' !in q
    ensures IndexOf((q + " ") + ("(" + rest), "(") == |q| + 1
  {
    IndexSkip(q + " ", "(" + rest, "(");
    IndexHere("(", rest);
  }

  /** Looked into only where Looked(6, 0) is asserted. */
  ghost predicate InsertGives(sql: string, d: Dialect, r: Outcome<Statement>) {
    forall z {:trigger Looked(6, z)} :: Looked(6, z) ==> |sql| >= |INSERT_INTO| && ReadInsert(sql, d) == r
  }

  /** Looked into only where Looked(3, 0) is asserted. */
  ghost predicate ColumnsGive(sql: string, body: string, open: nat, close: nat, d: Dialect, r: Outcome<Statement>) {
    forall z {:trigger Looked(3, z)} :: Looked(3, z) ==>
      open < close < |body| && InsertColumns(sql, body, open, close, d) == r
  }

  /** A statement after its first words: a name, a column list in parentheses and what follows.
      (Looked into only where Looked(1, 0) is asserted.) */
  ghost predicate Laid(body: string, q: string, list: string, columns: seq<string>, after: string) {
    forall z {:trigger Looked(1, z)} :: Looked(1, z) ==>
      && body == (q + " ") + ("(" + (list + (")" + after)))
      && '(' !in q && Trimmed(q) && Closed(list) && OuterAll(Split(list)) == columns
  }

  lemma ColumnsAt(sql: string, body: string, q: string, list: string, columns: seq<string>, after: string, rest: string,
                  d: Dialect, r: Outcome<Statement>)
    requires Laid(body, q, list, columns, after)
    requires Trim(after) == rest && ValuesGive(sql, q, columns, rest, d, r)
    ensures ColumnsGive(sql, body, |q| + 1, |q| + 2 + |list|, d, r)
  {
    assert Looked(1, 0) && Looked(2, 0);
    TrimTail(q);
    ColumnsCut(body, q, list, after);
  }

  lemma ColumnsCut(body: string, q: string, list: string, after: string)
    requires body == (q + " ") + ("(" + (list + (")" + after)))
    ensures |q| + 2 + |list| < |body| && body[..|q| + 1] == q + " "
    ensures body[|q| + 2..|q| + 2 + |list|] == list && body[|q| + 2 + |list| + 1..] == after
  {
  }

  /** Looked into only where Looked(4, 0) is asserted. */
  ghost predicate Parens(body: string, open: nat, close: nat) {
    forall z {:trigger Looked(4, z)} :: Looked(4, z) ==> IndexOf(body, "(") == open && MatchParen(body, open) == close
  }

  lemma ParensOf(body: string, q: string, list: string, columns: seq<string>, after: string)
    requires Laid(body, q, list, columns, after)
    ensures Parens(body, |q| + 1, |q| + 2 + |list|)
  {
    assert Looked(1, 0);
    OpenAt(q, list + (")" + after));
    MatchesClosed(q + " ", list, after);
  }

  /** Looked into only where Looked(5, 0) is asserted. */
  ghost predicate BodyGives(sql: string, body: string, d: Dialect, r: Outcome<Statement>) {
    forall z {:trigger Looked(5, z)} :: Looked(5, z) ==> InsertBody(sql, body, d) == r
  }

  lemma BodyOpens(sql: string, body: string, open: nat, close: nat, d: Dialect, r: Outcome<Statement>)
    requires Parens(body, open, close) && ColumnsGive(sql, body, open, close, d, r)
    ensures BodyGives(sql, body, d, r)
  {
    assert Looked(3, 0) && Looked(4, 0);
  }

  lemma BodyIsRead(sql: string, body: string, d: Dialect, r: Outcome<Statement>)
    requires |sql| >= |INSERT_INTO| && Trim(sql[|INSERT_INTO|..]) == body && BodyGives(sql, body, d, r)
    ensures InsertGives(sql, d, r)
  {
    assert Looked(5, 0);
  }

  lemma ListsSpelled(q: string, columns: string, values: string, tail: string)
    ensures q + ListsText(columns, values, tail) == (q + " ") + ("(" + (columns + (")" + (" " + ValuesText(values, tail)))))
  {
  }

  lemma BodyEnds(q: string, list: string, values: string, tail: string)
    requires Trimmed(q) && q != "" && Ends(tail)
    ensures var body := q + ListsText(list, values, tail);
      Trim(INSERT_INTO + body) == INSERT_INTO + body && Trim((INSERT_INTO + body)[|INSERT_INTO|..]) == body
  {
    var body := q + ListsText(list, values, tail);
    var head := (q + " ") + ("(" + (list + (")" + " VALUES (")));
    EndsSolid(head + values, tail);
    assert body == (head + values) + (")" + tail);
    assert body[0] == q[0];
    BodyTrimmed(INSERT_INTO, body);
  }

  lemma ValuesTrimmed(values: string, tail: string)
    requires Ends(tail)
    ensures Trim(" " + ValuesText(values, tail)) == ValuesText(values, tail)
  {
    var t := ValuesText(values, tail);
    EndsSolid("VALUES (" + values, tail);
    assert t == ("VALUES (" + values) + (")" + tail) && t[0] == 'V';
    TrimLead(t);
  }

  lemma LaidColumns(sql: string, body: string, q: string, list: string, columns: seq<string>, after: string, rest: string,
                    d: Dialect, r: Outcome<Statement>, open: nat, close: nat)
    requires Laid(body, q, list, columns, after) && Trim(after) == rest && ValuesGive(sql, q, columns, rest, d, r)
    requires open == |q| + 1 && close == |q| + 2 + |list|
    ensures ColumnsGive(sql, body, open, close, d, r)
  {
    ColumnsAt(sql, body, q, list, columns, after, rest, d, r);
  }

  lemma LaidIsRead(sql: string, body: string, q: string, list: string, columns: seq<string>, after: string,
                   d: Dialect, r: Outcome<Statement>, open: nat, close: nat)
    requires Laid(body, q, list, columns, after) && ColumnsGive(sql, body, open, close, d, r)
    requires open == |q| + 1 && close == |q| + 2 + |list|
    ensures BodyGives(sql, body, d, r)
  {
    ParensOf(body, q, list, columns, after);
    BodyOpens(sql, body, open, close, d, r);
  }

  lemma InsertLaid(q: string, list: string, columns: seq<string>, values: string, tail: string)
    requires Trimmed(q) && '(' !in q && Closed(list) && OuterAll(Split(list)) == columns
    ensures Laid(q + ListsText(list, values, tail), q, list, columns, " " + ValuesText(values, tail))
  {
    ListsSpelled(q, list, values, tail);
  }

  lemma InsertLists(q: string, list: string, columns: seq<string>, values: string, tail: string,
                    d: Dialect, r: Outcome<Statement>)
    requires Trimmed(q) && q != "" && '(' !in q && Closed(list) && OuterAll(Split(list)) == columns && Ends(tail)
    requires ValuesGive(INSERT_INTO + (q + ListsText(list, values, tail)), q, columns, ValuesText(values, tail), d, r)
    ensures var sql := INSERT_INTO + (q + ListsText(list, values, tail)); Trim(sql) == sql && InsertGives(sql, d, r)
  {
    var body, after, rest := q + ListsText(list, values, tail), " " + ValuesText(values, tail), ValuesText(values, tail);
    BodyEnds(q, list, values, tail);
    ValuesTrimmed(values, tail);
    InsertLaid(q, list, columns, values, tail);
    var open, close := |q| + 1, |q| + 2 + |list|;
    LaidColumns(INSERT_INTO + body, body, q, list, columns, after, rest, d, r, open, close);
    LaidIsRead(INSERT_INTO + body, body, q, list, columns, after, d, r, open, close);
    BodyIsRead(INSERT_INTO + body, body, d, r);
  }

  lemma ListRead(ps: seq<string>)
    requires ps != [] && AllPieces(ps) && forall i :: 0 <= i < |ps| ==> Closed(ps[i])
    ensures Closed(CommaList(ps)) && Split(CommaList(ps)) == ps
  {
    ClosedList(ps);
    SplitList(ps, "");
  }

  lemma ColumnsListRead(columns: seq<string>, q: char)
    requires Marks(q) && columns != [] && SimpleColumns(columns, q)
    ensures var list := CommaList(QuotedAll(columns, q)); Closed(list) && OuterAll(Split(list)) == columns
  {
    ColumnPieces(columns, q);
    ListRead(QuotedAll(columns, q));
  }

  // ----- the whole statement

  /** An INSERT of simple names and closed pieces. */
  predicate GoodInsert(s: Statement, d: Dialect) {
    && s.Insert? && SimpleName(s.table, QuoteMark(d)) && '(' !in s.table
    && s.columns != [] && SimpleColumns(s.columns, QuoteMark(d))
    && s.values != [] && AllPieces(s.values) && (forall i :: 0 <= i < |s.values| ==> Closed(s.values[i]))
    && GoodConflict(s.conflict, d)
  }

  function InsertText(s: Statement, d: Dialect, tail: string): string
    requires s.Insert?
  {
    var q := QuoteMark(d);
    INSERT_INTO + (Quoted(s.table, q) + ListsText(CommaList(QuotedAll(s.columns, q)), CommaList(s.values), tail))
  }

  /** The statement before its names are normalised. */
  function ReadBack(s: Statement, d: Dialect, c: Outcome<Option<Conflict>>): Outcome<Statement>
    requires s.Insert?
  {
    Made(Quoted(s.table, QuoteMark(d)), s.columns, s.values, c)
  }

  lemma InsertIsRead(s: Statement, d: Dialect, tail: string, c: Outcome<Option<Conflict>>)
    requires GoodInsert(s, d) && Ends(tail) && TailGives(tail, s.columns, d, c)
    ensures Trim(InsertText(s, d, tail)) == InsertText(s, d, tail) && InsertGives(InsertText(s, d, tail), d, ReadBack(s, d, c))
  {
    var q := QuoteMark(d);
    var name, names, list := Quoted(s.table, q), CommaList(QuotedAll(s.columns, q)), CommaList(s.values);
    QuotedTame(s.table, q);
    QuotedLacks(s.table, '(', q);
    ColumnsListRead(s.columns, q);
    ListRead(s.values);
    ValuesRead(INSERT_INTO + (name + ListsText(names, list, tail)), name, s.columns, list, s.values, tail, d, c);
    InsertLists(name, names, s.columns, list, tail, d, Made(name, s.columns, s.values, c));
  }

  lemma InsertWritten(s: Statement, d: Dialect)
    requires s.Insert? && AllPieces(s.values)
    ensures Written(s, d) == InsertText(s, d, ConflictText(s.conflict, d))
  {
    var head, tail, q := InsertHead(s, d), ConflictText(s.conflict, d), QuoteMark(d);
    KeptIsPlain(InsertParts(s, d), d, 0);
    forall i | 0 <= i < |s.values| ensures Trimmed(s.values[i]) { assert Piece(s.values[i]); }
    PlainList(s.values);
    ThreeParts(head, ListParts(s.values), [Fixed(")" + tail)]);
    PlainlyOne(Fixed(")" + tail));
    InsertSpelled(Quoted(s.table, q), CommaList(QuotedAll(s.columns, q)), CommaList(s.values), tail);
  }

  lemma InsertSpelled(q: string, columns: string, values: string, tail: string)
    ensures "INSERT INTO " + q + " (" + columns + ") VALUES (" + values + (")" + tail) == INSERT_INTO + (q + ListsText(columns, values, tail))
  {
  }

  lemma ParsesAsInsert(t: string, d: Dialect, select: string -> Outcome<Statement>, r: Outcome<Statement>)
    requires DispatchesTo(t, INSERT_INTO) && InsertGives(t, d, r)
    ensures ParseGives(t, d, select, r)
  {
    assert Looked(6, 0);
  }

  lemma InsertSettled(s: Statement, d: Dialect, tail: string, c: Outcome<Option<Conflict>>, select: string -> Outcome<Statement>)
    requires GoodInsert(s, d) && Ends(tail) && TailGives(tail, s.columns, d, c) && !EndsStatement(InsertText(s, d, tail))
    ensures Trim(InsertText(s, d, tail)) == InsertText(s, d, tail)
    ensures ParseGives(InsertText(s, d, tail), d, select, ReadBack(s, d, c))
  {
    var q := QuoteMark(d);
    InsertIsRead(s, d, tail, c);
    Dispatched(INSERT_INTO, Quoted(s.table, q) + ListsText(CommaList(QuotedAll(s.columns, q)), CommaList(s.values), tail));
    ParsesAsInsert(InsertText(s, d, tail), d, select, ReadBack(s, d, c));
  }

  lemma InsertNormal(s: Statement, d: Dialect, c: Option<Conflict>, n: Option<Conflict>)
    requires s.Insert? && SimpleName(s.table, QuoteMark(d)) && NormalConflict(c) == n
    ensures Normal(Insert(Quoted(s.table, QuoteMark(d)), s.columns, s.values, c)) == s.(conflict := n)
  {
    BareQuoted(s.table, QuoteMark(d));
  }

  lemma TextEnds(q: string, names: string, list: string, tail: string)
    ensures var t := INSERT_INTO + (q + ListsText(names, list, tail));
      t[|t| - 1] == if tail == "" then ')' else tail[|tail| - 1]
  {
    var head := INSERT_INTO + q + " (" + names + ") VALUES (" + list + ")";
    assert INSERT_INTO + (q + ListsText(names, list, tail)) == head + tail;
    assert head[|head| - 1] == ')';
  }

  lemma InsertEnd(s: Statement, d: Dialect, tail: string, c: char)
    requires s.Insert? && (if tail == "" then c == ')' else c == tail[|tail| - 1])
    ensures InsertText(s, d, tail) != "" && InsertText(s, d, tail)[|InsertText(s, d, tail)| - 1] == c
  {
    TextEnds(Quoted(s.table, QuoteMark(d)), CommaList(QuotedAll(s.columns, QuoteMark(d))), CommaList(s.values), tail);
  }

  /** The text with an upsert clause of no assignments ends in a space, and is read without that. */
  lemma SpaceIsTrimmed(t: string, d: Dialect, select: string -> Outcome<Statement>, r: Outcome<Statement>)
    requires Trim(t) == t && ParseGives(t, d, select, r)
    ensures ParseGives(t + " ", d, select, r)
  {
    TrimIs(t);
    TrimTail(t);
    assert Asked(0);
  }

  /** What comes back, with its names normalised. */
  function Returned(s: Statement, c: Outcome<Option<Conflict>>): Outcome<Statement>
    requires s.Insert?
  {
    match c case Ok(x) => Ok(s.(conflict := x)) case _ => Failed
  }

  lemma PlainReadsBack(s: Statement, d: Dialect, select: string -> Outcome<Statement>)
    requires GoodInsert(s, d) && s.conflict.None?
    ensures Recovered(Written(s, d), d, select) == Ok(s)
  {
    InsertWritten(s, d);
    NoTail(s.columns, d);
    InsertEnd(s, d, "", ')');
    InsertSettled(s, d, "", Ok(None), select);
    InsertNormal(s, d, None, None);
    NormalGiven(InsertText(s, d, ""), d, select, Insert(Quoted(s.table, QuoteMark(d)), s.columns, s.values, None), s);
  }

  lemma WordsReadBack(s: Statement, d: Dialect, select: string -> Outcome<Statement>)
    requires Read(d) && GoodInsert(s, d) && s.conflict.Some? && s.conflict.value.assignments == []
    ensures Recovered(Written(s, d), d, select) == if d == MySql then Ok(s.(conflict := None)) else Failed
  {
    var tail := UpsertWords(s.conflict.value.targets, d);
    var t, c := InsertText(s, d, tail), if d == MySql then Ok(None) else Failed;
    InsertWritten(s, d);
    WordsTail(s.columns, s.conflict.value.targets, d);
    InsertEnd(s, d, tail, tail[|tail| - 1]);
    WordsEnd(s.conflict.value.targets, d);
    InsertSettled(s, d, tail, c, select);
    InsertNormal(s, d, None, None);
    WordsWritten(s, d);
    SpaceIsTrimmed(t, d, select, ReadBack(s, d, c));
    if d == MySql {
      NormalGiven(t + " ", d, select, Insert(Quoted(s.table, QuoteMark(d)), s.columns, s.values, None), s.(conflict := None));
    } else {
      FailureGiven(t + " ", d, select);
    }
  }

  lemma WordsEnd(targets: seq<string>, d: Dialect)
    requires Read(d)
    ensures var tail := UpsertWords(targets, d); tail != "" && tail[|tail| - 1] != ';'
  {
  }

  lemma WordsWritten(s: Statement, d: Dialect)
    requires Read(d) && s.Insert? && s.conflict.Some? && s.conflict.value.assignments == []
    ensures InsertText(s, d, ConflictText(s.conflict, d)) == InsertText(s, d, UpsertWords(s.conflict.value.targets, d)) + " "
  {
    ConflictSpelled(s.conflict.value, d);
    assert " " + CommaList(UpsertList([], d)) == " ";
    var q := QuoteMark(d);
    TailMoved(Quoted(s.table, q), CommaList(QuotedAll(s.columns, q)), CommaList(s.values), UpsertWords(s.conflict.value.targets, d), " ");
  }

  lemma TailMoved(q: string, names: string, list: string, tail: string, more: string)
    ensures INSERT_INTO + (q + ListsText(names, list, tail + more)) == INSERT_INTO + (q + ListsText(names, list, tail)) + more
  {
    var head := INSERT_INTO + q + " (" + names + ") VALUES (" + list + ")";
    assert INSERT_INTO + (q + ListsText(names, list, tail)) == head + tail;
    assert INSERT_INTO + (q + ListsText(names, list, tail + more)) == head + (tail + more);
  }

  lemma UpsertReadsBack(s: Statement, d: Dialect, select: string -> Outcome<Statement>)
    requires Read(d) && GoodInsert(s, d) && s.conflict.Some? && s.conflict.value.assignments != []
    ensures Recovered(Written(s, d), d, select) == Returned(s, Regained(s.conflict, s.columns, d))
  {
    var c, tail := s.conflict.value, ConflictText(s.conflict, d);
    var read := Some(QuotedRegained(c, s.columns, d));
    assert s.conflict == Some(c);
    InsertWritten(s, d);
    UpsertRead(s.columns, c, d);
    UpsertEnd(c, d);
    InsertEnd(s, d, tail, tail[|tail| - 1]);
    InsertSettled(s, d, tail, Ok(read), select);
    RegainedNormal(c, s.columns, d);
    InsertNormal(s, d, read, Regained(s.conflict, s.columns, d).value);
    NormalGiven(InsertText(s, d, tail), d, select, Insert(Quoted(s.table, QuoteMark(d)), s.columns, s.values, read),
                s.(conflict := Regained(s.conflict, s.columns, d).value));
  }

  lemma RegainedNormal(c: Conflict, columns: seq<string>, d: Dialect)
    requires Read(d) && c.assignments != [] && GoodAssigned(c.assignments, QuoteMark(d))
    ensures Ok(NormalConflict(Some(QuotedRegained(c, columns, d)))) == Regained(Some(c), columns, d)
  {
    InsertedGood(c.assignments, d);
    AssignmentsNormal(AllInserted(c.assignments, d), QuoteMark(d));
  }

  lemma UpsertEnd(c: Conflict, d: Dialect)
    requires Read(d) && c.assignments != []
    ensures var t := ConflictText(Some(c), d); t != "" && t[|t| - 1] != ';'
  {
    ListEnd(c.assignments, d);
    ConflictSpelled(c, d);
  }

  lemma {:induction false} ListEnd(xs: seq<Assignment>, d: Dialect)
    requires Read(d) && xs != []
    ensures var t := CommaList(UpsertList(xs, d)); t != "" && t[|t| - 1] != ';'
  {
    if |xs| > 1 {
      ListEnd(xs[1..], d);
      var texts := UpsertList(xs, d);
      assert texts[1..] == UpsertList(xs[1..], d);
    } else {
      var name := SplitOn(Trim(xs[0].column), '.');
      QuotedEnds(name, QuoteMark(d), '.');
    }
  }

  /** Rendered, parsed and normalised, an INSERT comes back with the upsert clause that was written, whatever the
      values of its assignments. */
  lemma InsertReadsBack(s: Statement, d: Dialect, select: string -> Outcome<Statement>)
    requires Read(d) && GoodInsert(s, d)
    ensures Recovered(Written(s, d), d, select) == Returned(s, Regained(s.conflict, s.columns, d))
  {
    if s.conflict.None? {
      PlainReadsBack(s, d, select);
    } else if s.conflict.value.assignments == [] {
      WordsReadBack(s, d, select);
    } else {
      UpsertReadsBack(s, d, select);
    }
  }

  lemma RegainedExactly(c: Conflict, columns: seq<string>, d: Dialect)
    requires Read(d) && columns != []
    ensures Regained(Some(c), columns, d) == Ok(Some(c)) <==> SaysInserted(c, columns, d)
  {
    if c.assignments != [] {
      var ys := AllInserted(c.assignments, d);
      assert columns[..1] == [columns[0]];
      if SaysInserted(c, columns, d) {
        forall i | 0 <= i < |ys| ensures ys[i] == c.assignments[i] {
          assert c.assignments[i].value == Inserted(c.assignments[i].column, d);
        }
        assert ys == c.assignments;
      } else if ys == c.assignments {
        assert forall i :: 0 <= i < |ys| ==> ys[i].value == Inserted(ys[i].column, d);
      }
    }
  }

  /** It is the same INSERT exactly when its upsert clause, if it has one, is of the style of the dialect, aims at
      the first column (in PostgreSQL, at any columns) and sets each column to the value to be inserted. */
  lemma InsertRoundTripExactly(s: Statement, d: Dialect, select: string -> Outcome<Statement>)
    requires Read(d) && GoodInsert(s, d)
    ensures Recovered(Written(s, d), d, select) == Ok(s)
       <==> (s.conflict.Some? ==> SaysInserted(s.conflict.value, s.columns, d))
  {
    InsertReadsBack(s, d, select);
    if s.conflict.Some? { RegainedExactly(s.conflict.value, s.columns, d); }
  }

  // ----- an upsert that is lost

  const COUNTED := Insert("t", ["n"], ["1"], Some(Conflict(MySqlStyle, ["n"], [Assignment("n", "n + 1")])))

  lemma CountedGood()
    ensures GoodInsert(COUNTED, MySql)
  {
    NameLetter("t");
    NameLetter("n");
    OneDigit();
    assert SimpleColumn("n", '`');
  }

  lemma NameLetter(name: string)
    requires |name| == 1 && 'a' <= name[0] <= 'z'
    ensures SimpleName(name, '`')
  {
    SplitWord(name, '.');
    TrimTrimmed(name);
  }

  lemma OneDigit()
    ensures Piece("1") && Closed("1")
  {
    assert "1"[1..] == "";
  }

  const COUNT := "n = n + 1"

  lemma CountPiece()
    ensures AllPieces([COUNT]) && CommaList([COUNT]) == COUNT
  {
    LettersPiece(COUNT);
    assert Piece(COUNT);
  }

  lemma {:induction false} LettersPiece(w: string)
    requires forall i :: 0 <= i < |w| ==> !IsQuote(w[i]) && w[i] != '(' && w[i] != ')' && w[i] != ','
    ensures Calm(w) && CommaFree(OUT, w)
  {
    if w != "" {
      assert Step(OUT, w[0]) == OUT;
      LettersPiece(w[1..]);
    }
  }

  lemma CountPair(list: string, a: Assignment)
    requires CutEquals(list) == Ok(a)
    ensures PairUp([list]) == Ok([a])
  {
    assert [list][1..] == [] && PairUp([]) == Ok([]) && [a] + [] == [a];
  }

  lemma CountIsRead()
    ensures ReadAssignments(COUNT) == Ok([Assignment("n", "n + 1")])
  {
    assert "n" + (" = " + "n + 1") == COUNT;
    AssignmentCut("n", "n + 1");
    CountPair(COUNT, Assignment("n", "n + 1"));
    CountPiece();
    SplitList([COUNT], "");
  }

  lemma CountIsOther(c: Conflict, columns: seq<string>)
    requires |c.assignments| == 1 && c.assignments[0].value == "n + 1"
    ensures !SaysInserted(c, columns, MySql)
  {
    assert Inserted(c.assignments[0].column, MySql)[0] == 'V' && "n + 1"[0] == 'n';
  }

  /** `ON DUPLICATE KEY UPDATE n = n + 1` is read, but written as another upsert, and lost. */
  lemma CountIsLost(select: string -> Outcome<Statement>)
    ensures ReadUpsert(ON_DUPLICATE + COUNT, ["n"], MySql) == Ok(COUNTED.conflict)
    ensures Recovered(Written(COUNTED, MySql), MySql, select) != Ok(COUNTED)
  {
    CountIsRead();
    DuplicateRead(["n"], COUNT, [Assignment("n", "n + 1")]);
    assert ["n"][..1] == ["n"];
    CountedGood();
    InsertRoundTripExactly(COUNTED, MySql, select);
    CountIsOther(COUNTED.conflict.value, COUNTED.columns);
  }
}
