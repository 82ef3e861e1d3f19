/**
 A rendered INSERT with its keywords in any case of letters is read as the INSERT in capitals is, the upsert clause
 included (internal/syntax/mysql/parser.go:77-130, internal/syntax/postgres/parser.go:77-138,
 internal/syntax/syntax.go:141-184).
 */
module InsertAnyCase {
  import opened Basics
  import opened Strings
  import opened TopLevel
  import opened TopLevelLaws
  import opened Statements
  import opened Readers
  import opened DmlReaders
  import opened Normalizing
  import opened Rendering
  import opened SelectReading
  import opened SelectTrip
  import opened QuotedNames
  import opened DmlTrip
  import opened InsertTrip
  import opened LetterCase
  import opened JoinsAnyCase
  import opened DmlAnyCase

  /** How the words of an INSERT are spelled; those of an upsert clause as far as its dialect writes them. */
  datatype InsertWords = InsertWords(insert: string, values: string, duplicate: string, conflict: string, action: string)

  const DUPLICATE := "ON DUPLICATE KEY UPDATE"

  predicate InsertSpelledSo(w: InsertWords) {
    && Alike(w.insert, INSERT_INTO) && Alike(w.values, VALUES)
    && Alike(w.duplicate, DUPLICATE) && Alike(w.conflict, ON_CONFLICT) && Alike(w.action, NO_UPDATE)
  }

  // ----- the upsert clause

  /** The words of an upsert clause before its assignments. */
  function UpsertWordsIn(targets: seq<string>, d: Dialect, w: InsertWords): string {
    if d == MySql then " " + w.duplicate else TargetsIn(CommaList(QuotedAll(targets, QuoteMark(d))), w.conflict, w.action)
  }

  function TargetsIn(names: string, conflict: string, action: string): string {
    " " + (conflict + ("(" + (names + (")" + (" " + action)))))
  }

  function ConflictIn(conflict: Option<Conflict>, d: Dialect, w: InsertWords): string {
    match conflict
    case None => ""
    case Some(c) => UpsertWordsIn(c.targets, d, w) + (" " + CommaList(UpsertList(c.assignments, d)))
  }

  lemma WordThenSpace(word: string, half: string, whole: string, list: string)
    requires Alike(word, half) && whole == half + " "
    ensures var t := word + (" " + list); |t| >= |whole| && t[|whole|..] == list && Matches(t, whole)
  {
    var t := word + (" " + list);
    AlikeAppend(word, half, " ", " ");
    assert t[..|whole|] == word + " ";
    MatchesExactly(t, whole);
  }

  lemma DuplicateInTail(columns: seq<string>, word: string, list: string, ys: seq<Assignment>)
    requires Alike(word, DUPLICATE) && LastSolid(list) && ReadAssignments(list) == Ok(ys)
    ensures TailGives(" " + word + (" " + list), columns, MySql, Ok(Some(Conflict(MySqlStyle, FirstOf(columns), ys))))
  {
    var rest := word + (" " + list);
    assert " " + word + (" " + list) == " " + rest;
    WordThenSpace(word, DUPLICATE, ON_DUPLICATE, list);
    LastAppend(" ", list);
    LastAppend(word, " " + list);
    assert SameLetter(word[0], DUPLICATE[0]);
    TrimLead(rest);
  }

  lemma ActionInRead(word: string, list: string, targets: seq<string>, ys: seq<Assignment>)
    requires Alike(word, NO_UPDATE) && ReadAssignments(list) == Ok(ys) && LastSolid(list)
    ensures ActionGives(word + (" " + list), targets, Ok(Some(Conflict(PostgresStyle, targets, ys))))
    ensures Trimmed(word + (" " + list)) && LastSolid(word + (" " + list))
  {
    WordThenSpace(word, NO_UPDATE, DO_UPDATE, list);
    LastAppend(" ", list);
    LastAppend(word, " " + list);
    assert SameLetter(word[0], NO_UPDATE[0]);
  }

  lemma ConflictInMatched(word: string, body: string, columns: seq<string>, r: Outcome<Option<Conflict>>)
    requires Alike(word, ON_CONFLICT) && Trimmed(body) && body != "" && ConflictGives(body, r)
    ensures TailGives(" " + (word + body), columns, Postgres, r)
  {
    var rest := word + body;
    assert Looked(10, 0);
    assert SameLetter(rest[0], ON_CONFLICT[0]) && rest[|rest| - 1] == body[|body| - 1];
    TrimLead(rest);
    assert rest[|ON_CONFLICT|..] == body && rest[..|ON_CONFLICT|] == word;
    TrimTrimmed(body);
    MatchesExactly(rest, ON_CONFLICT);
  }

  lemma ConflictInTail(columns: seq<string>, targets: seq<string>, word: string, action: string, r: Outcome<Option<Conflict>>)
    requires SimpleColumns(targets, '"') && Alike(word, ON_CONFLICT) && Trimmed(action) && LastSolid(action)
    requires ActionGives(action, Targets(targets), r)
    ensures var tail := TargetsIn(CommaList(QuotedAll(targets, '"')), word, action);
      LastSolid(tail) && TailGives(tail, columns, Postgres, r)
  {
    var names := CommaList(QuotedAll(targets, '"'));
    var body := "(" + (names + (")" + (" " + action)));
    TargetsRead(targets, '"');
    ConflictIsRead(names, action, r);
    BodyShape(names, action);
    LastAppend(word, body);
    LastAppend(" ", word + body);
    ConflictInMatched(word, body, columns, r);
  }

  lemma UpdateInTail(columns: seq<string>, targets: seq<string>, w: InsertWords, list: string, ys: seq<Assignment>)
    requires SimpleColumns(targets, '"') && InsertSpelledSo(w) && LastSolid(list) && ReadAssignments(list) == Ok(ys)
    ensures TailGives(UpsertWordsIn(targets, Postgres, w) + (" " + list), columns, Postgres,
                      Ok(Some(Conflict(PostgresStyle, Targets(targets), ys))))
  {
    ActionInRead(w.action, list, Targets(targets), ys);
    ConflictInTail(columns, targets, w.conflict, w.action + (" " + list), Ok(Some(Conflict(PostgresStyle, Targets(targets), ys))));
    ListMoved(CommaList(QuotedAll(targets, '"')), w.conflict, w.action, " " + list);
  }

  lemma ListMoved(names: string, conflict: string, action: string, more: string)
    ensures TargetsIn(names, conflict, action) + more == TargetsIn(names, conflict, action + more)
  {
    var a, b := " " + action, " " + (action + more);
    assert b == a + more;
    Assoc(")", a, more);
    Assoc(names, ")" + a, more);
    Assoc("(", names + (")" + a), more);
    Assoc(conflict, "(" + (names + (")" + a)), more);
    Assoc(" ", conflict + ("(" + (names + (")" + a))), more);
  }

  /** The clause with assignments. */
  lemma UpsertInRead(columns: seq<string>, c: Conflict, d: Dialect, w: InsertWords)
    requires Read(d) && c.assignments != [] && GoodConflict(Some(c), d) && InsertSpelledSo(w)
    ensures LastSolid(ConflictIn(Some(c), d, w))
    ensures TailGives(ConflictIn(Some(c), d, w), columns, d, Ok(Some(QuotedRegained(c, columns, d))))
  {
    var ys, q := AllInserted(c.assignments, d), QuoteMark(d);
    var list := AssignmentsText(ys, q);
    UpsertSpelled(c.assignments, d);
    InsertedGood(c.assignments, d);
    AssignmentsSolid(ys, q);
    ListTrimmed(AssignmentTexts(ys, q));
    AssignmentsRead(ys, q);
    LastAppend(" ", list);
    LastAppend(UpsertWordsIn(c.targets, d, w), " " + list);
    if d == MySql {
      DuplicateInTail(columns, w.duplicate, list, QuotedAssignments(ys, q));
    } else {
      UpdateInTail(columns, c.targets, w, list, QuotedAssignments(ys, q));
    }
  }

  /** The clause without assignments, up to its last space. */
  lemma WordsInTail(columns: seq<string>, targets: seq<string>, d: Dialect, w: InsertWords)
    requires Read(d) && (d == Postgres ==> SimpleColumns(targets, QuoteMark(d))) && InsertSpelledSo(w)
    ensures LastSolid(UpsertWordsIn(targets, d, w))
    ensures TailGives(UpsertWordsIn(targets, d, w), columns, d, if d == MySql then Ok(None) else Failed)
  {
    if d == MySql {
      assert SameLetter(w.duplicate[|DUPLICATE| - 1], DUPLICATE[|DUPLICATE| - 1]) && SameLetter(w.duplicate[0], DUPLICATE[0]);
      LastAppend(" ", w.duplicate);
      TrimLead(w.duplicate);
    } else {
      assert SameLetter(w.action[|NO_UPDATE| - 1], NO_UPDATE[|NO_UPDATE| - 1]) && SameLetter(w.action[0], NO_UPDATE[0]);
      HalfActionIn(w.action, Targets(targets));
      ConflictInTail(columns, targets, w.conflict, w.action, Failed);
    }
  }

  lemma HalfActionIn(word: string, targets: seq<string>)
    requires |word| == |NO_UPDATE|
    ensures ActionGives(word, targets, Failed)
  {
  }

  // ----- the values

  function ValuesIn(word: string, values: string, tail: string): string { word + (" " + ("(" + (values + (")" + tail)))) }

  function ListsIn(columns: string, word: string, values: string, tail: string): string {
    " " + ("(" + (columns + (")" + (" " + ValuesIn(word, values, tail)))))
  }

  lemma ValuesWordInRead(sql: string, table: string, columns: seq<string>, word: string, rest: string, d: Dialect, r: Outcome<Statement>)
    requires Alike(word, VALUES) && Trimmed(rest) && ListGives(table, columns, rest, d, r)
    ensures ValuesGive(sql, table, columns, word + (" " + rest), d, r)
  {
    assert Looked(8, 0);
    var after := word + (" " + rest);
    assert SameLetter(after[0], VALUES[0]) && Step(OUT, after[0]) == OUT;
    assert after[|VALUES|..] == " " + rest && after[..|VALUES|] == word;
    MatchesExactly(after, VALUES);
    TrimLead(rest);
  }

  lemma ValuesInRead(sql: string, q: string, columns: seq<string>, word: string, list: string, values: seq<string>, tail: string,
                     d: Dialect, c: Outcome<Option<Conflict>>)
    requires Closed(list) && Split(list) == values && TailGives(tail, columns, d, c) && Ends(tail) && Alike(word, VALUES)
    ensures ValuesGive(sql, q, columns, ValuesIn(word, list, tail), d, Made(q, columns, values, c))
  {
    var rest := "(" + (list + (")" + tail));
    EndsSolid("(" + list, tail);
    Assoc("(", list, ")" + tail);
    ValuesIsRead(q, columns, list, values, tail, d, c);
    ValuesWordInRead(sql, q, columns, word, rest, d, Made(q, columns, values, c));
  }

  lemma ValuesInTrimmed(word: string, values: string, tail: string)
    requires Ends(tail) && Alike(word, VALUES)
    ensures Trim(" " + ValuesIn(word, values, tail)) == ValuesIn(word, values, tail)
  {
    var t := ValuesIn(word, values, tail);
    EndsSolid(word + (" " + ("(" + values)), tail);
    assert t == (word + (" " + ("(" + values))) + (")" + tail);
    assert SameLetter(t[0], VALUES[0]);
    TrimLead(t);
  }

  lemma LaidIn(q: string, list: string, columns: seq<string>, word: string, values: string, tail: string)
    requires Trimmed(q) && '(' !in q && Closed(list) && OuterAll(Split(list)) == columns
    ensures Laid(q + ListsIn(list, word, values, tail), q, list, columns, " " + ValuesIn(word, values, tail))
  {
    Assoc(q, " ", "(" + (list + (")" + (" " + ValuesIn(word, values, tail)))));
  }

  lemma BodyInEnds(insert: string, q: string, list: string, word: string, values: string, tail: string)
    requires Trimmed(q) && q != "" && Ends(tail) && Alike(insert, INSERT_INTO)
    ensures var body := q + ListsIn(list, word, values, tail);
      |insert| == |INSERT_INTO| && Trim(insert + body) == insert + body && Trim((insert + body)[|INSERT_INTO|..]) == body
  {
    var body := q + ListsIn(list, word, values, tail);
    var head := q + " (" + list + ") " + word + " (";
    EndsSolid(head + values, tail);
    BodyInSpelled(q, list, word, values, tail);
    assert body[0] == q[0];
    assert SameLetter(insert[0], INSERT_INTO[0]);
    BodyTrimmed(insert, body);
  }

  lemma BodyInSpelled(q: string, list: string, word: string, values: string, tail: string)
    ensures q + ListsIn(list, word, values, tail) == (q + " (" + list + ") " + word + " (" + values) + (")" + tail)
  {
  }

  lemma InsertListsIn(insert: string, q: string, list: string, columns: seq<string>, word: string, values: string, tail: string,
                      d: Dialect, r: Outcome<Statement>)
    requires Trimmed(q) && q != "" && '(' !in q && Closed(list) && OuterAll(Split(list)) == columns && Ends(tail)
    requires Alike(insert, INSERT_INTO) && Alike(word, VALUES)
    requires ValuesGive(insert + (q + ListsIn(list, word, values, tail)), q, columns, ValuesIn(word, values, tail), d, r)
    ensures var sql := insert + (q + ListsIn(list, word, values, tail)); Trim(sql) == sql && InsertGives(sql, d, r)
  {
    var body, after, rest := q + ListsIn(list, word, values, tail), " " + ValuesIn(word, values, tail), ValuesIn(word, values, tail);
    BodyInEnds(insert, q, list, word, values, tail);
    ValuesInTrimmed(word, values, tail);
    LaidIn(q, list, columns, word, values, tail);
    var open, close := |q| + 1, |q| + 2 + |list|;
    LaidColumns(insert + body, body, q, list, columns, after, rest, d, r, open, close);
    LaidIsRead(insert + body, body, q, list, columns, after, d, r, open, close);
    BodyIsRead(insert + body, body, d, r);
  }

  // ----- the whole statement

  /** An INSERT with its words spelled so. */
  function InsertIn(s: Statement, d: Dialect, w: InsertWords, tail: string): string
    requires s.Insert?
  {
    var q := QuoteMark(d);
    w.insert + (Quoted(s.table, q) + ListsIn(CommaList(QuotedAll(s.columns, q)), w.values, CommaList(s.values), tail))
  }

  lemma InsertInRead(s: Statement, d: Dialect, w: InsertWords, tail: string, c: Outcome<Option<Conflict>>)
    requires GoodInsert(s, d) && InsertSpelledSo(w) && Ends(tail) && TailGives(tail, s.columns, d, c)
    ensures var t := InsertIn(s, d, w, tail); Trim(t) == t && InsertGives(t, d, ReadBack(s, d, c))
  {
    var q := QuoteMark(d);
    var name, names, list := Quoted(s.table, q), CommaList(QuotedAll(s.columns, q)), CommaList(s.values);
    QuotedTame(s.table, q);
    QuotedLacks(s.table, '(', q);
    ColumnsListRead(s.columns, q);
    ListRead(s.values);
    ValuesInRead(w.insert + (name + ListsIn(names, w.values, list, tail)), name, s.columns, w.values, list, s.values, tail, d, c);
    InsertListsIn(w.insert, name, names, s.columns, w.values, list, tail, d, Made(name, s.columns, s.values, c));
  }

  lemma InsertDispatched(t: string, insert: string, body: string)
    requires Alike(insert, INSERT_INTO) && t == insert + body && Trim(t) == t && !EndsStatement(t)
    ensures DispatchesTo(t, INSERT_INTO)
  {
    var u := INSERT_INTO + body;
    TwinItself(body);
    HeadTwin(INSERT_INTO, insert, body, body);
    TrimIs(t);
    TwinEnds(u, t);
    TrimTrimmed(u);
    Dispatched(INSERT_INTO, body);
    DispatchTwin(u, t, INSERT_INTO);
  }

  lemma InsertInSettled(s: Statement, d: Dialect, w: InsertWords, tail: string, c: Outcome<Option<Conflict>>,
                        select: string -> Outcome<Statement>)
    requires GoodInsert(s, d) && InsertSpelledSo(w) && Ends(tail) && TailGives(tail, s.columns, d, c)
    requires tail != "" ==> tail[|tail| - 1] != ';'
    ensures Trim(InsertIn(s, d, w, tail)) == InsertIn(s, d, w, tail)
    ensures ParseGives(InsertIn(s, d, w, tail), d, select, ReadBack(s, d, c))
  {
    var q := QuoteMark(d);
    var body := Quoted(s.table, q) + ListsIn(CommaList(QuotedAll(s.columns, q)), w.values, CommaList(s.values), tail);
    InsertInRead(s, d, w, tail, c);
    BodyInSpelled(Quoted(s.table, q), CommaList(QuotedAll(s.columns, q)), w.values, CommaList(s.values), tail);
    assert !EndsStatement(w.insert + body);
    InsertDispatched(w.insert + body, w.insert, body);
    ParsesAsInsert(InsertIn(s, d, w, tail), d, select, ReadBack(s, d, c));
  }

  lemma PlainInBack(s: Statement, d: Dialect, w: InsertWords, select: string -> Outcome<Statement>)
    requires GoodInsert(s, d) && InsertSpelledSo(w) && s.conflict.None?
    ensures Recovered(InsertIn(s, d, w, ""), d, select) == Ok(s)
  {
    NoTail(s.columns, d);
    InsertInSettled(s, d, w, "", Ok(None), select);
    InsertNormal(s, d, None, None);
    NormalGiven(InsertIn(s, d, w, ""), d, select, Insert(Quoted(s.table, QuoteMark(d)), s.columns, s.values, None), s);
  }

  lemma TailInMoved(s: Statement, d: Dialect, w: InsertWords, tail: string)
    requires s.Insert?
    ensures InsertIn(s, d, w, tail + " ") == InsertIn(s, d, w, tail) + " "
  {
    var q := QuoteMark(d);
    var name, names, list := Quoted(s.table, q), CommaList(QuotedAll(s.columns, q)), CommaList(s.values);
    BodyInSpelled(name, names, w.values, list, tail);
    BodyInSpelled(name, names, w.values, list, tail + " ");
    Assoc(")", tail, " ");
    var head := name + " (" + names + ") " + w.values + " (" + list;
    Assoc(head, ")" + tail, " ");
    Assoc(w.insert, head + (")" + tail), " ");
  }

  lemma WordsInEnd(targets: seq<string>, d: Dialect, w: InsertWords)
    requires Read(d) && InsertSpelledSo(w)
    ensures var tail := UpsertWordsIn(targets, d, w); tail != "" && tail[|tail| - 1] != ';'
  {
    if d == MySql {
      assert SameLetter(w.duplicate[|DUPLICATE| - 1], DUPLICATE[|DUPLICATE| - 1]);
    } else {
      assert SameLetter(w.action[|NO_UPDATE| - 1], NO_UPDATE[|NO_UPDATE| - 1]);
    }
  }

  lemma WordsInText(s: Statement, d: Dialect, w: InsertWords)
    requires s.Insert? && s.conflict.Some? && s.conflict.value.assignments == []
    ensures InsertIn(s, d, w, ConflictIn(s.conflict, d, w)) == InsertIn(s, d, w, UpsertWordsIn(s.conflict.value.targets, d, w)) + " "
  {
    var tail := UpsertWordsIn(s.conflict.value.targets, d, w);
    assert ConflictIn(s.conflict, d, w) == tail + " ";
    TailInMoved(s, d, w, tail);
  }

  lemma WordsInSettled(s: Statement, d: Dialect, w: InsertWords, t: string, select: string -> Outcome<Statement>)
    requires Read(d) && GoodInsert(s, d) && InsertSpelledSo(w) && s.conflict.Some?
    requires t == InsertIn(s, d, w, UpsertWordsIn(s.conflict.value.targets, d, w))
    ensures Trim(t) == t && ParseGives(t, d, select, ReadBack(s, d, if d == MySql then Ok(None) else Failed))
  {
    var tail := UpsertWordsIn(s.conflict.value.targets, d, w);
    WordsInTail(s.columns, s.conflict.value.targets, d, w);
    WordsInEnd(s.conflict.value.targets, d, w);
    InsertInSettled(s, d, w, tail, if d == MySql then Ok(None) else Failed, select);
  }

  lemma WordsInBack(s: Statement, d: Dialect, w: InsertWords, select: string -> Outcome<Statement>)
    requires Read(d) && GoodInsert(s, d) && InsertSpelledSo(w) && s.conflict.Some? && s.conflict.value.assignments == []
    ensures Recovered(InsertIn(s, d, w, ConflictIn(s.conflict, d, w)), d, select) == if d == MySql then Ok(s.(conflict := None)) else Failed
  {
    var t := InsertIn(s, d, w, UpsertWordsIn(s.conflict.value.targets, d, w));
    var read := Insert(Quoted(s.table, QuoteMark(d)), s.columns, s.values, None);
    WordsInText(s, d, w);
    WordsInSettled(s, d, w, t, select);
    if d == MySql {
      SpaceIsTrimmed(t, d, select, Ok(read));
      InsertNormal(s, d, None, None);
      NormalGiven(t + " ", d, select, read, s.(conflict := None));
    } else {
      SpaceIsTrimmed(t, d, select, Failed);
      FailureGiven(t + " ", d, select);
    }
  }

  lemma UpsertInEnd(c: Conflict, d: Dialect, w: InsertWords)
    requires Read(d) && c.assignments != [] && GoodConflict(Some(c), d)
    ensures var t := ConflictIn(Some(c), d, w); t != "" && t[|t| - 1] != ';'
  {
    UpsertEnd(c, d);
    ConflictSpelled(c, d);
    var list := " " + CommaList(UpsertList(c.assignments, d));
    assert ConflictText(Some(c), d)[|ConflictText(Some(c), d)| - 1] == list[|list| - 1];
  }

  lemma UpsertInBack(s: Statement, d: Dialect, w: InsertWords, select: string -> Outcome<Statement>)
    requires Read(d) && GoodInsert(s, d) && InsertSpelledSo(w) && s.conflict.Some? && s.conflict.value.assignments != []
    ensures Recovered(InsertIn(s, d, w, ConflictIn(s.conflict, d, w)), d, select) == Returned(s, Regained(s.conflict, s.columns, d))
  {
    var c, tail := s.conflict.value, ConflictIn(s.conflict, d, w);
    var read := Some(QuotedRegained(c, s.columns, d));
    assert s.conflict == Some(c);
    UpsertInRead(s.columns, c, d, w);
    UpsertInEnd(c, d, w);
    InsertInSettled(s, d, w, tail, Ok(read), select);
    RegainedNormal(c, s.columns, d);
    InsertNormal(s, d, read, Regained(s.conflict, s.columns, d).value);
    NormalGiven(InsertIn(s, d, w, tail), d, select, Insert(Quoted(s.table, QuoteMark(d)), s.columns, s.values, read),
                s.(conflict := Regained(s.conflict, s.columns, d).value));
  }

  // ----- the texts are alike

  lemma UpsertTwin(c: Option<Conflict>, d: Dialect, w: InsertWords)
    requires Read(d) && InsertSpelledSo(w)
    ensures Twins(ConflictText(c, d), ConflictIn(c, d, w))
  {
    if c.None? {
      TwinItself("");
    } else {
      var list := " " + CommaList(UpsertList(c.value.assignments, d));
      ConflictSpelled(c.value, d);
      WordsTwin(c.value.targets, d, w);
      TwinItself(list);
      TwinAppend(UpsertWords(c.value.targets, d), UpsertWordsIn(c.value.targets, d, w), list, list);
    }
  }

  lemma WordsTwin(targets: seq<string>, d: Dialect, w: InsertWords)
    requires Read(d) && InsertSpelledSo(w)
    ensures Twins(UpsertWords(targets, d), UpsertWordsIn(targets, d, w))
  {
    if d == MySql {
      AlikeTurned(w.duplicate, DUPLICATE);
      Seal(DUPLICATE, w.duplicate);
      TailTwin(" ", DUPLICATE, w.duplicate);
      assert " " + DUPLICATE == UpsertWords(targets, d);
    } else {
      var names := CommaList(QuotedAll(targets, '"'));
      AlikeTurned(w.action, NO_UPDATE);
      Seal(NO_UPDATE, w.action);
      TailTwin(" ", NO_UPDATE, w.action);
      TailTwin(")", " " + NO_UPDATE, " " + w.action);
      TailTwin(names, ")" + (" " + NO_UPDATE), ")" + (" " + w.action));
      TailTwin("(", names + (")" + (" " + NO_UPDATE)), names + (")" + (" " + w.action)));
      HeadTwin(ON_CONFLICT, w.conflict, "(" + (names + (")" + (" " + NO_UPDATE))), "(" + (names + (")" + (" " + w.action))));
      TailTwin(" ", ON_CONFLICT + ("(" + (names + (")" + (" " + NO_UPDATE)))), w.conflict + ("(" + (names + (")" + (" " + w.action)))));
      ConflictWritten(names, NO_UPDATE);
      HalfWritten(names);
    }
  }

  lemma ListsTwin(q: string, names: string, list: string, insert: string, word: string, tail: string, other: string)
    requires Alike(insert, INSERT_INTO) && Alike(word, VALUES) && Twins(tail, other)
    ensures Twins(INSERT_INTO + (q + ListsText(names, list, tail)), insert + (q + ListsIn(names, word, list, other)))
  {
    var a, b := " " + ("(" + (list + (")" + tail))), " " + ("(" + (list + (")" + other)));
    TailTwin(")", tail, other);
    TailTwin(list, ")" + tail, ")" + other);
    TailTwin("(", list + (")" + tail), list + (")" + other));
    TailTwin(" ", "(" + (list + (")" + tail)), "(" + (list + (")" + other)));
    HeadTwin(VALUES, word, a, b);
    TailTwin(" ", VALUES + a, word + b);
    TailTwin(")", " " + (VALUES + a), " " + (word + b));
    TailTwin(names, ")" + (" " + (VALUES + a)), ")" + (" " + (word + b)));
    TailTwin("(", names + (")" + (" " + (VALUES + a))), names + (")" + (" " + (word + b))));
    TailTwin(" ", "(" + (names + (")" + (" " + (VALUES + a)))), "(" + (names + (")" + (" " + (word + b)))));
    TailTwin(q, ListsText(names, list, tail), ListsIn(names, word, list, other));
    HeadTwin(INSERT_INTO, insert, q + ListsText(names, list, tail), q + ListsIn(names, word, list, other));
  }

  /** The text differs from the rendered one in the case of letters only. */
  lemma InsertInAlike(s: Statement, d: Dialect, w: InsertWords)
    requires Read(d) && GoodInsert(s, d) && InsertSpelledSo(w)
    ensures Alike(Written(s, d), InsertIn(s, d, w, ConflictIn(s.conflict, d, w)))
  {
    var q := QuoteMark(d);
    InsertWritten(s, d);
    UpsertTwin(s.conflict, d, w);
    ListsTwin(Quoted(s.table, q), CommaList(QuotedAll(s.columns, q)), CommaList(s.values), w.insert, w.values,
              ConflictText(s.conflict, d), ConflictIn(s.conflict, d, w));
    Unsealed(Written(s, d), InsertIn(s, d, w, ConflictIn(s.conflict, d, w)));
  }

  /** An INSERT in any case of letters is the same statement exactly when the one in capitals is. */
  lemma InsertAnyCase(s: Statement, d: Dialect, w: InsertWords, select: string -> Outcome<Statement>)
    requires Read(d) && GoodInsert(s, d) && InsertSpelledSo(w)
    ensures Alike(Written(s, d), InsertIn(s, d, w, ConflictIn(s.conflict, d, w)))
    ensures Recovered(InsertIn(s, d, w, ConflictIn(s.conflict, d, w)), d, select) == Recovered(Written(s, d), d, select)
    ensures Recovered(InsertIn(s, d, w, ConflictIn(s.conflict, d, w)), d, select) == Ok(s)
       <==> (s.conflict.Some? ==> SaysInserted(s.conflict.value, s.columns, d))
  {
    InsertInAlike(s, d, w);
    InsertRoundTripExactly(s, d, select);
    InsertReadsBack(s, d, select);
    if s.conflict.None? {
      PlainInBack(s, d, w, select);
    } else if s.conflict.value.assignments == [] {
      WordsInBack(s, d, w, select);
    } else {
      UpsertInBack(s, d, w, select);
    }
  }
}
