/**
 The translator over the statement readers, the normaliser and the renderer: the stages of a translation, and what
 becomes of a text that the renderer wrote (translator.go:84-152, internal/normalize/normalize.go:11-95,
 internal/render/render.go:23-47).
 */
module Translation {
  import opened Basics
  import opened Statements
  import opened Readers
  import opened Normalizing
  import opened Rendering
  import opened SelectReading
  import opened SelectTrip
  import opened DmlTrip
  import opened InsertTrip
  import opened SelectAnyCase
  import T = Translator

  /** A statement with its fragments rewritten from one dialect for another. */
  function Rendered(s: Statement, from: Dialect, to: Dialect): string { Text(Parts(s, to), WriterOf(TreatmentOf(from, to)), 0) }

  function Name(d: Dialect): string {
    match d case MySql => "mysql" case Postgres => "postgres" case Sqlite => "sqlite" case Oracle => "oracle"
  }

  function ReadWith(sql: string, from: Dialect): T.Outcome<Statement> {
    match Recovered(sql, from, ReaderFor(from)) case Ok(s) => T.Success(s) case _ => T.Failure("not read")
  }

  /** The translator of a dialect pair; what the grammar parser takes is up to it. */
  function Between(from: Dialect, to: Dialect, parseOne: string -> T.Parsed<Statement>): T.Backend<Statement> {
    T.Backend(Name(from), Name(to), parseOne, s => T.Success(Rendered(s, from, to)), sql => ReadWith(sql, from))
  }

  lemma NamesDiffer(from: Dialect, to: Dialect)
    ensures Name(from) == Name(to) <==> from == to
  {
    assert Name(from)[0] == match from case MySql => 'm' case Postgres => 'p' case Sqlite => 's' case Oracle => 'o';
    assert Name(to)[0] == match to case MySql => 'm' case Postgres => 'p' case Sqlite => 's' case Oracle => 'o';
  }

  /** What the grammar parser leaves to the readers: a text it does not take, or a statement that is not blocked and
      cannot be normalised, SHOW and SET excepted. */
  predicate LeftToReaders<S>(p: T.Parsed<S>) { p.Parsed? ==> !p.blocked && !p.fatal && p.normalized.Failure? }

  /** Which stage decides: nothing is done between equal dialects; a blocked statement is refused; a statement that was
      normalised is rendered; only what the parser leaves to the readers depends on them. */
  lemma Stages<S>(b: T.Backend<S>, sql: string, legacy: string -> T.Outcome<S>)
    ensures b.input == b.target ==> T.TranslateSQL(b, sql) == T.Success(sql)
    ensures b.input != b.target ==>
      var p, r := b.parseOne(sql), T.TranslateSQL(b, sql);
      && (p.Parsed? && p.blocked ==> r == T.Failure(T.NOT_ADAPTED))
      && (p.Parsed? && !p.blocked && p.normalized.Success? ==> r == b.render(p.normalized.value))
      && (p.Parsed? && !p.blocked && p.normalized.Failure? && p.fatal ==> r == T.Failure(p.normalized.error))
      && (LeftToReaders(p) && b.legacy(sql).Failure? ==> r == T.Failure(b.legacy(sql).error))
      && (LeftToReaders(p) && b.legacy(sql).Success? ==> r == b.render(b.legacy(sql).value))
    ensures b.input == b.target || !LeftToReaders(b.parseOne(sql)) ==>
      T.TranslateSQL(b.(legacy := legacy), sql) == T.TranslateSQL(b, sql)
  {
  }

  /** A text that is read as a statement is translated by rendering that statement. */
  lemma ReadIsRendered(from: Dialect, to: Dialect, parseOne: string -> T.Parsed<Statement>, sql: string, s: Statement)
    requires from != to && LeftToReaders(parseOne(sql)) && Recovered(sql, from, ReaderFor(from)) == Ok(s)
    ensures T.TranslateSQL(Between(from, to, parseOne), sql) == T.Success(Rendered(s, from, to))
  {
    NamesDiffer(from, to);
  }

  /** The statements that come back from their text. */
  predicate ComesBack(s: Statement, d: Dialect) {
    Read(d) &&
    match s
    case Raw(_) => false
    case Select(_, _, joins, _, _, _) => GoodSelect(s) && !EndsStatement(Written(s, d)) && (d == MySql ==> |joins| <= 1)
    case Insert(_, columns, _, conflict) => GoodInsert(s, d) && (conflict.Some? ==> SaysInserted(conflict.value, columns, d))
    case Update(_, _, _) => GoodUpdate(s, d) && !EndsStatement(Written(s, d))
    case Delete(_, _) => GoodDelete(s, d) && !EndsStatement(Written(s, d))
  }

  lemma WrittenComesBack(s: Statement, d: Dialect)
    requires ComesBack(s, d)
    ensures Recovered(Written(s, d), d, ReaderFor(d)) == Ok(s)
  {
    match s
    case Select(_, _, _, _, _, _) =>
      if d == Postgres { SelectRoundTrip(s); } else { MySqlSelectExactly(s); }
    case Insert(_, _, _, _) => InsertRoundTripExactly(s, d, ReaderFor(d));
    case Update(_, _, _) => UpdateRoundTrip(s, d, ReaderFor(d));
    case Delete(_, _) => DeleteRoundTrip(s, d, ReaderFor(d));
  }

  /** A statement written for one dialect and translated is the statement written for the other one, with its fragments
      rewritten. */
  lemma WrittenIsTranslated(from: Dialect, to: Dialect, parseOne: string -> T.Parsed<Statement>, s: Statement)
    requires from != to && ComesBack(s, from) && LeftToReaders(parseOne(Written(s, from)))
    ensures T.TranslateSQL(Between(from, to, parseOne), Written(s, from)) == T.Success(Rendered(s, from, to))
  {
    WrittenComesBack(s, from);
    ReadIsRendered(from, to, parseOne, Written(s, from), s);
  }

  /** And so it is with the keywords of a SELECT in any case of letters. */
  lemma AnyCaseIsTranslated(to: Dialect, parseOne: string -> T.Parsed<Statement>, s: Statement, w: Words)
    requires to != MySql && s.Select? && ComesBack(s, MySql) && Spelled(w, s) && LeftToReaders(parseOne(TextIn(s, w, MySql)))
    ensures T.TranslateSQL(Between(MySql, to, parseOne), TextIn(s, w, MySql)) == T.Success(Rendered(s, MySql, to))
  {
    MySqlAnyCase(s, w);
    ReadIsRendered(MySql, to, parseOne, TextIn(s, w, MySql), s);
  }
}
