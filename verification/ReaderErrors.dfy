/**
 What the statement readers make of texts they cannot take apart: which are errors, which are kept as raw text, and
 what is lost (internal/syntax/mysql/parser.go:12-27, 77-169, 171-192, 266-302,
 internal/syntax/postgres/parser.go:12-27, 77-196, 244-276).
 */
module ReaderErrors {
  import opened Basics
  import opened Strings
  import opened Numerals
  import opened TopLevel
  import opened TopLevelLaws
  import opened Statements
  import opened Readers
  import opened DmlReaders
  import opened Normalizing
  import opened JoinReading
  import opened SelectReading
  import opened LetterCase
  import opened InsertTrip

  // ----- assignments

  /** A list of assignments is an error exactly when a part has no equals sign. */
  lemma {:induction false} AssignmentsFail(parts: seq<string>)
    ensures PairUp(parts).Failed? <==> exists i :: 0 <= i < |parts| && '=' !in parts[i]
  {
    if parts != [] {
      AssignmentsFail(parts[1..]);
      CutFails(parts[0]);
      assert forall i :: 0 < i < |parts| ==> parts[1..][i - 1] == parts[i];
      if '=' in parts[0] && exists i :: 0 <= i < |parts| && '=' !in parts[i] {
        var i :| 0 <= i < |parts| && '=' !in parts[i];
        assert '=' !in parts[1..][i - 1];
      }
    }
  }

  lemma CutFails(part: string)
    ensures CutEquals(part).Failed? <==> '=' !in part
  {
    EqualsFound(part);
  }

  lemma {:induction false} EqualsFound(s: string)
    ensures IndexOf(s, "=") >= 0 <==> '=' in s
  {
    if s != "" {
      EqualsFound(s[1..]);
      assert s[..1] == [s[0]];
    }
  }

  /** The first equals sign divides an assignment. */
  lemma CutAtFirst(a: string, b: string)
    requires '=' !in a
    ensures CutEquals(a + ("=" + b)) == Ok(Assignment(Trim(a), Trim(b)))
  {
    IndexSkip(a, "=" + b, "=");
    IndexHere("=", b);
    Halves(a, "=", b);
  }

  // ----- INSERT

  lemma {:induction false} NoneFound(s: string)
    requires '(' !in s
    ensures IndexOf(s, "(") < 0
  {
    if s != "" {
      assert s[..1] == [s[0]];
      NoneFound(s[1..]);
    }
  }

  /** Without a parenthesis the text stays raw. */
  lemma NoColumnsRaw(sql: string, body: string, d: Dialect)
    requires '(' !in body
    ensures InsertBody(sql, body, d) == Ok(Raw(sql))
  {
    NoneFound(body);
  }

  lemma {:induction false} NeverClosed(m: Mode, s: string)
    requires NeverOut(m, s)
    ensures Closing(m, s) < 0
    decreases |s|
  {
    if s != "" { NeverClosed(Step(m, s[0]), s[1..]); }
  }

  lemma OpenThere(q: string, rest: string)
    requires '(' !in q
    ensures IndexOf(q + ("(" + rest), "(") == |q|
  {
    IndexSkip(q, "(" + rest, "(");
    IndexHere("(", rest);
  }

  lemma NeverMatched(s: string, open: nat, t: string, rest: string)
    requires open < |s| && s[open..] == t && t == "(" + rest && NeverOut(INSIDE, rest)
    ensures MatchParen(s, open) < 0
  {
    assert t[0] == '(' && t[1..] == rest;
    NeverClosed(INSIDE, rest);
  }

  lemma OpenForever(q: string, rest: string)
    requires '(' !in q && NeverOut(INSIDE, rest)
    ensures IndexOf(q + ("(" + rest), "(") == |q| && MatchParen(q + ("(" + rest), |q|) < 0
  {
    var t := "(" + rest;
    OpenThere(q, rest);
    assert (q + t)[|q|..] == t;
    NeverMatched(q + t, |q|, t, rest);
  }

  /** A column list that is not closed is an error. */
  lemma OpenColumnsFail(sql: string, q: string, rest: string, d: Dialect)
    requires '(' !in q && NeverOut(INSIDE, rest)
    ensures InsertBody(sql, q + ("(" + rest), d) == Failed
  {
    OpenForever(q, rest);
  }

  /** Behind the column list, a text without VALUES stays raw. */
  lemma NoValuesRaw(sql: string, table: string, columns: seq<string>, after: string, d: Dialect)
    requires forall i: nat :: !Stands(after, i, VALUES)
    ensures InsertValues(sql, table, columns, after, d) == Ok(Raw(sql))
  {
    FoundExactly(after, VALUES, 0);
  }

  /** Values without parentheses, or with an open one, are an error. */
  lemma BadValuesFail(table: string, columns: seq<string>, q: string, rest: string, d: Dialect)
    requires '(' !in q
    ensures InsertList(table, columns, q, d) == Failed
    ensures NeverOut(INSIDE, rest) ==> InsertList(table, columns, q + ("(" + rest), d) == Failed
  {
    NoneFound(q);
    if NeverOut(INSIDE, rest) { OpenForever(q, rest); }
  }

  // ----- what follows the values

  predicate StartsWith(s: string, kw: string) { |kw| <= |s| && Alike(s[..|kw|], kw) }

  /** What is no upsert clause of the dialect is lost: a RETURNING, or the clause of the other dialect. */
  lemma OtherTailLost(rest: string, columns: seq<string>, d: Dialect)
    requires !StartsWith(rest, if d == Postgres then "ON CONFLICT " else "ON DUPLICATE KEY UPDATE ")
    ensures ReadUpsert(rest, columns, d) == Ok(None)
  {
    MatchesExactly(rest, ON_CONFLICT);
    MatchesExactly(rest, ON_DUPLICATE);
  }

  lemma OtherActionFails(action: string, targets: seq<string>)
    requires !StartsWith(action, "DO UPDATE SET ")
    ensures ActionGives(action, targets, Failed)
  {
    MatchesExactly(action, DO_UPDATE);
  }

  /** A conflict that is not answered by an update is an error: DO NOTHING. */
  lemma OtherActionsFail(names: string, action: string, columns: seq<string>)
    requires Closed(names) && Trimmed(action) && action != "" && !StartsWith(action, "DO UPDATE SET ")
    ensures ReadUpsert("ON CONFLICT " + ("(" + (names + (")" + (" " + action)))), columns, Postgres) == Failed
  {
    var body := "(" + (names + (")" + (" " + action)));
    OtherActionFails(action, OuterAll(Split(names)));
    ConflictIsRead(names, action, Failed);
    assert Looked(10, 0);
    var rest := ON_CONFLICT + body;
    assert rest[..|ON_CONFLICT|] == ON_CONFLICT && rest[|ON_CONFLICT|..] == body;
    AlikeItself(ON_CONFLICT);
    MatchesExactly(rest, ON_CONFLICT);
    assert body[|body| - 1] == action[|action| - 1];
    TrimTrimmed(body);
  }

  lemma NothingFails(names: string, columns: seq<string>)
    requires Closed(names)
    ensures ReadUpsert("ON CONFLICT " + ("(" + (names + (")" + (" " + "DO NOTHING")))), columns, Postgres) == Failed
  {
    assert |"DO NOTHING"| < |"DO UPDATE SET "|;
    OtherActionsFail(names, "DO NOTHING", columns);
  }

  /** And so is one without columns. */
  lemma NoTargetFails(rest: string, columns: seq<string>)
    requires StartsWith(rest, "ON CONFLICT ") && '(' !in rest
    ensures ReadUpsert(rest, columns, Postgres) == Failed
  {
    MatchesExactly(rest, ON_CONFLICT);
    var body := Trim(rest[|ON_CONFLICT|..]);
    TrimWithout(rest[|ON_CONFLICT|..], '(');
    NoneFound(body);
  }

  lemma TrimWithout(s: string, c: char)
    requires c !in s
    ensures c !in Trim(s)
  {
    TrimLeftIs(s);
    TrimRightIs(TrimLeft(s));
  }

  // ----- the choice of a reader

  /** A text that starts with none of the four words stays raw, a final semicolon included. */
  lemma OtherWordsRaw(sql: string, d: Dialect, select: string -> Outcome<Statement>)
    requires var t := Statementless(Trim(sql));
      !StartsWith(t, "SELECT ") && !StartsWith(t, "INSERT INTO ") && !StartsWith(t, "UPDATE ") && !StartsWith(t, "DELETE FROM ")
    ensures Parse(sql, d, select) == Ok(Raw(Trim(sql)))
  {
    var t := Statementless(Trim(sql));
    MatchesExactly(t, SELECT);
    MatchesExactly(t, INSERT_INTO);
    MatchesExactly(t, UPDATE);
    MatchesExactly(t, DELETE_FROM);
  }

  /** One semicolon behind a statement makes no difference. */
  lemma SemicolonDropped(t: string, d: Dialect, select: string -> Outcome<Statement>)
    requires Trim(t) == t && t != "" && t[|t| - 1] != ';'
    requires StartsWith(t, "SELECT ") || StartsWith(t, "INSERT INTO ") || StartsWith(t, "UPDATE ") || StartsWith(t, "DELETE FROM ")
    ensures Parse(t + ";", d, select) == Parse(t, d, select)
  {
    var u := t + ";";
    TrimIs(t);
    assert u[0] == t[0] && u[|u| - 1] == ';' && u[..|u| - 1] == t;
    TrimTrimmed(u);
    MatchesExactly(t, SELECT);
    MatchesExactly(t, INSERT_INTO);
    MatchesExactly(t, UPDATE);
    MatchesExactly(t, DELETE_FROM);
  }

  // ----- limits

  /** A limit that is no number is an error, and so is one of three numbers. */
  lemma BadLimitsFail(a: string, b: string, c: string)
    requires Piece(a) && Piece(b) && Piece(c) && a != "" && b != "" && c != ""
    ensures MySqlLimit(a + (", " + (b + (", " + c)))) == Failed
    ensures Atoi(a).None? ==> MySqlLimit(a) == Failed
    ensures Atoi(a).None? && IndexOf(Upper(a), OFFSET) < 0 ==> PostgresLimit(a) == Failed
  {
    var ps := [a, b, c];
    assert ps[1..] == [b, c] && ps[1..][1..] == [c];
    assert CommaList([c]) == c && CommaList([b, c]) == b + (", " + c);
    assert CommaList(ps) == a + (", " + (b + (", " + c)));
    SplitList(ps, "");
    TrimmedAround(b, ", ", c);
    TrimmedAround(a, ", ", b + (", " + c));
    TrimTrimmed(a);
    LastPiece(a, "");
  }
}
