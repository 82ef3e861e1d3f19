/**
 Reading INSERT, UPDATE and DELETE, which the two readers do alike but for the upsert clause, and the
 choice of a statement reader (internal/syntax/mysql/parser.go:12-27, 77-169, 266-302,
 internal/syntax/postgres/parser.go:12-27, 77-175, 244-276).
 */
module DmlReaders {
  import opened Basics
  import opened Strings
  import opened TopLevel
  import opened Statements
  import opened Readers

  const UPDATE := "UPDATE "
  const DELETE_FROM := "DELETE FROM "
  const INSERT_INTO := "INSERT INTO "
  const VALUES := "VALUES"
  const ON_DUPLICATE := "ON DUPLICATE KEY UPDATE "
  const ON_CONFLICT := "ON CONFLICT "
  const DO_UPDATE := "DO UPDATE SET "

  // ----- assignments

  function CutEquals(part: string): (r: Outcome<Assignment>)
    ensures !r.Panics?
  {
    var i := IndexOf(part, "=");
    IndexFits(part, "=");
    if i < 0 then Failed else Ok(Assignment(Trim(part[..i]), Trim(part[i + 1..])))
  }

  function PairUp(parts: seq<string>): (r: Outcome<seq<Assignment>>)
    ensures !r.Panics?
  {
    if parts == [] then Ok([])
    else
      match CutEquals(parts[0])
      case Ok(a) => (match PairUp(parts[1..]) case Ok(rest) => Ok([a] + rest) case _ => Failed)
      case _ => Failed
  }

  function ReadAssignments(input: string): Outcome<seq<Assignment>> { PairUp(Split(input)) }

  // ----- identifiers in column lists

  function DropLeading(s: string, c: char): string { if s != "" && s[0] == c then s[1..] else s }

  function DropTrailing(s: string, c: char): string { if s != "" && s[|s| - 1] == c then s[..|s| - 1] else s }

  /** One quote mark of each kind is taken off each end. */
  function Outer(s: string): string {
    DropTrailing(DropLeading(DropTrailing(DropLeading(Trim(s), '"'), '"'), '`'), '`')
  }

  function OuterAll(ns: seq<string>): (r: seq<string>)
    ensures |r| == |ns|
  {
    if ns == [] then [] else [Outer(ns[0])] + OuterAll(ns[1..])
  }

  // ----- statements

  function ReadUpdate(sql: string): Outcome<Statement>
    requires |sql| >= |UPDATE|
  {
    var body := Trim(sql[|UPDATE|..]);
    var at := Find(OUT, body, SET);
    if at < 0 then Ok(Raw(sql)) else UpdateFrom(Trim(body[..at]), body[at + |SET|..])
  }

  function UpdateFrom(table: string, after: string): Outcome<Statement> {
    var w := Find(OUT, after, WHERE);
    match ReadAssignments(if w >= 0 then after[..w] else after)
    case Ok(xs) => Ok(Update(table, xs, if w >= 0 then Trim(after[w + |WHERE|..]) else ""))
    case _ => Failed
  }

  function DeleteFrom(body: string): Statement {
    var w := Find(OUT, body, WHERE);
    if w < 0 then Delete(Trim(body), "") else Delete(Trim(body[..w]), Trim(body[w + |WHERE|..]))
  }

  function ReadDelete(sql: string): Outcome<Statement>
    requires |sql| >= |DELETE_FROM|
  {
    Ok(DeleteFrom(Trim(sql[|DELETE_FROM|..])))
  }

  /** What follows the parenthesised values. */
  function ReadUpsert(rest: string, columns: seq<string>, d: Dialect): Outcome<Option<Conflict>> {
    if d == Postgres then
      (if Matches(rest, ON_CONFLICT) then ReadConflict(Trim(rest[|ON_CONFLICT|..])) else Ok(None))
    else if Matches(rest, ON_DUPLICATE) then
      match ReadAssignments(rest[|ON_DUPLICATE|..])
      case Ok(xs) => Ok(Some(Conflict(MySqlStyle, columns[..if columns == [] then 0 else 1], xs)))
      case _ => Failed
    else Ok(None)
  }

  lemma MatchParenFits(s: string, open: int)
    ensures var r := MatchParen(s, open); r == -1 || 0 <= open < r < |s|
  {
    if 0 <= open < |s| && s[open] == '(' {
      assert s[open..][0] == '(';
      assert Step(OUT, '(') != OUT;
    }
  }

  function ReadConflict(body: string): Outcome<Option<Conflict>> {
    var open := IndexOf(body, "(");
    var close := MatchParen(body, open);
    MatchParenFits(body, open);
    if open < 0 || close < 0 then Failed
    else ReadAction(Trim(body[close + 1..]), OuterAll(Split(body[open + 1..close])))
  }

  /** What follows the targets. */
  function ReadAction(after: string, targets: seq<string>): Outcome<Option<Conflict>> {
    if !Matches(after, DO_UPDATE) then Failed
    else
      match ReadAssignments(after[|DO_UPDATE|..])
      case Ok(xs) => Ok(Some(Conflict(PostgresStyle, targets, xs)))
      case _ => Failed
  }

  function ReadInsert(sql: string, d: Dialect): Outcome<Statement>
    requires |sql| >= |INSERT_INTO|
  {
    InsertBody(sql, Trim(sql[|INSERT_INTO|..]), d)
  }

  function InsertBody(sql: string, body: string, d: Dialect): Outcome<Statement> {
    var open := IndexOf(body, "(");
    MatchParenFits(body, open);
    if open < 0 then Ok(Raw(sql)) else InsertBetween(sql, body, open, MatchParen(body, open), d)
  }

  function InsertBetween(sql: string, body: string, open: nat, close: int, d: Dialect): Outcome<Statement>
    requires close < 0 || open < close < |body|
  {
    if close < 0 then Failed else InsertColumns(sql, body, open, close, d)
  }

  /** The table before the column list, and what follows it. */
  function InsertColumns(sql: string, body: string, open: nat, close: nat, d: Dialect): Outcome<Statement>
    requires open < close < |body|
  {
    InsertValues(sql, Trim(body[..open]), OuterAll(Split(body[open + 1..close])), Trim(body[close + 1..]), d)
  }

  function InsertValues(sql: string, table: string, columns: seq<string>, after: string, d: Dialect): Outcome<Statement> {
    var at := Find(OUT, after, VALUES);
    if at < 0 then Ok(Raw(sql)) else InsertList(table, columns, Trim(after[at + |VALUES|..]), d)
  }

  function InsertList(table: string, columns: seq<string>, body: string, d: Dialect): Outcome<Statement> {
    var open := IndexOf(body, "(");
    IndexFits(body, "(");
    if open < 0 then Failed
    else
      var close := MatchParen(body, open);
      MatchParenFits(body, open);
      if close < 0 then Failed
      else
        var values, rest := Split(body[open + 1..close]), Trim(body[close + 1..]);
        if rest == "" then Ok(Insert(table, columns, values, None))
        else
          match ReadUpsert(rest, columns, d)
          case Ok(c) => Ok(Insert(table, columns, values, c))
          case _ => Failed
  }
}
