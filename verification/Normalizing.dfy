/**
 From syntax nodes to normalised statements (internal/normalize/normalize.go:11-95), and the choice of
 a statement reader by the first words (internal/syntax/postgres/parser.go:12-27,
 internal/syntax/mysql/parser.go:12-27).
 */
module Normalizing {
  import opened Basics
  import opened Strings
  import opened TopLevel
  import opened Statements
  import opened Readers
  import opened DmlReaders
  import opened MySqlJoins

  function NormalJoins(js: seq<Join>): (r: seq<Join>)
    ensures |r| == |js| && forall i :: 0 <= i < |js| ==> r[i] == Join(Trim(js[i].kind), Trim(js[i].table), Trim(js[i].on))
  {
    if js == [] then []
    else NormalJoins(js[..|js| - 1]) + [Join(Trim(js[|js| - 1].kind), Trim(js[|js| - 1].table), Trim(js[|js| - 1].on))]
  }

  function NormalAssignments(xs: seq<Assignment>): (r: seq<Assignment>)
    ensures |r| == |xs| && forall i :: 0 <= i < |xs| ==> r[i] == Assignment(Bare(xs[i].column), Trim(xs[i].value))
  {
    if xs == [] then []
    else NormalAssignments(xs[..|xs| - 1]) + [Assignment(Bare(xs[|xs| - 1].column), Trim(xs[|xs| - 1].value))]
  }

  function NormalConflict(c: Option<Conflict>): Option<Conflict> {
    match c case None => None case Some(x) => Some(Conflict(x.style, x.targets, NormalAssignments(x.assignments)))
  }

  function Normal(s: Statement): Statement {
    match s
    case Raw(sql) => Raw(sql)
    case Select(columns, from, joins, where, orderBy, limit) =>
      Select(columns, Trim(from), NormalJoins(joins), Trim(where), orderBy, limit)
    case Insert(table, columns, values, conflict) => Insert(Bare(table), columns, values, NormalConflict(conflict))
    case Update(table, assignments, where) => Update(Bare(table), NormalAssignments(assignments), Trim(where))
    case Delete(table, where) => Delete(Bare(table), Trim(where))
  }

  method NormalizeAssignments(xs: seq<Assignment>) returns (r: seq<Assignment>)
    ensures r == NormalAssignments(xs)
  {
    r := [];
    assert xs[..0] == [];
    for i := 0 to |xs|
      invariant r == NormalAssignments(xs[..i])
    {
      assert xs[..i + 1][..i] == xs[..i];
      var column := StripIdentifier(xs[i].column);
      r := r + [Assignment(column, Trim(xs[i].value))];
    }
    assert xs[..|xs|] == xs;
  }

  method NormalizeJoins(js: seq<Join>) returns (r: seq<Join>)
    ensures r == NormalJoins(js)
  {
    r := [];
    assert js[..0] == [];
    for i := 0 to |js|
      invariant r == NormalJoins(js[..i])
    {
      assert js[..i + 1][..i] == js[..i];
      r := r + [Join(Trim(js[i].kind), Trim(js[i].table), Trim(js[i].on))];
    }
    assert js[..|js|] == js;
  }

  method Normalize(s: Statement) returns (r: Statement)
    ensures r == Normal(s)
  {
    match s
    case Raw(_) => r := s;
    case Select(columns, from, joins, where, orderBy, limit) =>
      var normal := NormalizeJoins(joins);
      r := Select(columns, Trim(from), normal, Trim(where), orderBy, limit);
    case Insert(table, columns, values, conflict) =>
      var bare := StripIdentifier(table);
      if conflict.Some? {
        var xs := NormalizeAssignments(conflict.value.assignments);
        r := Insert(bare, columns, values, Some(Conflict(conflict.value.style, conflict.value.targets, xs)));
      } else {
        r := Insert(bare, columns, values, None);
      }
    case Update(table, assignments, where) =>
      var bare := StripIdentifier(table);
      var xs := NormalizeAssignments(assignments);
      r := Update(bare, xs, Trim(where));
    case Delete(table, where) =>
      var bare := StripIdentifier(table);
      r := Delete(bare, Trim(where));
  }

  /** The reader of a statement: `select` reads a SELECT. */
  function Parse(sql: string, d: Dialect, select: string -> Outcome<Statement>): Outcome<Statement> {
    var t := Statementless(Trim(sql));
    if Matches(t, SELECT) then select(t)
    else if Matches(t, INSERT_INTO) then ReadInsert(t, d)
    else if Matches(t, UPDATE) then ReadUpdate(t)
    else if Matches(t, DELETE_FROM) then ReadDelete(t)
    else Ok(Raw(Trim(sql)))
  }

  function PostgresReader(): string -> Outcome<Statement> {
    t => if |t| >= |SELECT| then PostgresSelect(t) else Failed
  }

  function MySqlReader(): string -> Outcome<Statement> {
    t => if |t| >= |SELECT| then MySqlSelect(t) else Failed
  }

  function ReaderFor(d: Dialect): string -> Outcome<Statement> {
    if d == Postgres then PostgresReader() else MySqlReader()
  }

  /** Parsed and normalised. */
  function Recovered(sql: string, d: Dialect, select: string -> Outcome<Statement>): Outcome<Statement> {
    match Parse(sql, d, select) case Ok(s) => Ok(Normal(s)) case Failed => Failed case Panics => Panics
  }

  /** What a text is read as. (Looked into only where Asked(0) is asserted.) */
  ghost predicate ParseGives(t: string, d: Dialect, select: string -> Outcome<Statement>, r: Outcome<Statement>) {
    forall z {:trigger Asked(z)} :: Asked(z) ==> Parse(t, d, select) == r
  }

  lemma NormalGiven(t: string, d: Dialect, select: string -> Outcome<Statement>, s: Statement, n: Statement)
    requires ParseGives(t, d, select, Ok(s)) && Normal(s) == n
    ensures Recovered(t, d, select) == Ok(n)
  {
    assert Asked(0);
  }

  lemma FailureGiven(t: string, d: Dialect, select: string -> Outcome<Statement>)
    requires ParseGives(t, d, select, Failed)
    ensures Recovered(t, d, select) == Failed
  {
    assert Asked(0);
  }
}
