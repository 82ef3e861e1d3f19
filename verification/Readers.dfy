/**
 What the two statement readers do (internal/syntax/postgres/parser.go:12-75, 177-268,
 internal/syntax/mysql/parser.go:171-192), as functions of the text.
 */
module Readers {
  import opened Basics
  import opened Strings
  import opened Numerals
  import opened TopLevel
  import opened Statements

  /** A reader answers, returns an error, or slices beyond its bounds. */
  datatype Outcome<+T> = Ok(value: T) | Failed | Panics

  const FROM := " FROM "
  const WHERE := " WHERE "
  const ORDER_BY := " ORDER BY "
  const LIMIT := " LIMIT "
  const OFFSET := " OFFSET "
  const ON := " ON "
  const SET := " SET "
  const LEFT_JOIN := " LEFT JOIN "
  const INNER_JOIN := " INNER JOIN "
  const JOIN := " JOIN "

  function DropSemicolon(s: string): string {
    if s != "" && s[|s| - 1] == ';' then s[..|s| - 1] else s
  }

  function Statementless(sql: string): string { Trim(DropSemicolon(Trim(sql))) }

  // ----- joins

  function Earlier(a: int, kwA: string, b: int, kwB: string): (int, string) {
    if b >= 0 && (a < 0 || b < a) then (b, kwB) else (a, kwA)
  }

  /** The first join keyword, and where it is. */
  function FindJoin(s: string): (int, string) {
    var first := Earlier(-1, "", Find(OUT, s, LEFT_JOIN), LEFT_JOIN);
    var second := Earlier(first.0, first.1, Find(OUT, s, INNER_JOIN), INNER_JOIN);
    Earlier(second.0, second.1, Find(OUT, s, JOIN), JOIN)
  }

  lemma FindJoinFits(s: string)
    ensures var r := FindJoin(s); -1 <= r.0 && (r.0 >= 0 ==> |r.1| >= 6 && r.0 + |r.1| <= |s|)
  {
  }

  function DropPrefix(s: string, p: string): string {
    if p <= s then s[|p|..] else s
  }

  /** What one round of the PostgreSQL reader's loop finds. */
  datatype JoinRead = Stop | Last(join: Join) | More(join: Join, rest: string)

  function OnAt(keyword: string, table: string, afterOn: string, next: int): JoinRead
    requires next <= |afterOn|
  {
    if next < 0 then Last(Join(keyword, table, Trim(afterOn)))
    else More(Join(keyword, table, Trim(afterOn[..next])), Trim(afterOn[next..]))
  }

  function ReadOn(keyword: string, table: string, afterOn: string): JoinRead {
    FindJoinFits(" " + afterOn);
    OnAt(keyword, table, afterOn, FindJoin(" " + afterOn).0)
  }

  function TableAt(keyword: string, rest: string, on: int): JoinRead
    requires on < 0 || on + |ON| <= |rest|
  {
    if on < 0 then Stop else ReadOn(keyword, Trim(rest[..on]), Trim(rest[on + |ON|..]))
  }

  function ReadTable(keyword: string, rest: string): JoinRead {
    TableAt(keyword, rest, Find(OUT, rest, ON))
  }

  function ReadJoin(remainder: string): JoinRead {
    var keyword := Trim(FindJoin(" " + remainder).1);
    ReadTable(keyword, Trim(DropPrefix(remainder, keyword)))
  }

  lemma OnAtShortens(keyword: string, table: string, afterOn: string, next: int)
    requires next <= |afterOn|
    ensures var r := OnAt(keyword, table, afterOn, next); r.More? ==> |r.rest| <= |afterOn|
  {
    if next >= 0 { TrimIs(afterOn[next..]); }
  }

  lemma ReadOnShortens(keyword: string, table: string, afterOn: string)
    ensures var r := ReadOn(keyword, table, afterOn); r.More? ==> |r.rest| <= |afterOn|
  {
    FindJoinFits(" " + afterOn);
    OnAtShortens(keyword, table, afterOn, FindJoin(" " + afterOn).0);
  }

  lemma TableAtShortens(keyword: string, rest: string, on: int)
    requires on < 0 || on + |ON| <= |rest|
    ensures var r := TableAt(keyword, rest, on); r.More? ==> |r.rest| < |rest|
  {
    if on >= 0 {
      var tail := rest[on + |ON|..];
      TrimIs(tail);
      ReadOnShortens(keyword, Trim(rest[..on]), Trim(tail));
    }
  }

  lemma ReadTableShortens(keyword: string, rest: string)
    ensures var r := ReadTable(keyword, rest); r.More? ==> |r.rest| < |rest|
  {
    TableAtShortens(keyword, rest, Find(OUT, rest, ON));
  }

  lemma DroppedShortens(remainder: string, keyword: string)
    ensures var r := ReadTable(keyword, Trim(DropPrefix(remainder, keyword))); r.More? ==> |r.rest| < |remainder|
  {
    var dropped := DropPrefix(remainder, keyword);
    TrimIs(dropped);
    ReadTableShortens(keyword, Trim(dropped));
  }

  lemma ReadJoinShortens(remainder: string)
    ensures var r := ReadJoin(remainder); r.More? ==> |r.rest| < |remainder|
  {
    DroppedShortens(remainder, Trim(FindJoin(" " + remainder).1));
  }

  /** The joins of the PostgreSQL reader, from the first join keyword on. */
  function JoinsFrom(remainder: string): seq<Join>
    decreases |remainder|
  {
    if remainder == "" then []
    else
      ReadJoinShortens(remainder);
      match ReadJoin(remainder)
      case Stop => []
      case Last(j) => [j]
      case More(j, rest) => [j] + JoinsFrom(rest)
  }

  function FromAndJoins(input: string): (string, seq<Join>) {
    var base := Trim(input);
    var i := FindJoin(base).0;
    FindJoinFits(base);
    if i < 0 then (base, []) else (Trim(base[..i]), JoinsFrom(Trim(base[i..])))
  }

  // ----- clauses

  function Earliest(a: int, b: int, c: int): int {
    var ab := if a >= 0 then (if b >= 0 && b < a then b else a) else b;
    if ab >= 0 then (if c >= 0 && c < ab then c else ab) else c
  }

  /** The first occurrence of a text that is not searched with quotes and parentheses in mind. */
  function IndexOf(s: string, t: string): (r: int)
    ensures -1 <= r <= |s|
  {
    if |s| < |t| then -1 else if s[..|t|] == t then 0 else if s == "" then -1 else Shift(1, IndexOf(s[1..], t))
  }

  lemma IndexFits(s: string, t: string)
    ensures IndexOf(s, t) >= 0 ==> IndexOf(s, t) + |t| <= |s|
  {
    if |s| >= |t| && s[..|t|] != t && s != "" { IndexFits(s[1..], t); }
  }

  function ReadNumber(s: string): Outcome<int> {
    match Atoi(Trim(s)) case Some(n) => Ok(n) case None => Failed
  }

  /** " OFFSET " is looked for in the trimmed upper-case text, and used in the text as it is. */
  function PostgresLimit(input: string): Outcome<Limit> {
    var i := IndexOf(Upper(Trim(input)), OFFSET);
    IndexFits(Upper(Trim(input)), OFFSET);
    TrimIs(input);
    if i < 0 then
      (match ReadNumber(input) case Ok(n) => Ok(Limit(None, n)) case _ => Failed)
    else
      match ReadNumber(input[..i])
      case Ok(n) => (match ReadNumber(input[i + |OFFSET|..]) case Ok(m) => Ok(Limit(Some(m), n)) case _ => Failed)
      case _ => Failed
  }

  function MySqlLimit(input: string): Outcome<Limit> {
    var parts := Split(Trim(input));
    if |parts| == 1 then
      (match ReadNumber(parts[0]) case Ok(n) => Ok(Limit(None, n)) case _ => Failed)
    else if |parts| == 2 then
      match ReadNumber(parts[0])
      case Ok(m) => (match ReadNumber(parts[1]) case Ok(n) => Ok(Limit(Some(m), n)) case _ => Failed)
      case _ => Failed
    else Failed
  }

  /** Where the clause that starts at `start` ends: at the first later one of two positions. */
  function ClauseEnd(start: int, a: int, b: int, end: int): int {
    var first := if a > start && a < end then a else end;
    if b > start && b < first then b else first
  }

  function Slice(s: string, i: int, j: int): Outcome<string> {
    if 0 <= i <= j <= |s| then Ok(s[i..j]) else Panics
  }

  function WhereOf(after: string, w: int, o: int, l: int): Outcome<string> {
    if w < 0 then Ok("")
    else
      match Slice(after, w + |WHERE|, ClauseEnd(w, o, l, |after|))
      case Ok(t) => Ok(Trim(t))
      case _ => Panics
  }

  function OrderOf(after: string, o: int, l: int): Outcome<seq<string>> {
    if o < 0 then Ok([])
    else
      match Slice(after, o + |ORDER_BY|, if l > o then l else |after|)
      case Ok(t) => Ok(Split(t))
      case _ => Panics
  }

  function PostgresLimitOf(after: string, l: int): Outcome<Option<Limit>>
    requires l < 0 || l + |LIMIT| <= |after|
  {
    if l < 0 then Ok(None)
    else match PostgresLimit(after[l + |LIMIT|..]) case Ok(x) => Ok(Some(x)) case _ => Failed
  }

  /** The clauses that are sliced out, then the limit, of which the two readers have their own reading. */
  function Assembled(columns: seq<string>, from: (string, seq<Join>), after: string, w: int, o: int, l: int,
                     limit: Outcome<Option<Limit>>): Outcome<Statement>
  {
    match WhereOf(after, w, o, l)
    case Ok(where) =>
      (match OrderOf(after, o, l)
       case Ok(order) =>
         (match limit
          case Ok(x) => Ok(Select(columns, from.0, from.1, where, order, x))
          case _ => Failed)
       case _ => Panics)
    case _ => Panics
  }

  /** What stands before the first of the clauses. */
  function FromPart(after: string, w: int, o: int, l: int): string
    requires Earliest(w, o, l) <= |after|
  {
    if Earliest(w, o, l) < 0 then after else after[..Earliest(w, o, l)]
  }

  /** The clauses after FROM, when the keywords are at w, o and l. */
  function PostgresClausesAt(columns: seq<string>, after: string, w: int, o: int, l: int): Outcome<Statement>
    requires Earliest(w, o, l) <= |after| && (l < 0 || l + |LIMIT| <= |after|)
  {
    Assembled(columns, FromAndJoins(FromPart(after, w, o, l)), after, w, o, l, PostgresLimitOf(after, l))
  }

  function PostgresClauses(columns: seq<string>, after: string): Outcome<Statement> {
    PostgresClausesAt(columns, after, Find(OUT, after, WHERE), Find(OUT, after, ORDER_BY), Find(OUT, after, LIMIT))
  }

  const SELECT := "SELECT "

  function PostgresSelect(sql: string): Outcome<Statement>
    requires |sql| >= |SELECT|
  {
    var body := Trim(sql[|SELECT|..]);
    var from := Find(OUT, body, FROM);
    if from < 0 then Ok(Raw(sql)) else PostgresClauses(Split(body[..from]), body[from + |FROM|..])
  }
}
