/**
 Writing statements in a dialect, with one placeholder counter for everything that is written
 (internal/render/render.go:23-47, 106-197, 1107-1162, 1164-1197).
 */
module Rendering {
  import opened Basics
  import opened Strings
  import opened Numerals
  import opened Placeholders
  import opened Rewriting
  import opened Statements

  /** What happens to the fragments: kept, rewritten, or rewritten and numbered. */
  datatype Treatment =
    | Keep
    | Rewrite(f: string -> string)
    | Number(f: string -> string, mark: char)

  /** What happens between two dialects. */
  function TreatmentOf(from: Dialect, to: Dialect): Treatment {
    if from == to then Keep
    else if from == MySql then
      var f := (s: string) => FromMySql(s, to);
      if to == Postgres then Number(f, '$') else if to == Oracle then Number(f, ':') else Rewrite(f)
    else if from == Postgres then Rewrite((s: string) => FromPostgres(s, to))
    else Keep
  }

  /** A fragment before numbering. */
  function Rewritten(input: string, t: Treatment): string {
    if t.Keep? then Trim(input) else t.f(Trim(input))
  }

  function Treated(input: string, t: Treatment, k: nat): string {
    if t.Number? then Numbered(Rewritten(input, t), k, t.mark) else Rewritten(input, t)
  }

  function Taken(input: string, t: Treatment): nat {
    if t.Number? then Questions(Rewritten(input, t)) else 0
  }

  /** What happens to a fragment between two dialects, when numbers up to k are taken. */
  lemma TreatedExactly(input: string, from: Dialect, to: Dialect, k: nat)
    ensures var t := TreatmentOf(from, to); var output := Treated(input, t, k);
      && (from == to || from == Sqlite || from == Oracle ==> output == Trim(input))
      && (from == MySql && to == Postgres ==> output == Numbered(FromMySql(Trim(input), to), k, '$'))
      && (from == MySql && to == Oracle ==> output == Numbered(FromMySql(Trim(input), to), k, ':'))
      && (from == MySql && to == Sqlite ==> output == FromMySql(Trim(input), to))
      && (from == Postgres && to != Postgres ==> output == FromPostgres(Trim(input), to))
      && Taken(input, t) == if from == MySql && (to == Postgres || to == Oracle) then Questions(FromMySql(Trim(input), to)) else 0
  {
  }

  method RewriteRaw(input: string, from: Dialect, to: Dialect, st: RenderState) returns (output: string)
    modifies st
    ensures output == Treated(input, TreatmentOf(from, to), old(st.placeholder))
    ensures st.placeholder == old(st.placeholder) + Taken(input, TreatmentOf(from, to))
  {
    output := Trim(input);
    if from == to { return; }
    if from == MySql {
      output := RewriteMySql(output, to);
      if to == Postgres || to == Oracle {
        output := ReplaceQuestionPlaceholders(output, if to == Postgres then '$' else ':', st);
      }
    } else if from == Postgres {
      output := RewritePostgres(output, to);
    }
  }

  /** The patterns of MySQL text, one after the other. */
  method RewriteMySql(input: string, to: Dialect) returns (output: string)
    ensures output == FromMySql(input, to)
  {
    output := Requoted(input, '`', to);
    output := Unintroduced(output);
    output := Replaced(output, NOW, STAMP);
    output := Replaced(output, STAMP_CALL, STAMP);
    output := Replaced(output, KEY, KEY_SPACED);
    output := OffsetLast(output, to);
  }

  method RewritePostgres(input: string, to: Dialect) returns (output: string)
    ensures output == FromPostgres(input, to)
  {
    output := Requoted(input, '"', to);
    output := Liked(output);
    if to == MySql || to == Sqlite {
      output := Unnumbered(output, '$');
    }
  }

  // ----- a text as fixed words and fragments

  datatype Part = Fixed(text: string) | Fragment(text: string)

  function PartText(p: Part, t: Treatment, k: nat): string {
    if p.Fixed? then p.text else Treated(p.text, t, k)
  }

  function PartTaken(p: Part, t: Treatment): nat {
    if p.Fixed? then 0 else Taken(p.text, t)
  }

  /** A way to write one part, the numbers up to k being taken, and how many it takes. */
  datatype Writer = Writer(text: (Part, nat) -> string, taken: Part -> nat)

  function WriterOf(t: Treatment): Writer {
    Writer((p: Part, k: nat) => PartText(p, t, k), (p: Part) => PartTaken(p, t))
  }

  /** The parts in order, the fragments numbered on from k. */
  function Text(ps: seq<Part>, w: Writer, k: nat): string {
    if ps == [] then "" else w.text(ps[0], k) + Text(ps[1..], w, k + w.taken(ps[0]))
  }

  function TextTaken(ps: seq<Part>, w: Writer): nat {
    if ps == [] then 0 else w.taken(ps[0]) + TextTaken(ps[1..], w)
  }

  lemma {:induction false} TextAppend(a: seq<Part>, b: seq<Part>, w: Writer, k: nat)
    ensures Text(a + b, w, k) == Text(a, w, k) + Text(b, w, k + TextTaken(a, w))
    ensures TextTaken(a + b, w) == TextTaken(a, w) + TextTaken(b, w)
  {
    if a == [] {
      assert a + b == b;
    } else {
      var c := a + b;
      assert c[1..] == a[1..] + b && c[0] == a[0];
      var k' := k + w.taken(a[0]);
      TextAppend(a[1..], b, w, k');
      Assoc(w.text(a[0], k), Text(a[1..], w, k'), Text(b, w, k' + TextTaken(a[1..], w)));
    }
  }

  lemma TextOne(p: Part, w: Writer, k: nat)
    ensures Text([p], w, k) == w.text(p, k) && TextTaken([p], w) == w.taken(p)
  {
    assert [p][1..] == [];
    assert w.text(p, k) + "" == w.text(p, k);
  }

  // ----- the parts of a statement

  /** The parts of each item in turn, `sep` between items. */
  function Separated<T>(xs: seq<T>, f: T -> seq<Part>, sep: seq<Part>): seq<Part> {
    if xs == [] then [] else if |xs| == 1 then f(xs[0]) else f(xs[0]) + sep + Separated(xs[1..], f, sep)
  }

  lemma PartsAssoc(a: seq<Part>, b: seq<Part>, c: seq<Part>, d: seq<Part>, e: seq<Part>)
    ensures a + b + (c + d + e) == a + b + c + d + e
  {
  }

  lemma {:induction false} SeparatedSnoc<T>(xs: seq<T>, x: T, f: T -> seq<Part>, sep: seq<Part>)
    ensures Separated(xs + [x], f, sep) == if xs == [] then f(x) else Separated(xs, f, sep) + sep + f(x)
  {
    var l := xs + [x];
    if xs == [] {
      assert l == [x];
    } else {
      assert l[1..] == xs[1..] + [x];
      SeparatedSnoc(xs[1..], x, f, sep);
      if |xs| > 1 { PartsAssoc(f(xs[0]), sep, Separated(xs[1..], f, sep), sep, f(x)); }
    }
  }

  lemma SeparatedNext<T>(xs: seq<T>, i: nat, f: T -> seq<Part>, sep: seq<Part>)
    requires i < |xs|
    ensures Separated(xs[..i + 1], f, sep) == if i == 0 then f(xs[0]) else Separated(xs[..i], f, sep) + sep + f(xs[i])
  {
    assert xs[..i + 1] == xs[..i] + [xs[i]];
    SeparatedSnoc(xs[..i], xs[i], f, sep);
  }

  const COMMA: seq<Part> := [Fixed(", ")]

  function FragmentParts(p: string): seq<Part> { [Fragment(p)] }

  function ListParts(ps: seq<string>): seq<Part> { Separated(ps, FragmentParts, COMMA) }

  function OnParts(on: string): seq<Part> {
    if on != "" then [Fixed(" ON "), Fragment(on)] else []
  }

  function JoinParts(j: Join): seq<Part> {
    [Fixed(" " + Trim(j.kind) + " "), Fragment(j.table)] + OnParts(j.on)
  }

  function JoinsParts(js: seq<Join>): seq<Part> { Separated(js, JoinParts, []) }

  function WhereParts(where: string): seq<Part> {
    if where != "" then [Fixed(" WHERE "), Fragment(where)] else []
  }

  function OrderParts(orderBy: seq<string>): seq<Part> {
    if orderBy != [] then [Fixed(" ORDER BY ")] + ListParts(orderBy) else []
  }

  function LimitText(limit: Option<Limit>, to: Dialect): string {
    match limit
    case None => ""
    case Some(l) =>
      match to
      case Postgres =>
        " LIMIT " + Itoa(l.count) + if l.offset.Some? then " OFFSET " + Itoa(l.offset.value) else ""
      case Oracle =>
        if l.offset.Some?
        then " OFFSET " + Itoa(l.offset.value) + " ROWS FETCH NEXT " + Itoa(l.count) + " ROWS ONLY"
        else " FETCH FIRST " + Itoa(l.count) + " ROWS ONLY"
      case _ =>
        if l.offset.Some? then " LIMIT " + Itoa(l.offset.value) + ", " + Itoa(l.count) else " LIMIT " + Itoa(l.count)
  }

  function Mapped(ns: seq<string>, g: string -> string): seq<string> {
    if ns == [] then [] else [g(ns[0])] + Mapped(ns[1..], g)
  }

  function Quoter(q: char): string -> string { n => Quoted(n, q) }

  function QuotedAll(ns: seq<string>, q: char): seq<string> { Mapped(ns, Quoter(q)) }

  function AssignmentParts(a: Assignment, q: char): seq<Part> {
    [Fixed(Quoted(a.column, q) + " = "), Fragment(a.value)]
  }

  function AssigningParts(q: char): Assignment -> seq<Part> { a => AssignmentParts(a, q) }

  function AssignmentsParts(xs: seq<Assignment>, q: char): seq<Part> { Separated(xs, AssigningParts(q), COMMA) }

  function UpsertList(xs: seq<Assignment>, to: Dialect): (r: seq<string>)
    ensures |r| == |xs|
  {
    if xs == [] then []
    else
      var c := Quoted(xs[0].column, QuoteMark(to));
      [if to == MySql then c + " = VALUES(" + c + ")"
       else if to == Sqlite then c + " = excluded." + c
       else c + " = EXCLUDED." + c] + UpsertList(xs[1..], to)
  }

  function ConflictText(conflict: Option<Conflict>, to: Dialect): string {
    match conflict
    case None => ""
    case Some(c) =>
      var updates := CommaList(UpsertList(c.assignments, to));
      if to == MySql then " ON DUPLICATE KEY UPDATE " + updates
      else if to == Oracle then ""
      else " ON CONFLICT (" + CommaList(QuotedAll(c.targets, QuoteMark(to))) + ") DO UPDATE SET " + updates
  }

  /** What an upsert sets a column to, by dialect; Oracle writes no upsert. */
  lemma {:induction false} UpsertItem(xs: seq<Assignment>, to: Dialect, i: nat)
    requires i < |xs|
    ensures var c := Quoted(xs[i].column, QuoteMark(to)); var text := UpsertList(xs, to)[i];
      && (to == MySql ==> text == c + " = VALUES(" + c + ")")
      && (to == Postgres ==> text == c + " = EXCLUDED." + c)
      && (to == Sqlite ==> text == c + " = excluded." + c)
  {
    if i > 0 { UpsertItem(xs[1..], to, i - 1); }
  }

  /** The clauses around the list. */
  lemma UpsertClause(c: Conflict, to: Dialect)
    ensures var list, names := CommaList(UpsertList(c.assignments, to)), CommaList(QuotedAll(c.targets, QuoteMark(to)));
      && (to == MySql ==> ConflictText(Some(c), to) == " ON DUPLICATE KEY UPDATE " + list)
      && (to == Oracle ==> ConflictText(Some(c), to) == "")
      && (to == Postgres || to == Sqlite ==> ConflictText(Some(c), to) == " ON CONFLICT (" + names + ") DO UPDATE SET " + list)
      && ConflictText(None, to) == ""
  {
  }

  /** SQLite writes a limit like MySQL. */
  lemma SqliteLimit(limit: Option<Limit>)
    ensures LimitText(limit, Sqlite) == LimitText(limit, MySql)
  {
  }

  /** The renderer never writes the value of an upsert assignment: other values give the same text. */
  lemma {:induction false} UpsertForgets(xs: seq<Assignment>, ys: seq<Assignment>, to: Dialect)
    requires |xs| == |ys| && forall i :: 0 <= i < |xs| ==> xs[i].column == ys[i].column
    ensures UpsertList(xs, to) == UpsertList(ys, to)
  {
    if xs != [] { UpsertForgets(xs[1..], ys[1..], to); }
  }

  function SelectParts(s: Statement, to: Dialect): seq<Part>
    requires s.Select?
  {
    [Fixed("SELECT ")] + ListParts(s.columns) + [Fixed(" FROM ")] + [Fragment(s.from)] + JoinsParts(s.joins)
      + WhereParts(s.where) + OrderParts(s.orderBy) + [Fixed(LimitText(s.limit, to))]
  }

  function InsertHead(s: Statement, to: Dialect): string
    requires s.Insert?
  {
    var q := QuoteMark(to);
    "INSERT INTO " + Quoted(s.table, q) + " (" + CommaList(QuotedAll(s.columns, q)) + ") VALUES ("
  }

  function InsertParts(s: Statement, to: Dialect): seq<Part>
    requires s.Insert?
  {
    [Fixed(InsertHead(s, to))] + ListParts(s.values) + [Fixed(")" + ConflictText(s.conflict, to))]
  }

  function UpdateParts(s: Statement, to: Dialect): seq<Part>
    requires s.Update?
  {
    var q := QuoteMark(to);
    [Fixed("UPDATE " + Quoted(s.table, q) + " SET ")] + AssignmentsParts(s.assignments, q) + WhereParts(s.where)
  }

  function DeleteParts(s: Statement, to: Dialect): seq<Part>
    requires s.Delete?
  {
    [Fixed("DELETE FROM " + Quoted(s.table, QuoteMark(to)))] + WhereParts(s.where)
  }

  function Parts(s: Statement, to: Dialect): seq<Part> {
    match s
    case Raw(sql) => [Fragment(sql)]
    case Select(_, _, _, _, _, _) => SelectParts(s, to)
    case Insert(_, _, _, _) => InsertParts(s, to)
    case Update(_, _, _) => UpdateParts(s, to)
    case Delete(_, _) => DeleteParts(s, to)
  }

  /** So two INSERTs that differ in the values, or the style, of an upsert only are written the same in every dialect. */
  lemma UpsertsAlike(s: Statement, t: Statement, to: Dialect)
    requires s.Insert? && t.Insert? && s.(conflict := None) == t.(conflict := None) && s.conflict.Some? && t.conflict.Some?
    requires var c, d := s.conflict.value, t.conflict.value;
      c.targets == d.targets && |c.assignments| == |d.assignments|
      && forall i :: 0 <= i < |c.assignments| ==> c.assignments[i].column == d.assignments[i].column
    ensures Parts(s, to) == Parts(t, to)
  {
    UpsertForgets(s.conflict.value.assignments, t.conflict.value.assignments, to);
  }
}
