/**
 The statement renderers: builders that are appended to, and one placeholder counter
 (internal/render/render.go:27-47, 106-197).
 */
module Renderer {
  import opened Basics
  import opened Strings
  import opened Placeholders
  import opened Statements
  import opened Rendering

  /** A builder holds the text of the parts written so far, and the counter is where they left it. */
  ghost predicate Wrote(out: string, n: nat, done: seq<Part>, w: Writer, k: nat) {
    out == Text(done, w, k) && n == k + TextTaken(done, w)
  }

  lemma Nothing(w: Writer, k: nat)
    ensures Wrote("", k, [], w, k)
  {
  }

  lemma More(out: string, n: nat, done: seq<Part>, w: Writer, k: nat, text: string, n': nat, more: seq<Part>)
    requires Wrote(out, n, done, w, k) && Wrote(text, n', more, w, n)
    ensures Wrote(out + text, n', done + more, w, k)
  {
    TextAppend(done, more, w, k);
  }

  lemma FixedText(text: string, t: Treatment, n: nat)
    ensures Wrote(text, n, [Fixed(text)], WriterOf(t), n)
  {
    TextOne(Fixed(text), WriterOf(t), n);
  }

  lemma MoreFixed(out: string, n: nat, done: seq<Part>, t: Treatment, k: nat, text: string)
    requires Wrote(out, n, done, WriterOf(t), k)
    ensures Wrote(out + text, n, done + [Fixed(text)], WriterOf(t), k)
  {
    FixedText(text, t, n);
    More(out, n, done, WriterOf(t), k, text, n, [Fixed(text)]);
  }

  /** Writes one fragment. */
  method WriteFragment(input: string, from: Dialect, to: Dialect, st: RenderState) returns (r: string)
    modifies st
    ensures Wrote(r, st.placeholder, [Fragment(input)], WriterOf(TreatmentOf(from, to)), old(st.placeholder))
  {
    ghost var t := TreatmentOf(from, to);
    TextOne(Fragment(input), WriterOf(t), st.placeholder);
    r := RewriteRaw(input, from, to, st);
  }

  lemma CommaListSnoc(ps: seq<string>, p: string)
    ensures CommaList(ps + [p]) == if ps == [] then p else CommaList(ps) + ", " + p
  {
    if ps == [] {
      assert ps + [p] == [p];
    } else {
      var qs := ps + [p];
      assert qs[1..] == ps[1..] + [p];
      CommaListSnoc(ps[1..], p);
      if |ps| > 1 { Regrouped(ps[0], ", ", CommaList(ps[1..]), ", " + p, ", ", p); }
    }
  }

  lemma Regrouped(a: string, b: string, c: string, d: string, e: string, f: string)
    requires d == e + f
    ensures a + (b + (c + e + f)) == a + (b + c) + e + f
  {
  }

  method WriteItem(p: string, from: Dialect, to: Dialect, st: RenderState) returns (r: string)
    modifies st
    ensures Wrote(r, st.placeholder, FragmentParts(p), WriterOf(TreatmentOf(from, to)), old(st.placeholder))
  {
    r := WriteFragment(p, from, to, st);
  }

  /** Rewrites the pieces one after the other, then joins them. */
  method WriteList(ps: seq<string>, from: Dialect, to: Dialect, st: RenderState) returns (r: string)
    modifies st
    ensures Wrote(r, st.placeholder, ListParts(ps), WriterOf(TreatmentOf(from, to)), old(st.placeholder))
  {
    ghost var t := TreatmentOf(from, to);
    ghost var f := FragmentParts;
    ghost var k, w := st.placeholder, WriterOf(t);
    var parts: seq<string> := [];
    Nothing(w, k);
    for i := 0 to |ps|
      invariant |parts| == i
      invariant Wrote(CommaList(parts), st.placeholder, Separated(ps[..i], f, COMMA), w, k)
    {
      ghost var n, done := st.placeholder, Separated(ps[..i], f, COMMA);
      SeparatedNext(ps, i, f, COMMA);
      var part := WriteItem(ps[i], from, to, st);
      NextItem(CommaList(parts), n, done, t, k, part, st.placeholder, f(ps[i]), parts);
      parts := parts + [part];
    }
    assert ps[..|ps|] == ps;
    r := CommaList(parts);
  }

  lemma NextItem(out: string, n: nat, done: seq<Part>, t: Treatment, k: nat, part: string, n': nat, more: seq<Part>, parts: seq<string>)
    requires out == CommaList(parts) && (parts == [] ==> done == [])
    requires Wrote(out, n, done, WriterOf(t), k) && Wrote(part, n', more, WriterOf(t), n)
    ensures Wrote(CommaList(parts + [part]), n', if parts == [] then more else done + COMMA + more, WriterOf(t), k)
  {
    CommaListSnoc(parts, part);
    if parts != [] {
      MoreFixed(out, n, done, t, k, ", ");
      More(out + ", ", n, done + COMMA, WriterOf(t), k, part, n', more);
    } else {
      First(out, n, done, WriterOf(t), k, part, n', more);
    }
  }

  lemma First(out: string, n: nat, done: seq<Part>, w: Writer, k: nat, part: string, n': nat, more: seq<Part>)
    requires out == "" && done == [] && Wrote(out, n, done, w, k) && Wrote(part, n', more, w, n)
    ensures Wrote(part, n', more, w, k)
  {
  }

  /** Writes fixed words and a fragment after them. */
  method WritePair(head: string, input: string, from: Dialect, to: Dialect, st: RenderState) returns (r: string)
    modifies st
    ensures Wrote(r, st.placeholder, [Fixed(head), Fragment(input)], WriterOf(TreatmentOf(from, to)), old(st.placeholder))
  {
    ghost var t := TreatmentOf(from, to);
    ghost var k, w := st.placeholder, WriterOf(t);
    FixedText(head, t, k);
    var text := WriteFragment(input, from, to, st);
    More(head, k, [Fixed(head)], w, k, text, st.placeholder, [Fragment(input)]);
    assert [Fixed(head)] + [Fragment(input)] == [Fixed(head), Fragment(input)];
    r := head + text;
  }

  method WriteOn(on: string, from: Dialect, to: Dialect, st: RenderState) returns (r: string)
    modifies st
    ensures Wrote(r, st.placeholder, OnParts(on), WriterOf(TreatmentOf(from, to)), old(st.placeholder))
  {
    ghost var t := TreatmentOf(from, to);
    r := "";
    Nothing(WriterOf(t), st.placeholder);
    if on != "" { r := WritePair(" ON ", on, from, to, st); }
  }

  method WriteJoin(j: Join, from: Dialect, to: Dialect, st: RenderState) returns (r: string)
    modifies st
    ensures Wrote(r, st.placeholder, JoinParts(j), WriterOf(TreatmentOf(from, to)), old(st.placeholder))
  {
    ghost var t := TreatmentOf(from, to);
    ghost var k := st.placeholder;
    var head := " " + Trim(j.kind) + " ";
    r := WritePair(head, j.table, from, to, st);
    ghost var n := st.placeholder;
    var on := WriteOn(j.on, from, to, st);
    More(r, n, [Fixed(head), Fragment(j.table)], WriterOf(t), k, on, st.placeholder, OnParts(j.on));
    r := r + on;
  }

  method WriteJoins(js: seq<Join>, from: Dialect, to: Dialect, st: RenderState) returns (r: string)
    modifies st
    ensures Wrote(r, st.placeholder, JoinsParts(js), WriterOf(TreatmentOf(from, to)), old(st.placeholder))
  {
    ghost var t := TreatmentOf(from, to);
    ghost var k, w := st.placeholder, WriterOf(t);
    r := "";
    Nothing(w, k);
    for i := 0 to |js|
      invariant Wrote(r, st.placeholder, JoinsParts(js[..i]), w, k)
    {
      ghost var n := st.placeholder;
      JoinsPartsNext(js, i);
      var text := WriteJoin(js[i], from, to, st);
      More(r, n, JoinsParts(js[..i]), w, k, text, st.placeholder, JoinParts(js[i]));
      r := r + text;
    }
    assert js[..|js|] == js;
  }

  lemma JoinsPartsNext(js: seq<Join>, i: nat)
    requires i < |js|
    ensures JoinsParts(js[..i + 1]) == JoinsParts(js[..i]) + JoinParts(js[i])
  {
    SeparatedNext(js, i, JoinParts, []);
    var done := JoinsParts(js[..i]);
    assert done + [] == done;
    assert i == 0 ==> js[..i] == [];
  }

  method WriteWhere(where: string, from: Dialect, to: Dialect, st: RenderState) returns (r: string)
    modifies st
    ensures Wrote(r, st.placeholder, WhereParts(where), WriterOf(TreatmentOf(from, to)), old(st.placeholder))
  {
    ghost var t := TreatmentOf(from, to);
    r := "";
    Nothing(WriterOf(t), st.placeholder);
    if where != "" { r := WritePair(" WHERE ", where, from, to, st); }
  }

  method WriteOrder(orderBy: seq<string>, from: Dialect, to: Dialect, st: RenderState) returns (r: string)
    modifies st
    ensures Wrote(r, st.placeholder, OrderParts(orderBy), WriterOf(TreatmentOf(from, to)), old(st.placeholder))
  {
    ghost var t := TreatmentOf(from, to);
    ghost var k, w := st.placeholder, WriterOf(t);
    r := "";
    Nothing(w, k);
    if orderBy != [] {
      var text := WriteList(orderBy, from, to, st);
      FixedText(" ORDER BY ", t, k);
      More(" ORDER BY ", k, [Fixed(" ORDER BY ")], w, k, text, st.placeholder, ListParts(orderBy));
      r := " ORDER BY " + text;
    }
  }

  method RenderSelect(s: Statement, from: Dialect, to: Dialect, st: RenderState) returns (r: string)
    requires s.Select?
    modifies st
    ensures Wrote(r, st.placeholder, SelectParts(s, to), WriterOf(TreatmentOf(from, to)), old(st.placeholder))
  {
    ghost var t := TreatmentOf(from, to);
    ghost var k, w := st.placeholder, WriterOf(t);
    var columns := WriteList(s.columns, from, to, st);
    FixedText("SELECT ", t, k);
    More("SELECT ", k, [Fixed("SELECT ")], w, k, columns, st.placeholder, ListParts(s.columns));
    r := "SELECT " + columns;
    ghost var done := [Fixed("SELECT ")] + ListParts(s.columns);
    MoreFixed(r, st.placeholder, done, t, k, " FROM ");
    r, done := r + " FROM ", done + [Fixed(" FROM ")];

    ghost var n := st.placeholder;
    var source := WriteFragment(s.from, from, to, st);
    More(r, n, done, w, k, source, st.placeholder, [Fragment(s.from)]);
    r, done := r + source, done + [Fragment(s.from)];
    var rest := SelectTail(s, from, to, st, r, done, k);
    r := rest;
  }

  /** The joins and the clauses after them, appended to what was written. */
  method SelectTail(s: Statement, from: Dialect, to: Dialect, st: RenderState, out: string, ghost given: seq<Part>, ghost k: nat)
    returns (r: string)
    requires s.Select? && Wrote(out, st.placeholder, given, WriterOf(TreatmentOf(from, to)), k)
    modifies st
    ensures Wrote(r, st.placeholder,
                  given + JoinsParts(s.joins) + WhereParts(s.where) + OrderParts(s.orderBy) + [Fixed(LimitText(s.limit, to))],
                  WriterOf(TreatmentOf(from, to)), k)
  {
    ghost var t := TreatmentOf(from, to);
    ghost var w, done := WriterOf(t), given;
    r := out;
    ghost var n := st.placeholder;
    var joins := WriteJoins(s.joins, from, to, st);
    More(r, n, done, w, k, joins, st.placeholder, JoinsParts(s.joins));
    r, done := r + joins, done + JoinsParts(s.joins);

    n := st.placeholder;
    var where := WriteWhere(s.where, from, to, st);
    More(r, n, done, w, k, where, st.placeholder, WhereParts(s.where));
    r, done := r + where, done + WhereParts(s.where);

    n := st.placeholder;
    var order := WriteOrder(s.orderBy, from, to, st);
    More(r, n, done, w, k, order, st.placeholder, OrderParts(s.orderBy));
    r, done := r + order, done + OrderParts(s.orderBy);

    MoreFixed(r, st.placeholder, done, t, k, LimitText(s.limit, to));
    r := r + LimitText(s.limit, to);
  }

  lemma MappedStep(done: seq<string>, ns: seq<string>, i: nat, g: string -> string)
    requires i < |ns|
    ensures done + Mapped(ns[i..], g) == done + [g(ns[i])] + Mapped(ns[i + 1..], g)
  {
    var rest := ns[i..];
    assert rest[1..] == ns[i + 1..];
  }

  method QuoteOne(n: string, to: Dialect) returns (r: string)
    ensures r == Quoter(QuoteMark(to))(n)
  {
    r := QuoteIdentifierChain(n, to);
  }

  method QuoteAll(ns: seq<string>, to: Dialect) returns (r: seq<string>)
    ensures r == QuotedAll(ns, QuoteMark(to))
  {
    r := [];
    ghost var g := Quoter(QuoteMark(to));
    assert ns[0..] == ns;
    for i := 0 to |ns|
      invariant r + Mapped(ns[i..], g) == Mapped(ns, g)
    {
      MappedStep(r, ns, i, g);
      var name := QuoteOne(ns[i], to);
      r := r + [name];
    }
    assert ns[|ns|..] == [];
  }

  method RenderInsert(s: Statement, from: Dialect, to: Dialect, st: RenderState) returns (r: string)
    requires s.Insert?
    modifies st
    ensures Wrote(r, st.placeholder, InsertParts(s, to), WriterOf(TreatmentOf(from, to)), old(st.placeholder))
  {
    ghost var t := TreatmentOf(from, to);
    ghost var k, w := st.placeholder, WriterOf(t);
    r := "INSERT INTO ";
    var table := QuoteIdentifierChain(s.table, to);
    r := r + table;
    r := r + " (";
    var columns := QuoteAll(s.columns, to);
    r := r + CommaList(columns);
    r := r + ") VALUES (";
    ghost var head := r;
    assert head == InsertHead(s, to);
    FixedText(head, t, k);
    var values := WriteList(s.values, from, to, st);
    More(r, k, [Fixed(head)], w, k, values, st.placeholder, ListParts(s.values));
    r := r + values;
    MoreFixed(r, st.placeholder, [Fixed(head)] + ListParts(s.values), t, k, ")" + ConflictText(s.conflict, to));
    r := r + (")" + ConflictText(s.conflict, to));
  }

  method WriteAssignment(x: Assignment, from: Dialect, to: Dialect, st: RenderState) returns (r: string)
    modifies st
    ensures Wrote(r, st.placeholder, AssigningParts(QuoteMark(to))(x), WriterOf(TreatmentOf(from, to)), old(st.placeholder))
  {
    var column := QuoteIdentifierChain(x.column, to);
    r := WritePair(column + " = ", x.value, from, to, st);
  }

  method WriteAssignments(xs: seq<Assignment>, from: Dialect, to: Dialect, st: RenderState) returns (r: string)
    modifies st
    ensures Wrote(r, st.placeholder, AssignmentsParts(xs, QuoteMark(to)), WriterOf(TreatmentOf(from, to)), old(st.placeholder))
  {
    ghost var t := TreatmentOf(from, to);
    ghost var f := AssigningParts(QuoteMark(to));
    ghost var k, w := st.placeholder, WriterOf(t);
    var parts: seq<string> := [];
    Nothing(w, k);
    for i := 0 to |xs|
      invariant |parts| == i
      invariant Wrote(CommaList(parts), st.placeholder, Separated(xs[..i], f, COMMA), w, k)
    {
      ghost var n, done := st.placeholder, Separated(xs[..i], f, COMMA);
      SeparatedNext(xs, i, f, COMMA);
      var part := WriteAssignment(xs[i], from, to, st);
      NextItem(CommaList(parts), n, done, t, k, part, st.placeholder, f(xs[i]), parts);
      parts := parts + [part];
    }
    assert xs[..|xs|] == xs;
    r := CommaList(parts);
  }

  method RenderUpdate(s: Statement, from: Dialect, to: Dialect, st: RenderState) returns (r: string)
    requires s.Update?
    modifies st
    ensures Wrote(r, st.placeholder, UpdateParts(s, to), WriterOf(TreatmentOf(from, to)), old(st.placeholder))
  {
    ghost var t := TreatmentOf(from, to);
    ghost var k, w := st.placeholder, WriterOf(t);
    var table := QuoteIdentifierChain(s.table, to);
    r := "UPDATE " + table + " SET ";
    ghost var head := r;
    FixedText(head, t, k);
    var assignments := WriteAssignments(s.assignments, from, to, st);
    ghost var body := AssignmentsParts(s.assignments, QuoteMark(to));
    More(r, k, [Fixed(head)], w, k, assignments, st.placeholder, body);
    r := r + assignments;
    ghost var n := st.placeholder;
    var where := WriteWhere(s.where, from, to, st);
    More(r, n, [Fixed(head)] + body, w, k, where, st.placeholder, WhereParts(s.where));
    r := r + where;
  }

  method RenderDelete(s: Statement, from: Dialect, to: Dialect, st: RenderState) returns (r: string)
    requires s.Delete?
    modifies st
    ensures Wrote(r, st.placeholder, DeleteParts(s, to), WriterOf(TreatmentOf(from, to)), old(st.placeholder))
  {
    ghost var t := TreatmentOf(from, to);
    ghost var k, w := st.placeholder, WriterOf(t);
    var table := QuoteIdentifierChain(s.table, to);
    r := "DELETE FROM " + table;
    ghost var head := r;
    FixedText(head, t, k);
    var where := WriteWhere(s.where, from, to, st);
    More(r, k, [Fixed(head)], w, k, where, st.placeholder, WhereParts(s.where));
    r := r + where;
  }

  method RenderStatement(s: Statement, from: Dialect, to: Dialect, st: RenderState) returns (r: string)
    modifies st
    ensures Wrote(r, st.placeholder, Parts(s, to), WriterOf(TreatmentOf(from, to)), old(st.placeholder))
  {
    match s
    case Raw(sql) => r := WriteFragment(sql, from, to, st);
    case Select(_, _, _, _, _, _) => r := RenderSelect(s, from, to, st);
    case Insert(_, _, _, _) => r := RenderInsert(s, from, to, st);
    case Update(_, _, _) => r := RenderUpdate(s, from, to, st);
    case Delete(_, _) => r := RenderDelete(s, from, to, st);
  }

  // ----- batches

  predicate Blank(s: string) { Trim(s) == "" }

  function PartsFor(to: Dialect): Statement -> seq<Part> { s => Parts(s, to) }

  /** A blank text is dropped. */
  function Keeper(): string -> seq<string> { x => if Blank(x) then [] else [x] }

  /** The texts of the statements; `parts` gives the parts of one, `keep` drops blank texts. */
  function BatchTexts(ss: seq<Statement>, parts: Statement -> seq<Part>, keep: string -> seq<string>, w: Writer, k: nat): seq<string> {
    if ss == [] then []
    else keep(Text(parts(ss[0]), w, k)) + BatchTexts(ss[1..], parts, keep, w, k + TextTaken(parts(ss[0]), w))
  }

  /** The statements with "; " between them. */
  function Sequenced(texts: seq<string>): string {
    if texts == [] then "" else if |texts| == 1 then texts[0] else texts[0] + ("; " + Sequenced(texts[1..]))
  }

  lemma BatchStep(done: seq<string>, ss: seq<Statement>, i: nat, parts: Statement -> seq<Part>, keep: string -> seq<string>,
                  w: Writer, k: nat)
    requires i < |ss|
    ensures done + BatchTexts(ss[i..], parts, keep, w, k)
         == done + keep(Text(parts(ss[i]), w, k)) + BatchTexts(ss[i + 1..], parts, keep, w, k + TextTaken(parts(ss[i]), w))
  {
    var rest := ss[i..];
    assert rest[1..] == ss[i + 1..] && rest[0] == ss[i];
  }

  /** The functions a batch is written with. They are looked into only where Asked(0) is asserted. */
  ghost predicate Setup(f: Statement -> seq<Part>, keep: string -> seq<string>, w: Writer, to: Dialect, t: Treatment) {
    forall i {:trigger Asked(i)} :: Asked(i) ==> f == PartsFor(to) && keep == Keeper() && w == WriterOf(t)
  }

  method RenderOne(s: Statement, from: Dialect, to: Dialect, st: RenderState,
                   ghost f: Statement -> seq<Part>, ghost keep: string -> seq<string>, ghost w: Writer)
    returns (r: string, blank: bool)
    requires Setup(f, keep, w, to, TreatmentOf(from, to))
    modifies st
    ensures Wrote(r, st.placeholder, f(s), w, old(st.placeholder))
    ensures keep(r) == if blank then [] else [r]
  {
    assert Asked(0);
    r := RenderStatement(s, from, to, st);
    blank := Trim(r) == "";
  }

  /** The text of a batch. */
  function BatchText(ss: seq<Statement>, to: Dialect, t: Treatment): string {
    Sequenced(BatchTexts(ss, PartsFor(to), Keeper(), WriterOf(t), 0))
  }

  lemma TwoTexts(a: Statement, b: Statement, f: Statement -> seq<Part>, keep: string -> seq<string>, w: Writer)
    ensures BatchTexts([a, b], f, keep, w, 0) == keep(Text(f(a), w, 0)) + keep(Text(f(b), w, TextTaken(f(a), w)))
  {
    var k := TextTaken(f(a), w);
    assert [a, b][1..] == [b] && [b][1..] == [];
    var second := keep(Text(f(b), w, k));
    assert BatchTexts([b], f, keep, w, k) == second + [] == second;
  }

  lemma TwoSequenced(x: string, y: string)
    ensures Sequenced([x] + [y]) == x + ("; " + y) && Sequenced([x]) == x && Sequenced([]) == ""
  {
    assert ([x] + [y])[1..] == [y];
  }

  /** Two statements, the second one numbered on from the first, with a semicolon and a blank between them unless one of
      them is blank. */
  lemma BatchPair(a: Statement, b: Statement, to: Dialect, t: Treatment)
    ensures var w := WriterOf(t);
      var x, y := Text(Parts(a, to), w, 0), Text(Parts(b, to), w, TextTaken(Parts(a, to), w));
      BatchText([a, b], to, t) == if Trim(x) == "" then (if Trim(y) == "" then "" else y)
                                  else if Trim(y) == "" then x else x + ("; " + y)
  {
    var w := WriterOf(t);
    var x, y := Text(Parts(a, to), w, 0), Text(Parts(b, to), w, TextTaken(Parts(a, to), w));
    TwoTexts(a, b, PartsFor(to), Keeper(), w);
    TwoSequenced(x, y);
    TwoSequenced(y, x);
    BothKept(x, y);
  }

  lemma BothKept(x: string, y: string)
    ensures var kept := Keeper()(x) + Keeper()(y);
      && (Trim(x) != "" && Trim(y) != "" ==> kept == [x] + [y])
      && (Trim(x) == "" && Trim(y) != "" ==> kept == [y])
      && (Trim(x) != "" && Trim(y) == "" ==> kept == [x])
      && (Trim(x) == "" && Trim(y) == "" ==> kept == [])
  {
  }

  lemma EachStep(texts: seq<string>, ss: seq<Statement>, i: nat, f: Statement -> seq<Part>, keep: string -> seq<string>,
                 w: Writer, k: nat, r: string, n: nat, blank: bool)
    requires i < |ss| && Wrote(r, n, f(ss[i]), w, k) && keep(r) == if blank then [] else [r]
    ensures texts + BatchTexts(ss[i..], f, keep, w, k)
         == (if blank then texts else texts + [r]) + BatchTexts(ss[i + 1..], f, keep, w, n)
  {
    BatchStep(texts, ss, i, f, keep, w, k);
    assert blank ==> texts + [] == texts;
  }

  method RenderEach(ss: seq<Statement>, from: Dialect, to: Dialect, st: RenderState,
                    ghost f: Statement -> seq<Part>, ghost keep: string -> seq<string>, ghost w: Writer)
    returns (texts: seq<string>)
    requires Setup(f, keep, w, to, TreatmentOf(from, to))
    modifies st
    ensures texts == BatchTexts(ss, f, keep, w, old(st.placeholder))
  {
    texts := [];
    assert ss[0..] == ss;
    ghost var want := BatchTexts(ss, f, keep, w, st.placeholder);
    for i := 0 to |ss|
      invariant texts + BatchTexts(ss[i..], f, keep, w, st.placeholder) == want
    {
      ghost var k := st.placeholder;
      var rendered, blank := RenderOne(ss[i], from, to, st, f, keep, w);
      EachStep(texts, ss, i, f, keep, w, k, rendered, st.placeholder, blank);
      if blank { continue; }
      texts := texts + [rendered];
    }
    assert ss[|ss|..] == [];
  }

  /** One counter serves the whole batch; statements that come out blank are dropped. */
  method RenderBatch(ss: seq<Statement>, from: Dialect, to: Dialect) returns (r: string)
    ensures r == BatchText(ss, to, TreatmentOf(from, to))
  {
    ghost var t := TreatmentOf(from, to);
    var st := new RenderState();
    var texts := RenderEach(ss, from, to, st, PartsFor(to), Keeper(), WriterOf(t));
    r := Sequenced(texts);
  }
}
