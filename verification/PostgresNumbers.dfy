/**
 PostgreSQL statements written for a dialect that binds by position: every number becomes a question
 mark, in the finished text as in the fragments, and the arguments are passed on as they are
 (internal/render/render.go:27-47, 1185-1197).
 */
module PostgresNumbers {
  import opened Basics
  import opened Strings
  import opened Numerals
  import opened Placeholders
  import opened Rewriting
  import opened Statements
  import opened Rendering
  import opened Renderer
  import opened RenderNumbers

  const DOLLAR: char := '$'

  predicate ByPosition(to: Dialect) { to == MySql || to == Sqlite }

  /** The treatment without its last step, which replaces the numbers. */
  function Numbering(to: Dialect): Treatment { Rewrite((s: string) => PostgresPatterns(s, to)) }

  // ----- replacing numbers piece by piece

  lemma {:induction false} RunStaysShort(a: string, b: string)
    requires b != "" ==> !IsDigit(b[0])
    ensures DigitRun(a + b) == DigitRun(a)
  {
    if a == "" {
      assert a + b == b;
    } else {
      assert (a + b)[1..] == a[1..] + b;
      RunStaysShort(a[1..], b);
    }
  }

  /** The first step through a text: what it writes, and where it goes on. */
  function First(a: string, mark: char): string
    requires a != ""
  {
    if OpensNumber(a, mark) then "?" else [a[0]]
  }

  function Onward(a: string, mark: char): (rest: string)
    requires a != ""
    ensures |rest| < |a|
  {
    if OpensNumber(a, mark) then a[1 + DigitRun(a[1..])..] else a[1..]
  }

  lemma Stepwise(a: string, mark: char)
    requires a != ""
    ensures Unnumbered(a, mark) == First(a, mark) + Unnumbered(Onward(a, mark), mark)
  {
  }

  lemma FirstOfBoth(a: string, b: string, mark: char)
    requires a != "" && (b != "" ==> !IsDigit(b[0]))
    ensures First(a + b, mark) == First(a, mark) && Onward(a + b, mark) == Onward(a, mark) + b
  {
    var t, r := a + b, DigitRun(a[1..]);
    assert t[0] == a[0] && t[1..] == a[1..] + b;
    if |a| > 1 { assert t[1] == a[1]; } else { assert b != "" ==> t[1] == b[0]; }
    assert OpensNumber(t, mark) <==> OpensNumber(a, mark);
    RunStaysShort(a[1..], b);
    assert t[1 + r..] == a[1 + r..] + b;
  }

  /** No number reaches into a text that does not start with a digit. */
  lemma {:induction false} UnnumberedAppend(a: string, b: string, mark: char)
    requires b != "" ==> !IsDigit(b[0])
    ensures Unnumbered(a + b, mark) == Unnumbered(a, mark) + Unnumbered(b, mark)
    decreases |a|
  {
    if a == "" {
      assert a + b == b;
    } else {
      FirstOfBoth(a, b, mark);
      Stepwise(a, mark);
      Stepwise(a + b, mark);
      UnnumberedAppend(Onward(a, mark), b, mark);
      Assoc(First(a, mark), Unnumbered(Onward(a, mark), mark), Unnumbered(b, mark));
    }
  }

  /** And none starts in a text without the mark. */
  lemma {:induction false} UnmarkedStays(a: string, b: string, mark: char)
    requires mark !in a
    ensures Unnumbered(a + b, mark) == a + Unnumbered(b, mark)
  {
    if a == "" {
      assert a + b == b;
    } else {
      assert (a + b)[1..] == a[1..] + b;
      UnmarkedStays(a[1..], b, mark);
    }
  }

  lemma {:induction false} SpaceUnnumbered(s: string, mark: char)
    requires !IsSpace(mark)
    ensures AllSpace(Unnumbered(s, mark)) <==> AllSpace(s)
    decreases |s|
  {
    if s != "" {
      assert s == [s[0]] + s[1..];
      SpaceCons(s[0], s[1..]);
      if OpensNumber(s, mark) {
        SpaceCons('?', Unnumbered(s[1 + DigitRun(s[1..])..], mark));
      } else {
        SpaceUnnumbered(s[1..], mark);
        SpaceCons(s[0], Unnumbered(s[1..], mark));
      }
    }
  }

  lemma BlankUnnumbered(s: string, mark: char)
    requires !IsSpace(mark)
    ensures Blank(Unnumbered(s, mark)) <==> Blank(s)
  {
    SpaceUnnumbered(s, mark);
    BlankIsSpace(s);
    BlankIsSpace(Unnumbered(s, mark));
  }

  // ----- where a fragment ends, no digit follows

  /** The parts are written as a text that does not start with a digit. */
  predicate OpensPlain(ps: seq<Part>) {
    ps == [] || (ps[0].Fixed? && if ps[0].text == "" then OpensPlain(ps[1..]) else !IsDigit(ps[0].text[0]))
  }

  predicate Seams(ps: seq<Part>) {
    ps == [] || ((ps[0].Fragment? ==> OpensPlain(ps[1..])) && Seams(ps[1..]))
  }

  lemma {:induction false} OpensAppend(a: seq<Part>, b: seq<Part>)
    requires OpensPlain(a) && OpensPlain(b)
    ensures OpensPlain(a + b)
  {
    if a == [] {
      assert a + b == b;
    } else {
      assert (a + b)[1..] == a[1..] + b;
      if a[0].text == "" { OpensAppend(a[1..], b); }
    }
  }

  lemma {:induction false} SeamsAppend(a: seq<Part>, b: seq<Part>)
    requires Seams(a) && Seams(b) && OpensPlain(b)
    ensures Seams(a + b)
  {
    if a == [] {
      assert a + b == b;
    } else {
      assert (a + b)[1..] == a[1..] + b;
      SeamsAppend(a[1..], b);
      if a[0].Fragment? { OpensAppend(a[1..], b); }
    }
  }

  lemma BothAppend(a: seq<Part>, b: seq<Part>)
    requires Seams(a) && OpensPlain(a) && Seams(b) && OpensPlain(b)
    ensures Seams(a + b) && OpensPlain(a + b)
  {
    SeamsAppend(a, b);
    OpensAppend(a, b);
  }

  lemma FixedThen(t: string, ps: seq<Part>)
    requires Seams(ps)
    ensures Seams([Fixed(t)] + ps) && (t != "" && !IsDigit(t[0]) ==> OpensPlain([Fixed(t)] + ps))
  {
    assert ([Fixed(t)] + ps)[1..] == ps;
  }

  lemma FragmentSeams(t: string)
    ensures Seams([Fragment(t)])
  {
    assert [Fragment(t)][1..] == [];
  }

  /** Every item of a list keeps the seams. */
  ghost predicate ItemSeams<T(!new)>(f: T -> seq<Part>) { forall x :: Seams(f(x)) }

  lemma {:induction false} ListSeams<T(!new)>(xs: seq<T>, f: T -> seq<Part>)
    requires ItemSeams(f)
    ensures Seams(Separated(xs, f, COMMA))
  {
    if |xs| > 1 {
      var rest := Separated(xs[1..], f, COMMA);
      ListSeams(xs[1..], f);
      FixedThen(", ", rest);
      SeamsAppend(f(xs[0]), COMMA + rest);
      assert f(xs[0]) + (COMMA + rest) == f(xs[0]) + COMMA + rest;
    }
  }

  lemma FragmentListSeams(ps: seq<string>)
    ensures Seams(ListParts(ps))
  {
    forall p ensures Seams(FragmentParts(p)) { FragmentSeams(p); }
    ListSeams(ps, FragmentParts);
  }

  lemma OneJoinSeams(j: Join)
    ensures Seams(JoinParts(j)) && OpensPlain(JoinParts(j))
  {
    var head := " " + Trim(j.kind) + " ";
    FragmentSeams(j.table);
    FragmentSeams(j.on);
    FixedThen(" ON ", [Fragment(j.on)]);
    assert [Fixed(" ON "), Fragment(j.on)] == [Fixed(" ON ")] + [Fragment(j.on)];
    assert OpensPlain(OnParts(j.on)) && Seams(OnParts(j.on));
    SeamsAppend([Fragment(j.table)], OnParts(j.on));
    FixedThen(head, [Fragment(j.table)] + OnParts(j.on));
    assert JoinParts(j) == [Fixed(head)] + ([Fragment(j.table)] + OnParts(j.on));
  }

  lemma {:induction false} JoinSeams(js: seq<Join>)
    ensures Seams(JoinsParts(js)) && OpensPlain(JoinsParts(js))
  {
    if js != [] {
      OneJoinSeams(js[0]);
      if |js| > 1 {
        JoinSeams(js[1..]);
        BothAppend(JoinParts(js[0]), JoinsParts(js[1..]));
        assert JoinParts(js[0]) + [] == JoinParts(js[0]);
      }
    }
  }

  lemma WhereSeams(where: string)
    ensures Seams(WhereParts(where)) && OpensPlain(WhereParts(where))
  {
    FragmentSeams(where);
    FixedThen(" WHERE ", [Fragment(where)]);
    assert [Fixed(" WHERE "), Fragment(where)] == [Fixed(" WHERE ")] + [Fragment(where)];
  }

  lemma OrderSeams(orderBy: seq<string>)
    ensures Seams(OrderParts(orderBy)) && OpensPlain(OrderParts(orderBy))
  {
    FragmentListSeams(orderBy);
    FixedThen(" ORDER BY ", ListParts(orderBy));
  }

  lemma LastSeams(t: string)
    requires t != "" ==> !IsDigit(t[0])
    ensures Seams([Fixed(t)]) && OpensPlain([Fixed(t)])
  {
    assert [Fixed(t)] + [] == [Fixed(t)] && [Fixed(t)][1..] == [];
    FixedThen(t, []);
  }

  lemma ClauseSeams(js: seq<Join>, where: string, orderBy: seq<string>, limit: string)
    requires limit != "" ==> !IsDigit(limit[0])
    ensures var t := JoinsParts(js) + (WhereParts(where) + (OrderParts(orderBy) + [Fixed(limit)])); Seams(t) && OpensPlain(t)
  {
    LastSeams(limit);
    OrderSeams(orderBy);
    BothAppend(OrderParts(orderBy), [Fixed(limit)]);
    WhereSeams(where);
    BothAppend(WhereParts(where), OrderParts(orderBy) + [Fixed(limit)]);
    JoinSeams(js);
    BothAppend(JoinsParts(js), WhereParts(where) + (OrderParts(orderBy) + [Fixed(limit)]));
  }

  lemma HeadSeams(columns: seq<string>, from: string, rest: seq<Part>)
    requires Seams(rest) && OpensPlain(rest)
    ensures Seams([Fixed("SELECT ")] + (ListParts(columns) + ([Fixed(" FROM ")] + ([Fragment(from)] + rest))))
  {
    FragmentSeams(from);
    SeamsAppend([Fragment(from)], rest);
    FixedThen(" FROM ", [Fragment(from)] + rest);
    FragmentListSeams(columns);
    SeamsAppend(ListParts(columns), [Fixed(" FROM ")] + ([Fragment(from)] + rest));
    FixedThen("SELECT ", ListParts(columns) + ([Fixed(" FROM ")] + ([Fragment(from)] + rest)));
  }

  lemma EightAssoc(a: seq<Part>, b: seq<Part>, c: seq<Part>, d: seq<Part>, e: seq<Part>, f: seq<Part>, g: seq<Part>, h: seq<Part>)
    ensures a + b + c + d + e + f + g + h == a + (b + (c + (d + (e + (f + (g + h))))))
  {
  }

  lemma SelectSeams(s: Statement, to: Dialect)
    requires s.Select?
    ensures Seams(SelectParts(s, to))
  {
    var last := [Fixed(LimitText(s.limit, to))];
    ClauseSeams(s.joins, s.where, s.orderBy, LimitText(s.limit, to));
    HeadSeams(s.columns, s.from, JoinsParts(s.joins) + (WhereParts(s.where) + (OrderParts(s.orderBy) + last)));
    EightAssoc([Fixed("SELECT ")], ListParts(s.columns), [Fixed(" FROM ")], [Fragment(s.from)], JoinsParts(s.joins),
               WhereParts(s.where), OrderParts(s.orderBy), last);
  }

  lemma InsertSeams(s: Statement, to: Dialect)
    requires s.Insert?
    ensures Seams(InsertParts(s, to))
  {
    var last := ")" + ConflictText(s.conflict, to);
    LastSeams(last);
    FragmentListSeams(s.values);
    SeamsAppend(ListParts(s.values), [Fixed(last)]);
    FixedThen(InsertHead(s, to), ListParts(s.values) + [Fixed(last)]);
    assert InsertParts(s, to) == [Fixed(InsertHead(s, to))] + (ListParts(s.values) + [Fixed(last)]);
  }

  lemma AssignmentSeams(xs: seq<Assignment>, q: char)
    ensures Seams(AssignmentsParts(xs, q))
  {
    forall a ensures Seams(AssigningParts(q)(a)) {
      FragmentSeams(a.value);
      var head := Quoted(a.column, q) + " = ";
      FixedThen(head, [Fragment(a.value)]);
      assert AssigningParts(q)(a) == [Fixed(head)] + [Fragment(a.value)];
    }
    ListSeams(xs, AssigningParts(q));
  }

  lemma UpdateSeams(s: Statement, to: Dialect)
    requires s.Update?
    ensures Seams(UpdateParts(s, to))
  {
    var q := QuoteMark(to);
    var head := "UPDATE " + Quoted(s.table, q) + " SET ";
    WhereSeams(s.where);
    AssignmentSeams(s.assignments, q);
    SeamsAppend(AssignmentsParts(s.assignments, q), WhereParts(s.where));
    FixedThen(head, AssignmentsParts(s.assignments, q) + WhereParts(s.where));
    assert UpdateParts(s, to) == [Fixed(head)] + (AssignmentsParts(s.assignments, q) + WhereParts(s.where));
  }

  /** In no statement does the renderer write a digit next to the end of a fragment. */
  lemma StatementSeams(s: Statement, to: Dialect)
    ensures Seams(Parts(s, to))
  {
    match s
    case Raw(sql) => FragmentSeams(sql);
    case Select(_, _, _, _, _, _) => SelectSeams(s, to);
    case Insert(_, _, _, _) => InsertSeams(s, to);
    case Update(_, _, _) => UpdateSeams(s, to);
    case Delete(_, _) =>
      WhereSeams(s.where);
      FixedThen("DELETE FROM " + Quoted(s.table, QuoteMark(to)), WhereParts(s.where));
  }

  // ----- statements and batches

  /** The words the renderer writes itself hold no dollar sign. */
  predicate NoDollars(ps: seq<Part>) {
    forall i :: 0 <= i < |ps| && ps[i].Fixed? ==> DOLLAR !in ps[i].text
  }

  function Unnumberer(): string -> string { x => Unnumbered(x, DOLLAR) }

  function Positional(to: Dialect): Writer { WriterOf(TreatmentOf(Postgres, to)) }

  function WithNumbers(to: Dialect): Writer { WriterOf(Numbering(to)) }

  /** Fixed words are written as they are. */
  ghost predicate KeepsWords(w: Writer) {
    forall p: Part, k {:trigger w.text(p, k)} :: p.Fixed? ==> w.text(p, k) == p.text
  }

  lemma {:induction false} OpensText(ps: seq<Part>, w: Writer, k: nat)
    requires OpensPlain(ps) && KeepsWords(w)
    ensures Text(ps, w, k) != "" ==> !IsDigit(Text(ps, w, k)[0])
  {
    if ps != [] {
      var rest := Text(ps[1..], w, k + w.taken(ps[0]));
      assert w.text(ps[0], k) == ps[0].text;
      if ps[0].text == "" {
        OpensText(ps[1..], w, k + w.taken(ps[0]));
        assert "" + rest == rest;
      }
    }
  }

  /** Nothing before `rest` reaches into it. */
  predicate Apart(p: Part, rest: string) {
    if p.Fixed? then DOLLAR !in p.text else rest != "" ==> !IsDigit(rest[0])
  }

  /** Part by part, one writer replaces the numbers that the other leaves. */
  ghost predicate PartsAlike(w: Writer, g: Writer, h: string -> string) {
    forall p, rest, k, l {:trigger w.text(p, k), h(g.text(p, l) + rest)} ::
      Apart(p, rest) ==> h(g.text(p, l) + rest) == w.text(p, k) + h(rest)
  }

  lemma WritersAlike(to: Dialect)
    requires ByPosition(to)
    ensures PartsAlike(Positional(to), WithNumbers(to), Unnumberer()) && KeepsWords(WithNumbers(to))
  {
    var w, g, h := Positional(to), WithNumbers(to), Unnumberer();
    forall p, rest, k, l {:trigger w.text(p, k), h(g.text(p, l) + rest)} | Apart(p, rest)
      ensures h(g.text(p, l) + rest) == w.text(p, k) + h(rest)
    {
      PartUnnumbered(p, rest, to, k, l);
    }
  }

  lemma PartUnnumbered(p: Part, rest: string, to: Dialect, k: nat, l: nat)
    requires ByPosition(to) && Apart(p, rest)
    ensures Unnumbered(WithNumbers(to).text(p, l) + rest, DOLLAR) == Positional(to).text(p, k) + Unnumbered(rest, DOLLAR)
  {
    if p.Fixed? {
      UnmarkedStays(p.text, rest, DOLLAR);
    } else {
      UnnumberedAppend(PostgresPatterns(Trim(p.text), to), rest, DOLLAR);
    }
  }

  lemma TailFits(ps: seq<Part>)
    requires ps != [] && Seams(ps) && NoDollars(ps)
    ensures Seams(ps[1..]) && NoDollars(ps[1..])
    ensures if ps[0].Fixed? then DOLLAR !in ps[0].text else OpensPlain(ps[1..])
  {
  }

  lemma {:induction false} TextUnnumbered(ps: seq<Part>, w: Writer, g: Writer, h: string -> string, k: nat, l: nat)
    requires Seams(ps) && NoDollars(ps) && PartsAlike(w, g, h) && KeepsWords(g) && h("") == ""
    ensures Text(ps, w, k) == h(Text(ps, g, l))
  {
    if ps != [] {
      var k', l' := k + w.taken(ps[0]), l + g.taken(ps[0]);
      TailFits(ps);
      TextUnnumbered(ps[1..], w, g, h, k', l');
      if ps[0].Fragment? { OpensText(ps[1..], g, l'); }
      PartAt(ps[0], Text(ps[1..], g, l'), w, g, h, k, l);
    }
  }

  lemma PartAt(p: Part, rest: string, w: Writer, g: Writer, h: string -> string, k: nat, l: nat)
    requires PartsAlike(w, g, h) && Apart(p, rest)
    ensures h(g.text(p, l) + rest) == w.text(p, k) + h(rest)
  {
  }

  /** The texts before and after the last step. (Looked into only where Asked(0) is asserted.) */
  ghost predicate Pairs(xs: seq<string>, ys: seq<string>, h: string -> string) {
    forall i {:trigger Asked(i)} :: Asked(i) ==> |xs| == |ys| && Sequenced(ys) == h(Sequenced(xs))
  }

  /** One writer replaces the numbers that the other leaves. */
  ghost predicate Replaces(ps: seq<Part>, w: Writer, g: Writer, h: string -> string) {
    forall k, l {:trigger Text(ps, w, k), Text(ps, g, l)} :: Text(ps, w, k) == h(Text(ps, g, l))
  }

  ghost predicate AllReplace(ss: seq<Statement>, parts: Statement -> seq<Part>, w: Writer, g: Writer, h: string -> string) {
    forall i :: 0 <= i < |ss| ==> Replaces(parts(ss[i]), w, g, h)
  }

  /** Dropping blank texts does not see the last step. */
  ghost predicate KeepsAlike(keep: string -> seq<string>, h: string -> string) {
    forall x {:trigger keep(h(x))} ::
      if keep(x) == [] then keep(h(x)) == [] else keep(x) == [x] && keep(h(x)) == [h(x)]
  }

  /** Texts are taken one by one, with the words between them. */
  ghost predicate PassesBreaks(h: string -> string) {
    forall x, rest {:trigger h(x + ("; " + rest))} :: h(x + ("; " + rest)) == h(x) + ("; " + h(rest))
  }

  lemma {:induction false} BatchUnnumbered(ss: seq<Statement>, parts: Statement -> seq<Part>, keep: string -> seq<string>,
                                           w: Writer, g: Writer, h: string -> string, k: nat, l: nat)
    requires AllReplace(ss, parts, w, g, h) && KeepsAlike(keep, h) && PassesBreaks(h) && h("") == ""
    ensures Pairs(BatchTexts(ss, parts, keep, g, l), BatchTexts(ss, parts, keep, w, k), h)
  {
    if ss != [] {
      var ps := parts(ss[0]);
      var k', l' := k + TextTaken(ps, w), l + TextTaken(ps, g);
      ReplacesHead(ss, parts, w, g, h, k, l);
      BatchUnnumbered(ss[1..], parts, keep, w, g, h, k', l');
      KeptPair(Text(ps, g, l), Text(ps, w, k), BatchTexts(ss[1..], parts, keep, g, l'), BatchTexts(ss[1..], parts, keep, w, k'), keep, h);
    } else {
      assert Sequenced([]) == "";
    }
  }

  lemma ReplacesHead(ss: seq<Statement>, parts: Statement -> seq<Part>, w: Writer, g: Writer, h: string -> string, k: nat, l: nat)
    requires ss != [] && AllReplace(ss, parts, w, g, h)
    ensures Text(parts(ss[0]), w, k) == h(Text(parts(ss[0]), g, l)) && AllReplace(ss[1..], parts, w, g, h)
  {
    assert Replaces(parts(ss[0]), w, g, h);
  }

  lemma KeptPair(x: string, y: string, xs: seq<string>, ys: seq<string>, keep: string -> seq<string>, h: string -> string)
    requires KeepsAlike(keep, h) && PassesBreaks(h) && Pairs(xs, ys, h) && y == h(x)
    ensures Pairs(keep(x) + xs, keep(y) + ys, h)
  {
    assert Asked(0);
    assert keep(h(x)) == keep(y);
    if keep(x) == [] {
      assert [] + xs == xs && [] + ys == ys;
    } else {
      SequencedCons(x, xs);
      SequencedCons(y, ys);
    }
  }

  lemma UnnumbererFits()
    ensures KeepsAlike(Keeper(), Unnumberer()) && PassesBreaks(Unnumberer()) && Unnumberer()("") == ""
  {
    var keep, h := Keeper(), Unnumberer();
    forall x {:trigger keep(h(x))} ensures if keep(x) == [] then keep(h(x)) == [] else keep(x) == [x] && keep(h(x)) == [h(x)] {
      BlankUnnumbered(x, DOLLAR);
    }
    forall x, rest {:trigger h(x + ("; " + rest))} ensures h(x + ("; " + rest)) == h(x) + ("; " + h(rest)) {
      UnmarkedStays("; ", rest, DOLLAR);
      UnnumberedAppend(x, "; " + rest, DOLLAR);
    }
  }

  /** A PostgreSQL batch written for the other dialect, with its numbers. */
  function NumberedBatch(ss: seq<Statement>, to: Dialect): string { BatchText(ss, to, Numbering(to)) }

  function PositionalBatch(ss: seq<Statement>, to: Dialect): string { BatchText(ss, to, TreatmentOf(Postgres, to)) }

  /** In a rendered batch each number of the text has become a question mark. */
  lemma BatchLosesNumbers(ss: seq<Statement>, to: Dialect)
    requires ByPosition(to) && forall i :: 0 <= i < |ss| ==> NoDollars(Parts(ss[i], to))
    ensures PositionalBatch(ss, to) == Unnumbered(NumberedBatch(ss, to), DOLLAR)
  {
    var w, g, h, parts := Positional(to), WithNumbers(to), Unnumberer(), PartsFor(to);
    UnnumbererFits();
    WritersAlike(to);
    forall i | 0 <= i < |ss| ensures Replaces(parts(ss[i]), w, g, h) {
      StatementSeams(ss[i], to);
      forall k, l ensures Text(parts(ss[i]), w, k) == h(Text(parts(ss[i]), g, l)) {
        TextUnnumbered(parts(ss[i]), w, g, h, k, l);
      }
    }
    BatchUnnumbered(ss, parts, Keeper(), w, g, h, 0, 0);
    assert Asked(0);
  }

  // ----- question marks that stood in the fragments

  lemma {:induction false} TextQuestions(ps: seq<Part>, to: Dialect, l: nat)
    requires NoMarks(ps)
    ensures Questions(Text(ps, WithNumbers(to), l)) == SourceQuestions(ps)
  {
    if ps != [] {
      var rest := Text(ps[1..], WithNumbers(to), l + WithNumbers(to).taken(ps[0]));
      TextQuestions(ps[1..], to, l + WithNumbers(to).taken(ps[0]));
      PartQuestions(ps[0], to, l);
      QuestionsAppend(WithNumbers(to).text(ps[0], l), rest);
    }
  }

  lemma PartQuestions(p: Part, to: Dialect, l: nat)
    requires p.Fixed? ==> '?' !in p.text
    ensures Questions(WithNumbers(to).text(p, l)) == if p.Fixed? then 0 else Questions(p.text)
  {
    if p.Fixed? {
      NoQuestions(p.text, 0, DOLLAR);
    } else {
      TrimKeeps(p.text);
      PostgresMarksKept(Trim(p.text), to);
    }
  }

  function BatchQuestions(ss: seq<Statement>, parts: Statement -> seq<Part>): nat {
    if ss == [] then 0 else SourceQuestions(parts(ss[0])) + BatchQuestions(ss[1..], parts)
  }

  /** A writer keeps the question marks of the fragments. */
  ghost predicate Counts(ss: seq<Statement>, parts: Statement -> seq<Part>, g: Writer) {
    forall i, l {:trigger Text(parts(ss[i]), g, l)} :: 0 <= i < |ss| ==> Questions(Text(parts(ss[i]), g, l)) == SourceQuestions(parts(ss[i]))
  }

  /** No question mark is lost with a dropped text. */
  ghost predicate KeepCounts(keep: string -> seq<string>) {
    forall x, xs {:trigger Sequenced(keep(x) + xs)} :: Questions(Sequenced(keep(x) + xs)) == Questions(x) + Questions(Sequenced(xs))
  }

  lemma CountsHeadTail(ss: seq<Statement>, parts: Statement -> seq<Part>, g: Writer, l: nat)
    requires ss != [] && Counts(ss, parts, g)
    ensures Questions(Text(parts(ss[0]), g, l)) == SourceQuestions(parts(ss[0])) && Counts(ss[1..], parts, g)
  {
    forall i, m {:trigger Text(parts(ss[1..][i]), g, m)} | 0 <= i < |ss[1..]|
      ensures Questions(Text(parts(ss[1..][i]), g, m)) == SourceQuestions(parts(ss[1..][i]))
    {
      assert ss[1..][i] == ss[i + 1];
      assert Text(parts(ss[i + 1]), g, m) == Text(parts(ss[i + 1]), g, m);
    }
  }

  lemma {:induction false} BatchTextQuestions(ss: seq<Statement>, parts: Statement -> seq<Part>, keep: string -> seq<string>, g: Writer, l: nat)
    requires Counts(ss, parts, g) && KeepCounts(keep)
    ensures Questions(Sequenced(BatchTexts(ss, parts, keep, g, l))) == BatchQuestions(ss, parts)
  {
    if ss != [] {
      var l' := l + TextTaken(parts(ss[0]), g);
      CountsHeadTail(ss, parts, g, l);
      BatchTextQuestions(ss[1..], parts, keep, g, l');
      assert BatchTexts(ss, parts, keep, g, l) == keep(Text(parts(ss[0]), g, l)) + BatchTexts(ss[1..], parts, keep, g, l');
    }
  }

  lemma NumberedQuestions(ss: seq<Statement>, to: Dialect)
    requires forall i :: 0 <= i < |ss| ==> NoMarks(Parts(ss[i], to))
    ensures Questions(NumberedBatch(ss, to)) == BatchQuestions(ss, PartsFor(to))
  {
    var g, parts, keep := WithNumbers(to), PartsFor(to), Keeper();
    forall i, l {:trigger Text(parts(ss[i]), g, l)} | 0 <= i < |ss|
      ensures Questions(Text(parts(ss[i]), g, l)) == SourceQuestions(parts(ss[i]))
    {
      assert parts(ss[i]) == Parts(ss[i], to);
      TextQuestions(Parts(ss[i], to), to, l);
    }
    forall x, xs {:trigger Sequenced(keep(x) + xs)} ensures Questions(Sequenced(keep(x) + xs)) == Questions(x) + Questions(Sequenced(xs)) {
      KeptQuestions(x, xs);
    }
    BatchTextQuestions(ss, parts, keep, g, 0);
  }

  lemma KeptQuestions(x: string, xs: seq<string>)
    ensures Questions(Sequenced(Keeper()(x) + xs)) == Questions(x) + Questions(Sequenced(xs))
  {
    if Blank(x) {
      BlankHolds(x, 0, DOLLAR);
      assert [] + xs == xs;
    } else {
      SequencedCons(x, xs);
      if xs != [] {
        NoQuestions("; ", 0, DOLLAR);
        QuestionsAppend("; ", Sequenced(xs));
        QuestionsAppend(x, "; " + Sequenced(xs));
      }
    }
  }

  lemma {:induction false} HoldsNone(s: string)
    ensures Questions(s) == 0 <==> '?' !in s
  {
    if s != "" {
      HoldsNone(s[1..]);
      assert s == [s[0]] + s[1..];
    }
  }

  // ----- binding

  /** Binding by position gives every argument list to a rendered batch as its numbers would. */
  ghost predicate BatchBindsAlike(ss: seq<Statement>, to: Dialect) {
    forall args :: Questions(PositionalBatch(ss, to)) <= |args| ==>
      BindQuestions(PositionalBatch(ss, to), args, 0) == BindNumbers(NumberedBatch(ss, to), args, DOLLAR)
  }

  /** A PostgreSQL batch, written for MySQL or SQLite, binds its arguments as its numbers say exactly when these are
      1, 2, 3 and so on in the order of the text, without repetition, and its fragments hold no question marks. */
  lemma BatchBindsAlikeExactly(ss: seq<Statement>, to: Dialect)
    requires ByPosition(to) && forall i :: 0 <= i < |ss| ==> NoDollars(Parts(ss[i], to)) && NoMarks(Parts(ss[i], to))
    ensures BatchBindsAlike(ss, to) <==> BatchQuestions(ss, PartsFor(to)) == 0 && InOrder(NumbersOf(NumberedBatch(ss, to), DOLLAR), 0)
  {
    BatchLosesNumbers(ss, to);
    NumberedQuestions(ss, to);
    HoldsNone(NumberedBatch(ss, to));
    BindsAsNumberedExactly(NumberedBatch(ss, to), DOLLAR);
  }
}
