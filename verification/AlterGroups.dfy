/**
 How the expanded specs of one ALTER TABLE are grouped into statements
 (internal/normalize/tidb_ddl.go:47-56, 129-183, 380-406): a fold over the items, and the only grouping
 that keeps them in order, is well formed and begins a new statement only where it must.
 */
module AlterGroups {
  import opened Basics
  import opened Strings
  import opened AlterSpecs

  // ----- reading a batch back

  function Flatten(statements: seq<Statement>): seq<Item> {
    if statements == [] then []
    else Flatten(statements[..|statements| - 1]) + ItemsOf(statements[|statements| - 1])
  }

  function ItemsOf(s: Statement): seq<Item> {
    if s.AlterTableStatement? then Inners(s.specs) else [Index(s)]
  }

  // ----- what an emitted statement looks like

  function AddedNames(specs: seq<AlterSpec>): set<string> {
    if specs == [] then {} else AddedNames(specs[..|specs| - 1]) + AddedName(specs[|specs| - 1])
  }

  /** The lower-cased name of the column a spec adds, unless it is blank. */
  function AddedName(spec: AlterSpec): set<string> {
    if spec.AddColumn? && Lower(Trim(spec.column.name)) != "" then {Lower(Trim(spec.column.name))} else {}
  }

  predicate Covered(parts: seq<IndexPart>, added: set<string>) {
    forall p :: p in parts ==> PartCovered(p, added)
  }

  predicate PartCovered(p: IndexPart, added: set<string>) {
    Lower(Trim(p.column)) != "" && Lower(Trim(p.column)) in added
  }

  /** Before the foreign key at `i` no column is added, or columns covering all its key columns are. */
  predicate ForeignKeyFits(specs: seq<AlterSpec>, i: nat)
    requires i < |specs|
  {
    specs[i].AddForeignKey? ==> AddedNames(specs[..i]) == {} || Covered(specs[i].parts, AddedNames(specs[..i]))
  }

  predicate SpecsOk(specs: seq<AlterSpec>) {
    && (forall i :: 0 <= i < |specs| ==> !specs[i].AddUniqueKey?)
    && forall i: nat :: i < |specs| ==> ForeignKeyFits(specs, i)
  }

  /** Never empty; a unique key stands alone; foreign keys fit. */
  predicate Emitted(table: string, s: Statement) {
    match s
    case AlterTableStatement(name, specs) => name == table && |specs| >= 1 && (SpecsOk(specs) || (|specs| == 1 && specs[0].AddUniqueKey?))
    case CreateIndex(_, t, _, _) => t == table
    case DropIndex(_, _) => true
    case _ => false
  }

  ghost predicate AllEmitted(table: string, statements: seq<Statement>) {
    forall s :: s in statements ==> Emitted(table, s)
  }

  // ----- the grouping

  /** A foreign key may not follow columns that are added and do not cover it. */
  predicate MustSplit(specs: seq<AlterSpec>, parts: seq<IndexPart>) {
    AddedNames(specs) != {} && !Covered(parts, AddedNames(specs))
  }

  /** Finished statements, and the specs not yet flushed. */
  datatype Progress = Progress(statements: seq<Statement>, specs: seq<AlterSpec>)

  function Flushed(table: string, p: Progress): seq<Statement> {
    if p.specs == [] then p.statements else p.statements + [AlterTableStatement(table, p.specs)]
  }

  function Take(table: string, p: Progress, item: Item): Progress {
    match item
    case Index(s) => Progress(Flushed(table, p) + [s], [])
    case Inner(x) =>
      if x.AddUniqueKey? then Progress(Flushed(table, p) + [AlterTableStatement(table, [x])], [])
      else if x.AddForeignKey? && MustSplit(p.specs, x.parts) then Progress(Flushed(table, p), [x])
      else Progress(p.statements, p.specs + [x])
  }

  function Grouped(table: string, items: seq<Item>): Progress {
    if items == [] then Progress([], []) else Take(table, Grouped(table, items[..|items| - 1]), items[|items| - 1])
  }

  function Finished(table: string, items: seq<Item>): seq<Statement> { Flushed(table, Grouped(table, items)) }

  lemma GroupedSnoc(table: string, items: seq<Item>, item: Item)
    ensures Grouped(table, items + [item]) == Take(table, Grouped(table, items), item)
  {
    assert (items + [item])[..|items|] == items;
  }

  // ----- what the grouping is for

  predicate IsRun(s: Statement) { s.AlterTableStatement? && SpecsOk(s.specs) }

  /** A new statement for further specs begins only before a foreign key that must not follow the others. */
  predicate Tight(statements: seq<Statement>) {
    forall i :: 0 < i < |statements| ==> Apart(statements[i - 1], statements[i])
  }

  predicate Apart(s: Statement, t: Statement) {
    IsRun(s) && IsRun(t) && t.specs != [] ==> t.specs[0].AddForeignKey? && MustSplit(s.specs, t.specs[0].parts)
  }

  predicate EndsInRun(statements: seq<Statement>) { statements != [] && IsRun(statements[|statements| - 1]) }

  /** Statements of their own are index statements. */
  predicate Own(table: string, item: Item) {
    item.Index? ==> !item.statement.AlterTableStatement? && Emitted(table, item.statement)
  }

  predicate AllOwn(table: string, items: seq<Item>) {
    forall i :: 0 <= i < |items| ==> Own(table, items[i])
  }

  lemma FlattenSnoc(statements: seq<Statement>, s: Statement)
    ensures Flatten(statements + [s]) == Flatten(statements) + ItemsOf(s)
  {
    assert (statements + [s])[..|statements|] == statements;
  }

  lemma InnersSnoc(specs: seq<AlterSpec>, spec: AlterSpec)
    ensures Inners(specs + [spec]) == Inners(specs) + [Inner(spec)]
  {
    assert (specs + [spec])[..|specs|] == specs;
  }

  lemma InnersOne(spec: AlterSpec)
    ensures Inners([spec]) == [Inner(spec)]
  {
    InnersSnoc([], spec);
    assert [] + [spec] == [spec] && [] + [Inner(spec)] == [Inner(spec)];
  }

  lemma TightSnoc(statements: seq<Statement>, s: Statement)
    requires Tight(statements) && (statements != [] ==> Apart(statements[|statements| - 1], s))
    ensures Tight(statements + [s])
  {
    var t := statements + [s];
    forall i | 0 < i < |t| ensures Apart(t[i - 1], t[i]) {
      if i < |statements| { assert Apart(statements[i - 1], statements[i]); }
    }
  }

  lemma TightFront(statements: seq<Statement>, s: Statement)
    requires Tight(statements + [s])
    ensures Tight(statements) && (statements != [] ==> Apart(statements[|statements| - 1], s))
  {
    var t := statements + [s];
    forall i | 0 < i < |statements| ensures Apart(statements[i - 1], statements[i]) { assert Apart(t[i - 1], t[i]); }
    if statements != [] { assert Apart(t[|statements| - 1], t[|statements|]); }
  }

  /** Appending a spec that is neither a unique nor a foreign key, or a foreign key that fits. */
  lemma SpecsSnoc(specs: seq<AlterSpec>, spec: AlterSpec)
    ensures SpecsOk(specs + [spec]) <==>
      SpecsOk(specs) && !spec.AddUniqueKey? && (spec.AddForeignKey? ==> !MustSplit(specs, spec.parts))
  {
    var t := specs + [spec];
    assert t[..|specs|] == specs;
    if SpecsOk(t) {
      assert ForeignKeyFits(t, |specs|);
      forall i: nat | i < |specs| ensures ForeignKeyFits(specs, i) && !specs[i].AddUniqueKey? {
        assert t[..i] == specs[..i];
        assert ForeignKeyFits(t, i) && !t[i].AddUniqueKey?;
      }
    }
    if SpecsOk(specs) && !spec.AddUniqueKey? && (spec.AddForeignKey? ==> !MustSplit(specs, spec.parts)) {
      forall i: nat | i < |t| ensures ForeignKeyFits(t, i) {
        if i < |specs| {
          assert t[..i] == specs[..i];
          assert ForeignKeyFits(specs, i);
        }
      }
    }
  }

  /** What every step keeps: the statements read back as the items, are well formed and tight. */
  ghost predicate Sound(table: string, p: Progress, items: seq<Item>) {
    && AllEmitted(table, p.statements) && SpecsOk(p.specs) && Flatten(p.statements) + Inners(p.specs) == items
    && Tight(Flushed(table, p)) && (p.specs == [] ==> !EndsInRun(p.statements))
  }

  lemma FlushedReads(table: string, p: Progress, items: seq<Item>)
    requires Sound(table, p, items)
    ensures Flatten(Flushed(table, p)) == items && AllEmitted(table, Flushed(table, p)) && Tight(Flushed(table, p))
  {
    if p.specs == [] {
      assert Flatten(p.statements) + [] == Flatten(p.statements);
    } else {
      FlattenSnoc(p.statements, AlterTableStatement(table, p.specs));
      assert Emitted(table, AlterTableStatement(table, p.specs));
    }
  }

  lemma AloneSound(table: string, p: Progress, items: seq<Item>, s: Statement, item: Item)
    requires Sound(table, p, items) && Emitted(table, s) && !IsRun(s) && ItemsOf(s) == [item]
    ensures Sound(table, Progress(Flushed(table, p) + [s], []), items + [item])
  {
    var f := Flushed(table, p);
    FlushedReads(table, p, items);
    AloneReads(table, f, items, s, item);
    AloneTight(f, s);
    NothingLeft(table, f + [s], items + [item]);
  }

  lemma NothingLeft(table: string, f: seq<Statement>, items: seq<Item>)
    requires AllEmitted(table, f) && Flatten(f) + Inners([]) == items && Tight(f) && !EndsInRun(f)
    ensures Sound(table, Progress(f, []), items)
  {
  }

  lemma AloneReads(table: string, f: seq<Statement>, items: seq<Item>, s: Statement, item: Item)
    requires Flatten(f) == items && AllEmitted(table, f) && Emitted(table, s) && ItemsOf(s) == [item]
    ensures Flatten(f + [s]) + Inners([]) == items + [item] && AllEmitted(table, f + [s])
  {
    FlattenSnoc(f, s);
    assert Flatten(f + [s]) + [] == items + [item];
  }

  lemma AloneTight(f: seq<Statement>, s: Statement)
    requires Tight(f) && !IsRun(s)
    ensures Tight(f + [s]) && !EndsInRun(f + [s])
  {
    TightSnoc(f, s);
  }

  lemma RunGrows(table: string, p: Progress, items: seq<Item>, x: AlterSpec)
    requires Sound(table, p, items) && !x.AddUniqueKey? && (x.AddForeignKey? ==> !MustSplit(p.specs, x.parts))
    ensures Sound(table, Progress(p.statements, p.specs + [x]), items + [Inner(x)])
  {
    SpecsSnoc(p.specs, x);
    InnersSnoc(p.specs, x);
    Assoc(Flatten(p.statements), Inners(p.specs), [Inner(x)]);
    if p.specs != [] { TightFront(p.statements, AlterTableStatement(table, p.specs)); }
    TightSnoc(p.statements, AlterTableStatement(table, p.specs + [x]));
  }

  lemma RunSplits(table: string, p: Progress, items: seq<Item>, x: AlterSpec)
    requires Sound(table, p, items) && x.AddForeignKey? && MustSplit(p.specs, x.parts)
    ensures Sound(table, Progress(Flushed(table, p), [x]), items + [Inner(x)])
  {
    assert AddedNames([]) == {};
    FlushedReads(table, p, items);
    InnersOne(x);
    SpecsSnoc([], x);
    assert [] + [x] == [x];
    TightSnoc(Flushed(table, p), AlterTableStatement(table, [x]));
  }

  lemma UniqueIsNoRun(table: string, x: AlterSpec)
    requires x.AddUniqueKey?
    ensures var s := AlterTableStatement(table, [x]); !IsRun(s) && Emitted(table, s) && ItemsOf(s) == [Inner(x)]
  {
    InnersOne(x);
    assert [x][0].AddUniqueKey?;
  }

  lemma TakeSound(table: string, p: Progress, items: seq<Item>, item: Item)
    requires Sound(table, p, items) && Own(table, item)
    ensures Sound(table, Take(table, p, item), items + [item])
  {
    match item
    case Index(s) => AloneSound(table, p, items, s, item);
    case Inner(x) =>
      if x.AddUniqueKey? {
        UniqueIsNoRun(table, x);
        AloneSound(table, p, items, AlterTableStatement(table, [x]), item);
      } else if x.AddForeignKey? && MustSplit(p.specs, x.parts) {
        RunSplits(table, p, items, x);
      } else {
        RunGrows(table, p, items, x);
      }
  }

  lemma {:induction false} GroupedSound(table: string, items: seq<Item>)
    requires AllOwn(table, items)
    ensures Sound(table, Grouped(table, items), items)
  {
    if items != [] {
      var front, item := items[..|items| - 1], items[|items| - 1];
      GroupedSound(table, front);
      assert Own(table, item);
      TakeSound(table, Grouped(table, front), front, item);
      assert front + [item] == items;
    }
  }

  // ----- no other grouping does the same

  /** What is left to flush when the last of the statements is a run, and when it is not. */
  function Reopened(statements: seq<Statement>): Progress {
    if EndsInRun(statements)
    then Progress(statements[..|statements| - 1], statements[|statements| - 1].specs)
    else Progress(statements, [])
  }

  lemma {:induction false} RunTaken(table: string, items: seq<Item>, p: Progress, specs: seq<AlterSpec>)
    requires Grouped(table, items) == p && specs != [] && SpecsOk(specs)
    requires p.specs == [] || (specs[0].AddForeignKey? && MustSplit(p.specs, specs[0].parts))
    ensures Grouped(table, items + Inners(specs)) == Progress(Flushed(table, p), specs)
    decreases |specs|
  {
    var front, x := specs[..|specs| - 1], specs[|specs| - 1];
    assert specs == front + [x];
    SpecsSnoc(front, x);
    InnersSnoc(front, x);
    Assoc(items, Inners(front), [Inner(x)]);
    GroupedSnoc(table, items + Inners(front), Inner(x));
    if front == [] {
      assert items + [] == items;
      TakeFirst(table, p, x);
      assert specs == [x];
    } else {
      RunTaken(table, items, p, front);
      TakeNext(table, Progress(Flushed(table, p), front), x);
    }
  }

  lemma TakeFirst(table: string, p: Progress, x: AlterSpec)
    requires !x.AddUniqueKey? && (p.specs == [] || (x.AddForeignKey? && MustSplit(p.specs, x.parts)))
    ensures Take(table, p, Inner(x)) == Progress(Flushed(table, p), [x])
  {
    assert AddedNames([]) == {};
    assert [] + [x] == [x];
  }

  lemma TakeNext(table: string, p: Progress, x: AlterSpec)
    requires !x.AddUniqueKey? && (x.AddForeignKey? ==> !MustSplit(p.specs, x.parts))
    ensures Take(table, p, Inner(x)) == Progress(p.statements, p.specs + [x])
  {
  }

  lemma AloneTaken(table: string, items: seq<Item>, p: Progress, s: Statement)
    requires Grouped(table, items) == p && Emitted(table, s) && !IsRun(s)
    ensures Grouped(table, items + ItemsOf(s)) == Progress(Flushed(table, p) + [s], [])
  {
    if s.AlterTableStatement? {
      assert s.specs == [s.specs[0]];
      InnersOne(s.specs[0]);
      GroupedSnoc(table, items, Inner(s.specs[0]));
    } else {
      GroupedSnoc(table, items, Index(s));
    }
  }

  lemma {:induction false} Rebuilt(table: string, statements: seq<Statement>)
    requires AllEmitted(table, statements) && Tight(statements)
    ensures Grouped(table, Flatten(statements)) == Reopened(statements)
    ensures Flushed(table, Reopened(statements)) == statements
  {
    if statements != [] {
      var front, s := statements[..|statements| - 1], statements[|statements| - 1];
      assert statements == front + [s];
      assert s in statements && forall t :: t in front ==> t in statements;
      TightFront(front, s);
      Rebuilt(table, front);
      if IsRun(s) {
        RunTaken(table, Flatten(front), Reopened(front), s.specs);
      } else {
        AloneTaken(table, Flatten(front), Reopened(front), s);
      }
    }
  }

  /** The batch is the only list of well-formed statements that reads back as the items in their order and
      begins a new statement only where it must. */
  lemma GroupedExactly(table: string, items: seq<Item>, statements: seq<Statement>)
    requires AllOwn(table, items)
    ensures statements == Finished(table, items)
       <==> Flatten(statements) == items && AllEmitted(table, statements) && Tight(statements)
  {
    GroupedSound(table, items);
    FlushedReads(table, Grouped(table, items), items);
    if Flatten(statements) == items && AllEmitted(table, statements) && Tight(statements) { Rebuilt(table, statements); }
  }

  // ----- the items of a statement

  lemma InnersOwn(table: string, specs: seq<AlterSpec>)
    ensures AllOwn(table, Inners(specs))
  {
    if specs != [] { InnersOwn(table, specs[..|specs| - 1]); }
  }

  lemma ExpansionOwn(table: string, spec: Spec)
    requires Expansion(table, spec).Some?
    ensures AllOwn(table, Expansion(table, spec).value)
  {
    if (spec.tp == ModifyColumn || spec.tp == ChangeColumn) {
      var c := NormalizeColumn(spec.newColumns[0]);
      InnersOwn(table, MutationSpecs(c, c.name));
    }
  }

  lemma {:induction false} ExpansionsOwn(table: string, specs: seq<Option<Spec>>)
    requires Supported(table, specs)
    ensures AllOwn(table, Expansions(table, specs))
  {
    if specs != [] {
      var last := specs[|specs| - 1];
      ExpansionsOwn(table, specs[..|specs| - 1]);
      if last.Some? { ExpansionOwn(table, last.value); }
    }
  }
}
