/**
 The loop that builds the batch for one ALTER TABLE, with its flushes
 (internal/normalize/tidb_ddl.go:40-195, 279-301, 380-406).
 */
module AlterTable {
  import opened Basics
  import opened Strings
  import opened AlterSpecs
  import opened AlterGroups

  method AddedColumns(specs: seq<AlterSpec>) returns (added: set<string>)
    ensures added == AddedNames(specs)
  {
    added := {};
    assert specs[..0] == [];
    for i := 0 to |specs|
      invariant added == AddedNames(specs[..i])
    {
      assert specs[..i + 1][..i] == specs[..i];
      if !specs[i].AddColumn? { continue; }
      var name := Lower(Trim(specs[i].column.name));
      if name == "" { continue; }
      added := added + {name};
    }
    assert specs[..|specs|] == specs;
  }

  method FindUncovered(parts: seq<IndexPart>, added: set<string>) returns (found: bool)
    ensures found <==> !Covered(parts, added)
  {
    for i := 0 to |parts|
      invariant forall j :: 0 <= j < i ==> PartCovered(parts[j], added)
    {
      var covered := PartCovered(parts[i], added);
      if !covered { return true; }
    }
    return false;
  }

  method ShouldSplitBeforeForeignKey(specs: seq<AlterSpec>, parts: seq<IndexPart>) returns (split: bool)
    ensures split <==> MustSplit(specs, parts)
  {
    var added := AddedColumns(specs);
    if added == {} { return false; }
    split := FindUncovered(parts, added);
  }

  // ----- the loop

  /** The batch built so far: the statements and the specs not yet flushed are those of the items. */
  ghost predicate Built(table: string, statements: seq<Statement>, specs: seq<AlterSpec>, items: seq<Item>) {
    Grouped(table, items) == Progress(statements, specs)
  }

  method Flush(table: string, statements: seq<Statement>, specs: seq<AlterSpec>) returns (out: seq<Statement>)
    ensures out == Flushed(table, Progress(statements, specs))
  {
    if |specs| == 0 { return statements; }
    out := statements + [AlterTableStatement(table, specs)];
  }

  /** Puts one expanded spec into the batch. */
  method Append(table: string, statements: seq<Statement>, specs: seq<AlterSpec>, ghost items: seq<Item>, spec: AlterSpec)
    returns (specs': seq<AlterSpec>)
    requires Built(table, statements, specs, items) && !spec.AddUniqueKey? && !spec.AddForeignKey?
    ensures Built(table, statements, specs', items + [Inner(spec)]) && specs' == specs + [spec]
  {
    GroupedSnoc(table, items, Inner(spec));
    specs' := specs + [spec];
  }

  /** Puts an index statement into the batch, after what came before it. */
  method Alone(table: string, statements: seq<Statement>, specs: seq<AlterSpec>, ghost items: seq<Item>, s: Statement)
    returns (statements': seq<Statement>)
    requires Built(table, statements, specs, items)
    ensures Built(table, statements', [], items + [Index(s)])
  {
    var flushed := Flush(table, statements, specs);
    statements' := flushed + [s];
    GroupedSnoc(table, items, Index(s));
  }

  /** The batch grew by the items of one spec, if it is supported. */
  ghost predicate Grown(table: string, items: seq<Item>, ok: bool, statements': seq<Statement>, specs': seq<AlterSpec>,
                        more: Option<seq<Item>>)
  {
    (ok <==> more.Some?) && (ok ==> Built(table, statements', specs', items + more.value))
  }

  method AddUniqueSpec(table: string, statements: seq<Statement>, specs: seq<AlterSpec>, ghost items: seq<Item>, unique: AlterSpec)
    returns (statements': seq<Statement>)
    requires Built(table, statements, specs, items) && unique.AddUniqueKey?
    ensures Built(table, statements', [], items + [Inner(unique)])
    ensures statements' == Flushed(table, Progress(statements, specs)) + [AlterTableStatement(table, [unique])]
  {
    var flushed := Flush(table, statements, specs);
    statements' := flushed + [AlterTableStatement(table, [unique])];
    GroupedSnoc(table, items, Inner(unique));
  }

  method AddConstraintSpec(table: string, statements: seq<Statement>, specs: seq<AlterSpec>, ghost items: seq<Item>, c: Constraint)
    returns (ok: bool, statements': seq<Statement>, specs': seq<AlterSpec>)
    requires Built(table, statements, specs, items)
    ensures Grown(table, items, ok, statements', specs', ConstraintExpansion(table, c))
  {
    ok, statements', specs' := true, statements, specs;
    if IsUnique(c.tp) {
      statements' := AddUniqueSpec(table, statements, specs, items, AddUniqueKey(Trim(c.name), NormalizeParts(c.keys), c.ifNotExists));
      specs' := [];
    } else if c.tp == PrimaryKey {
      specs' := Append(table, statements, specs, items, AddPrimaryKey(NormalizeParts(c.keys)));
    } else if c.tp == ForeignKey {
      var reference := NormalizeReference(c.refer);
      if reference.None? { return false, statements, specs; }
      statements', specs' := AddForeignKeySpec(
        table, statements, specs, items, Trim(c.name), NormalizeParts(c.keys), c.ifNotExists, reference.value);
    } else if c.tp == KeyConstraint || c.tp == IndexConstraint {
      ok, statements', specs' := AddIndexSpec(table, statements, specs, items, c);
    } else {
      ok := false;
    }
  }

  /** A foreign key goes to the current statement unless it would depend on a column added there. */
  method AddForeignKeySpec(table: string, statements: seq<Statement>, specs: seq<AlterSpec>, ghost items: seq<Item>,
                           name: string, parts: seq<IndexPart>, ifNotExists: bool, reference: ForeignReference)
    returns (statements': seq<Statement>, specs': seq<AlterSpec>)
    requires Built(table, statements, specs, items)
    ensures var spec := AddForeignKey(name, parts, ifNotExists, reference);
      && Built(table, statements', specs', items + [Inner(spec)])
      && if AddedNames(specs) != {} && !Covered(parts, AddedNames(specs))
         then statements' == Flushed(table, Progress(statements, specs)) && specs' == [spec]
         else statements' == statements && specs' == specs + [spec]
  {
    var spec := AddForeignKey(name, parts, ifNotExists, reference);
    GroupedSnoc(table, items, Inner(spec));
    statements', specs' := statements, specs;
    var split := ShouldSplitBeforeForeignKey(specs, parts);
    if split {
      statements' := Flush(table, statements, specs);
      specs' := [];
    }
    specs' := specs' + [spec];
  }

  method AddIndexSpec(table: string, statements: seq<Statement>, specs: seq<AlterSpec>, ghost items: seq<Item>, c: Constraint)
    returns (ok: bool, statements': seq<Statement>, specs': seq<AlterSpec>)
    requires Built(table, statements, specs, items)
    ensures Grown(table, items, ok, statements', specs', IndexExpansion(table, c))
  {
    if Trim(c.name) == "" { return false, statements, specs; }
    var index := CreateIndex(Trim(c.name), table, NormalizeParts(c.keys), c.ifNotExists);
    statements' := Alone(table, statements, specs, items, index);
    return true, statements', [];
  }

  /** A column change: its type, then its nullability. */
  method AddMutation(table: string, statements: seq<Statement>, specs: seq<AlterSpec>, ghost items: seq<Item>, column: Column)
    returns (statements': seq<Statement>, specs': seq<AlterSpec>)
    requires Built(table, statements, specs, items)
    ensures Built(table, statements', specs', items + Inners(MutationSpecs(column, column.name)))
  {
    var ms := MutationSpecs(column, column.name);
    statements' := statements;
    specs' := Append(table, statements, specs, items, ms[0]);
    specs' := Append(table, statements, specs', items + [Inner(ms[0])], ms[1]);
    MutationItems(column);
    assert items + [Inner(ms[0])] + [Inner(ms[1])] == items + [Inner(ms[0]), Inner(ms[1])];
  }

  lemma MutationItems(column: Column)
    ensures var ms := MutationSpecs(column, column.name); Inners(ms) == [Inner(ms[0]), Inner(ms[1])]
  {
    var ms := MutationSpecs(column, column.name);
    InnersSnoc([], ms[0]);
    InnersSnoc([ms[0]], ms[1]);
    assert ms == [ms[0]] + [ms[1]];
  }

  method AlterColumnSpec(table: string, statements: seq<Statement>, specs: seq<AlterSpec>, ghost items: seq<Item>, spec: Spec)
    returns (ok: bool, statements': seq<Statement>, specs': seq<AlterSpec>)
    requires Built(table, statements, specs, items) && spec.tp == AlterColumnType
    ensures Grown(table, items, ok, statements', specs', Expansion(table, spec))
  {
    if |spec.newColumns| != 1 || spec.newColumns[0].None? || spec.newColumns[0].value.name.None? { return false, statements, specs; }
    var column := spec.newColumns[0].value;
    var name := Trim(column.name.value);
    ok, statements' := true, statements;
    if |column.options| == 1 {
      specs' := Append(table, statements, specs, items, SetDefault(name, OptionText(column.options[0])));
    } else {
      specs' := Append(table, statements, specs, items, DropDefault(name));
    }
  }

  method ModifyColumnSpec(table: string, statements: seq<Statement>, specs: seq<AlterSpec>, ghost items: seq<Item>, spec: Spec)
    returns (ok: bool, statements': seq<Statement>, specs': seq<AlterSpec>)
    requires Built(table, statements, specs, items) && spec.tp == ModifyColumn
    ensures Grown(table, items, ok, statements', specs', Expansion(table, spec))
  {
    if |spec.newColumns| != 1 || spec.newColumns[0].None? || !spec.atDefaultPosition { return false, statements, specs; }
    ok := true;
    statements', specs' := AddMutation(table, statements, specs, items, NormalizeColumn(spec.newColumns[0]));
  }

  method ChangeColumnSpec(table: string, statements: seq<Statement>, specs: seq<AlterSpec>, ghost items: seq<Item>, spec: Spec)
    returns (ok: bool, statements': seq<Statement>, specs': seq<AlterSpec>)
    requires Built(table, statements, specs, items) && spec.tp == ChangeColumn
    ensures Grown(table, items, ok, statements', specs', Expansion(table, spec))
  {
    if |spec.newColumns| != 1 || spec.newColumns[0].None? || spec.oldColumn.None? || !spec.atDefaultPosition {
      return false, statements, specs;
    }
    var column, oldName := NormalizeColumn(spec.newColumns[0]), Trim(spec.oldColumn.value);
    if oldName == "" || column.name == "" { return false, statements, specs; }
    ok, statements', specs' := true, statements, specs;
    ghost var soFar := items;
    if oldName != column.name {
      specs' := Append(table, statements, specs, items, RenameColumn(oldName, column.name));
      soFar := items + [Inner(RenameColumn(oldName, column.name))];
    }
    statements', specs' := AddMutation(table, statements, specs', soFar, column);
    ChangeItems(items, oldName, column);
  }

  lemma ChangeItems(items: seq<Item>, oldName: string, column: Column)
    ensures items + [Inner(RenameColumn(oldName, column.name))] + Inners(MutationSpecs(column, column.name))
         == items + ([Inner(RenameColumn(oldName, column.name))] + Inners(MutationSpecs(column, column.name)))
    ensures items + Inners(MutationSpecs(column, column.name)) == items + ([] + Inners(MutationSpecs(column, column.name)))
  {
  }

  method AddColumnSpec(table: string, statements: seq<Statement>, specs: seq<AlterSpec>, ghost items: seq<Item>, spec: Spec)
    returns (ok: bool, statements': seq<Statement>, specs': seq<AlterSpec>)
    requires Built(table, statements, specs, items) && spec.tp == AddColumns
    ensures Grown(table, items, ok, statements', specs', Expansion(table, spec))
  {
    if |spec.newColumns| != 1 || spec.newConstraints != 0 || !spec.atDefaultPosition { return false, statements, specs; }
    ok, statements' := true, statements;
    specs' := Append(table, statements, specs, items, AddColumn(NormalizeColumn(spec.newColumns[0])));
  }

  /** The operations that need no column definition. */
  method DropSpec(table: string, statements: seq<Statement>, specs: seq<AlterSpec>, ghost items: seq<Item>, spec: Spec)
    returns (ok: bool, statements': seq<Statement>, specs': seq<AlterSpec>)
    requires Built(table, statements, specs, items)
    requires spec.tp == DropColumnType || spec.tp == DropPrimaryKeyType || spec.tp == DropIndexType || spec.tp == DropForeignKeyType
    ensures Grown(table, items, ok, statements', specs', Expansion(table, spec))
  {
    ok, statements', specs' := true, statements, specs;
    if spec.tp == DropColumnType {
      if spec.oldColumn.None? { return false, statements, specs; }
      specs' := Append(table, statements, specs, items, DropColumn(Trim(spec.oldColumn.value)));
    } else if spec.tp == DropPrimaryKeyType {
      specs' := Append(table, statements, specs, items, DropPrimaryKey(spec.ifExists));
    } else if spec.tp == DropForeignKeyType {
      specs' := Append(table, statements, specs, items, DropForeignKey(Trim(spec.name), spec.ifExists));
    } else {
      var drop := DropIndex(Trim(spec.name), spec.ifExists);
      statements' := Alone(table, statements, specs, items, drop);
      specs' := [];
    }
  }

  /** One spec of the source statement. */
  method AddSpec(table: string, statements: seq<Statement>, specs: seq<AlterSpec>, ghost items: seq<Item>, spec: Spec)
    returns (ok: bool, statements': seq<Statement>, specs': seq<AlterSpec>)
    requires Built(table, statements, specs, items)
    ensures Grown(table, items, ok, statements', specs', Expansion(table, spec))
  {
    match spec.tp
    case AddColumns => ok, statements', specs' := AddColumnSpec(table, statements, specs, items, spec);
    case AlterColumnType => ok, statements', specs' := AlterColumnSpec(table, statements, specs, items, spec);
    case ModifyColumn => ok, statements', specs' := ModifyColumnSpec(table, statements, specs, items, spec);
    case ChangeColumn => ok, statements', specs' := ChangeColumnSpec(table, statements, specs, items, spec);
    case AddConstraint =>
      if spec.constraint.None? { return false, statements, specs; }
      ok, statements', specs' := AddConstraintSpec(table, statements, specs, items, spec.constraint.value);
    case OtherSpec => return false, statements, specs;
    case _ => ok, statements', specs' := DropSpec(table, statements, specs, items, spec);
  }

  /** The raw statement, without its final semicolon. */
  function RawDDL(sql: string): Statement {
    var t := Trim(sql);
    Raw(Trim(if |t| >= 1 && t[|t| - 1] == ';' then t[..|t| - 1] else t))
  }

  /** The loop over the specs, given up at the first unsupported one. */
  method BuildBatch(table: string, source: seq<Option<Spec>>) returns (ok: bool, statements: seq<Statement>)
    ensures ok <==> Supported(table, source)
    ensures ok ==> statements == Finished(table, Expansions(table, source))
  {
    var specs: seq<AlterSpec>;
    statements, specs := [], [];
    for i := 0 to |source|
      invariant Supported(table, source[..i]) && Built(table, statements, specs, Expansions(table, source[..i]))
    {
      if source[i].None? {
        NilSkipped(table, source, i);
        continue;
      }
      ok, statements, specs := AddSpec(table, statements, specs, Expansions(table, source[..i]), source[i].value);
      if !ok { return; }
      ExpansionsSnoc(table, source, i);
    }
    assert source[..|source|] == source;
    statements := Flush(table, statements, specs);
    ok := true;
  }

  /** One statement stands for itself, any other number makes a batch. */
  function Wrapped(statements: seq<Statement>): Statement {
    if |statements| == 1 then statements[0] else Batch(statements)
  }

  /** All or nothing: the raw statement exactly when some spec is unsupported; otherwise the one list of
      well-formed statements that reads back, in order, as the expansions of the specs, none lost, repeated
      or moved, and that begins a new statement only where it must. */
  method NormalizeAlterTable(sql: string, stmt: Option<AlterStmt>) returns (result: Statement)
    ensures result.Raw? <==> stmt.None? || !Supported(Trim(stmt.value.table), stmt.value.specs)
    ensures stmt.None? ==> result == RawDDL(sql)
    ensures stmt.Some? && !Supported(Trim(stmt.value.table), stmt.value.specs) ==> result == RawDDL(sql)
    ensures stmt.Some? && Supported(Trim(stmt.value.table), stmt.value.specs) ==>
      var items := Expansions(Trim(stmt.value.table), stmt.value.specs);
      var statements := Finished(Trim(stmt.value.table), items);
      result == Wrapped(statements) && Flatten(statements) == items
      && AllEmitted(Trim(stmt.value.table), statements) && Tight(statements)
  {
    if stmt.None? { return RawDDL(sql); }
    var table := Trim(stmt.value.table);
    var ok, statements := BuildBatch(table, stmt.value.specs);
    if !ok { return RawDDL(sql); }
    ExpansionsOwn(table, stmt.value.specs);
    GroupedExactly(table, Expansions(table, stmt.value.specs), statements);
    if |statements| == 1 { assert statements[0] in statements; }
    return Wrapped(statements);
  }

  lemma NilSkipped(table: string, source: seq<Option<Spec>>, i: nat)
    requires i < |source| && Supported(table, source[..i]) && source[i].None?
    ensures Supported(table, source[..i + 1]) && Expansions(table, source[..i + 1]) == Expansions(table, source[..i])
  {
    SupportedSnoc(table, source, i);
    assert source[..i + 1][..i] == source[..i];
  }

  lemma SupportedSnoc(table: string, source: seq<Option<Spec>>, i: nat)
    requires i < |source| && Supported(table, source[..i])
    requires source[i].None? || Expansion(table, source[i].value).Some?
    ensures Supported(table, source[..i + 1])
  {
    var t := source[..i + 1];
    forall j | 0 <= j < |t| && t[j].Some? ensures Expansion(table, t[j].value).Some? {
      if j < i { assert source[..i][j] == t[j]; }
    }
  }

  lemma ExpansionsSnoc(table: string, source: seq<Option<Spec>>, i: nat)
    requires i < |source| && Supported(table, source[..i]) && source[i].Some? && Expansion(table, source[i].value).Some?
    ensures Supported(table, source[..i + 1])
    ensures Expansions(table, source[..i + 1]) == Expansions(table, source[..i]) + Expansion(table, source[i].value).value
  {
    SupportedSnoc(table, source, i);
    assert source[..i + 1][..i] == source[..i];
  }
}
