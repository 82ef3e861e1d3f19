/**
 What the specs that an ALTER TABLE is expanded into do to the columns of a table, and that a column definition
 comes out as it was given (internal/normalize/tidb_ddl.go:62-109, 245-301).
 */
module AlterEffects {
  import opened Basics
  import opened Strings
  import opened AlterSpecs

  /** A column of a table as it stands. */
  datatype Shape = Shape(tp: string, nullable: bool, default_: string)

  type Table = map<string, Shape>

  /** What a single spec does, or nothing when it names a column wrongly. */
  function Effect(t: Table, a: AlterSpec): Option<Table> {
    match a
    case AddColumn(c) => if c.name in t then None else Some(t[c.name := Shape(c.tp, !c.notNull, c.default_)])
    case DropColumn(n) => if n in t then Some(t - {n}) else None
    case SetDefault(n, text) => if n in t then Some(t[n := t[n].(default_ := text)]) else None
    case DropDefault(n) => if n in t then Some(t[n := t[n].(default_ := "")]) else None
    case AlterType(n, c) => if n in t then Some(t[n := t[n].(tp := c.tp)]) else None
    case SetNotNull(n) => if n in t then Some(t[n := t[n].(nullable := false)]) else None
    case DropNotNull(n) => if n in t then Some(t[n := t[n].(nullable := true)]) else None
    case RenameColumn(old_, n) => if old_ in t && n !in t then Some((t - {old_})[n := t[old_]]) else None
    case _ => Some(t)
  }

  function ItemEffect(t: Table, item: Item): Option<Table> {
    match item case Inner(a) => Effect(t, a) case Index(_) => Some(t)
  }

  /** One after the other. */
  function Effects(t: Table, items: seq<Item>): Option<Table>
    decreases |items|
  {
    if items == [] then Some(t)
    else match ItemEffect(t, items[0]) case None => None case Some(u) => Effects(u, items[1..])
  }

  lemma {:induction false} EffectsAppend(t: Table, a: seq<Item>, b: seq<Item>)
    ensures Effects(t, a + b) == match Effects(t, a) case None => None case Some(u) => Effects(u, b)
    decreases |a|
  {
    if a == [] {
      assert a + b == b;
    } else {
      assert (a + b)[1..] == a[1..] + b && (a + b)[0] == a[0];
      match ItemEffect(t, a[0])
      case None =>
      case Some(u) => EffectsAppend(u, a[1..], b);
    }
  }

  // ----- a column definition

  type Options = seq<Option<ColumnOption>>

  function TypeAt(os: Options, i: nat): OptionType
    requires i < |os|
  {
    if os[i].Some? then os[i].value.tp else OptOther
  }

  /** An option of this kind, with no other of the two kinds behind it. */
  predicate IsLast(os: Options, i: nat, tp: OptionType, other: OptionType) {
    i < |os| && TypeAt(os, i) == tp && forall j :: i < j < |os| ==> TypeAt(os, j) != other && TypeAt(os, j) != tp
  }

  predicate Has(os: Options, tp: OptionType) { exists i :: 0 <= i < |os| && TypeAt(os, i) == tp }

  /** Of the NULLs and NOT NULLs, the last one is a NOT NULL. */
  predicate EndsNotNull(os: Options) { exists i :: 0 <= i < |os| && IsLast(os, i, OptNotNull, OptNull) }

  /** The column that the options make. */
  predicate Made(c: Column, os: Options) {
    && (c.notNull <==> EndsNotNull(os))
    && (c.primaryKey <==> Has(os, OptPrimaryKey)) && (c.unique <==> Has(os, OptUniqKey))
    && (c.autoIncrement <==> Has(os, OptAutoIncrement))
    && (!Has(os, OptDefault) ==> c.default_ == "")
    && (forall i :: 0 <= i < |os| && IsLast(os, i, OptDefault, OptDefault) ==> c.default_ == OptionText(os[i]))
  }

  lemma HasStep(os: Options, o: Option<ColumnOption>, tp: OptionType)
    ensures Has(os + [o], tp) <==> Has(os, tp) || TypeAt([o], 0) == tp
  {
    var all := os + [o];
    if Has(os, tp) {
      var i :| 0 <= i < |os| && TypeAt(os, i) == tp;
      assert TypeAt(all, i) == tp;
    }
    assert TypeAt(all, |os|) == TypeAt([o], 0);
    if Has(all, tp) {
      var i :| 0 <= i < |all| && TypeAt(all, i) == tp;
      assert i < |os| ==> TypeAt(os, i) == tp;
    }
  }

  lemma TypesKept(os: Options, o: Option<ColumnOption>)
    ensures forall j :: 0 <= j < |os| ==> TypeAt(os + [o], j) == TypeAt(os, j)
    ensures TypeAt(os + [o], |os|) == TypeAt([o], 0)
  {
  }

  lemma LastBefore(os: Options, o: Option<ColumnOption>, i: nat, tp: OptionType, other: OptionType)
    requires i < |os| && IsLast(os + [o], i, tp, other)
    ensures IsLast(os, i, tp, other) && TypeAt([o], 0) != tp && TypeAt([o], 0) != other
  {
    TypesKept(os, o);
    forall j | i < j < |os| ensures TypeAt(os, j) != other && TypeAt(os, j) != tp { assert TypeAt(os + [o], j) == TypeAt(os, j); }
  }

  lemma LastAfter(os: Options, o: Option<ColumnOption>, i: nat, tp: OptionType, other: OptionType)
    requires IsLast(os, i, tp, other) && TypeAt([o], 0) != tp && TypeAt([o], 0) != other
    ensures IsLast(os + [o], i, tp, other)
  {
    TypesKept(os, o);
    forall j | i < j < |os + [o]| ensures TypeAt(os + [o], j) != other && TypeAt(os + [o], j) != tp {
      if j < |os| { assert TypeAt(os + [o], j) == TypeAt(os, j); }
    }
  }

  /** Behind another option, an option is the last one when it was and the new one is of neither kind. */
  lemma LastStep(os: Options, o: Option<ColumnOption>, i: nat, tp: OptionType, other: OptionType)
    requires i < |os|
    ensures IsLast(os + [o], i, tp, other) <==> IsLast(os, i, tp, other) && TypeAt([o], 0) != tp && TypeAt([o], 0) != other
  {
    if IsLast(os + [o], i, tp, other) { LastBefore(os, o, i, tp, other); }
    if IsLast(os, i, tp, other) && TypeAt([o], 0) != tp && TypeAt([o], 0) != other { LastAfter(os, o, i, tp, other); }
  }

  lemma NewIsLast(os: Options, o: Option<ColumnOption>, tp: OptionType, other: OptionType)
    ensures IsLast(os + [o], |os|, tp, other) <==> TypeAt([o], 0) == tp
  {
  }

  lemma NotNullStep(os: Options, o: Option<ColumnOption>)
    ensures EndsNotNull(os + [o]) <==> TypeAt([o], 0) == OptNotNull || (TypeAt([o], 0) != OptNull && EndsNotNull(os))
  {
    var all := os + [o];
    NewIsLast(os, o, OptNotNull, OptNull);
    if EndsNotNull(all) {
      var i :| 0 <= i < |all| && IsLast(all, i, OptNotNull, OptNull);
      if i < |os| { LastStep(os, o, i, OptNotNull, OptNull); }
    }
    if EndsNotNull(os) {
      var i :| 0 <= i < |os| && IsLast(os, i, OptNotNull, OptNull);
      LastStep(os, o, i, OptNotNull, OptNull);
    }
  }

  lemma DefaultStep(os: Options, o: Option<ColumnOption>, text: string, i: nat)
    requires forall j :: 0 <= j < |os| && IsLast(os, j, OptDefault, OptDefault) ==> text == OptionText(os[j])
    requires i <= |os| && IsLast(os + [o], i, OptDefault, OptDefault)
    ensures OptionText((os + [o])[i]) == if TypeAt([o], 0) == OptDefault then OptionText(o) else text
  {
    if i < |os| { LastStep(os, o, i, OptDefault, OptDefault); } else { NewIsLast(os, o, OptDefault, OptDefault); }
  }

  /** One more option. */
  lemma MadeStep(b: Column, os: Options, o: Option<ColumnOption>)
    requires Made(b, os)
    ensures Made(WithOption(b, o), os + [o])
  {
    NotNullStep(os, o);
    HasStep(os, o, OptPrimaryKey);
    HasStep(os, o, OptUniqKey);
    HasStep(os, o, OptAutoIncrement);
    HasStep(os, o, OptDefault);
    var c := WithOption(b, o);
    forall i | 0 <= i < |os + [o]| && IsLast(os + [o], i, OptDefault, OptDefault) ensures c.default_ == OptionText((os + [o])[i]) {
      DefaultStep(os, o, b.default_, i);
    }
  }

  /** Looked into only where Asked(0) is asserted. */
  ghost predicate Sealed(c: Column, os: Options) { forall z {:trigger Asked(z)} :: Asked(z) ==> Made(c, os) }

  lemma SealedStep(b: Column, os: Options, o: Option<ColumnOption>)
    requires Sealed(b, os)
    ensures Sealed(WithOption(b, o), os + [o])
  {
    assert Asked(0);
    MadeStep(b, os, o);
  }

  lemma NoOptions(name: string, tp: string)
    ensures Sealed(NO_COLUMN.(name := name, tp := tp), [])
  {
  }

  /** The options are applied from left to right, the last one deciding. */
  lemma {:induction false} OptionsMade(os: Options, name: string, tp: string)
    ensures var c := WithOptions(NO_COLUMN.(name := name, tp := tp), os); c.name == name && c.tp == tp && Sealed(c, os)
  {
    if os == [] {
      NoOptions(name, tp);
    } else {
      var n := |os| - 1;
      OptionsMade(os[..n], name, tp);
      SealedStep(WithOptions(NO_COLUMN.(name := name, tp := tp), os[..n]), os[..n], os[n]);
      assert os[..n] + [os[n]] == os;
    }
  }

  /** A definition comes out with its trimmed name, its type in small letters, and what its options say. */
  lemma ColumnMade(name: string, tp: string, os: Options)
    ensures var c := NormalizeColumn(Some(ColumnDef(Some(name), tp, os))); c.name == Trim(name) && c.tp == Lower(Trim(tp)) && Made(c, os)
  {
    OptionsMade(os, Trim(name), Lower(Trim(tp)));
    assert Asked(0);
  }

  // ----- what a spec is to do

  function WithShape(t: Table, n: string, c: Column): Option<Table> {
    if n in t then Some(t[n := Shape(c.tp, !c.notNull, t[n].default_)]) else None
  }

  /** The column gets the type and the nullability of its definition; its default stays, and so do the others. */
  lemma ModifyEffect(table: string, spec: Spec, t: Table)
    requires spec.tp == ModifyColumn && Expansion(table, spec).Some?
    ensures var c := NormalizeColumn(spec.newColumns[0]); Effects(t, Expansion(table, spec).value) == WithShape(t, c.name, c)
  {
    var c := NormalizeColumn(spec.newColumns[0]);
    MutationEffect(t, c, c.name);
  }

  lemma InnersPair(a: AlterSpec, b: AlterSpec)
    ensures Inners([a, b]) == [Inner(a), Inner(b)]
  {
    assert [a, b][..1] == [a] && [a][..0] == [];
    assert Inners([a]) == [Inner(a)];
  }

  lemma PairEffect(t: Table, a: Item, b: Item)
    ensures Effects(t, [a, b]) == match ItemEffect(t, a) case None => None case Some(u) => ItemEffect(u, b)
  {
    assert [a, b][1..] == [b] && [b][1..] == [];
    match ItemEffect(t, a)
    case None =>
    case Some(u) => OneEffect(u, b);
  }

  lemma OneEffect(t: Table, a: Item)
    ensures Effects(t, [a]) == ItemEffect(t, a)
  {
    assert [a][1..] == [];
  }

  lemma MutationEffect(t: Table, c: Column, n: string)
    ensures Effects(t, Inners(MutationSpecs(c, n))) == WithShape(t, n, c)
  {
    var ms := MutationSpecs(c, n);
    InnersPair(ms[0], ms[1]);
    PairEffect(t, Inner(ms[0]), Inner(ms[1]));
    if n in t {
      var u := t[n := t[n].(tp := c.tp)];
      assert t[n := Shape(c.tp, !c.notNull, t[n].default_)] == u[n := u[n].(nullable := !c.notNull)];
    }
  }

  /** The column is renamed and gets the type and the nullability of its definition. */
  lemma ChangeEffect(table: string, spec: Spec, t: Table)
    requires spec.tp == ChangeColumn && Expansion(table, spec).Some?
    ensures var c, old_ := NormalizeColumn(spec.newColumns[0]), Trim(spec.oldColumn.value);
      Effects(t, Expansion(table, spec).value)
      == if old_ !in t || (c.name != old_ && c.name in t) then None
         else Some((t - {old_})[c.name := Shape(c.tp, !c.notNull, t[old_].default_)])
  {
    var c, old_ := NormalizeColumn(spec.newColumns[0]), Trim(spec.oldColumn.value);
    var rename := if old_ != c.name then [Inner(RenameColumn(old_, c.name))] else [];
    EffectsAppend(t, rename, Inners(MutationSpecs(c, c.name)));
    if old_ != c.name {
      OneEffect(t, Inner(RenameColumn(old_, c.name)));
      if old_ in t && c.name !in t {
        var u := (t - {old_})[c.name := t[old_]];
        MutationEffect(u, c, c.name);
        assert u[c.name := Shape(c.tp, !c.notNull, t[old_].default_)] == (t - {old_})[c.name := Shape(c.tp, !c.notNull, t[old_].default_)];
      }
    } else {
      MutationEffect(t, c, c.name);
      if old_ in t {
        assert t[c.name := Shape(c.tp, !c.notNull, t[old_].default_)] == (t - {old_})[c.name := Shape(c.tp, !c.notNull, t[old_].default_)];
      }
    }
  }

  /** The other specs about columns. */
  lemma ColumnEffects(table: string, spec: Spec, t: Table)
    requires Expansion(table, spec).Some?
    ensures var r := Effects(t, Expansion(table, spec).value);
      && (spec.tp == AddColumns ==> var c := NormalizeColumn(spec.newColumns[0]);
            r == if c.name in t then None else Some(t[c.name := Shape(c.tp, !c.notNull, c.default_)]))
      && (spec.tp == DropColumnType ==> var n := Trim(spec.oldColumn.value); r == if n in t then Some(t - {n}) else None)
      && (spec.tp == AlterColumnType ==> var c := spec.newColumns[0].value;
            var n, text := Trim(c.name.value), if |c.options| == 1 then OptionText(c.options[0]) else "";
            r == if n in t then Some(t[n := t[n].(default_ := text)]) else None)
  {
    var items := Expansion(table, spec).value;
    if spec.tp == AddColumns || spec.tp == DropColumnType || spec.tp == AlterColumnType {
      OneEffect(t, items[0]);
      assert items == [items[0]];
    }
  }

  /** Keys and indexes leave the columns as they are. */
  lemma KeysKeepColumns(table: string, spec: Spec, t: Table)
    requires Expansion(table, spec).Some?
    requires spec.tp == AddConstraint || spec.tp == DropPrimaryKeyType || spec.tp == DropIndexType || spec.tp == DropForeignKeyType
    ensures Effects(t, Expansion(table, spec).value) == Some(t)
  {
    var items := Expansion(table, spec).value;
    OneEffect(t, items[0]);
    assert items == [items[0]];
  }

  /** The specs of a statement take effect in their order. */
  lemma EffectsInOrder(table: string, specs: seq<Option<Spec>>, t: Table)
    requires Supported(table, specs) && specs != []
    ensures Supported(table, specs[..|specs| - 1])
    ensures Effects(t, Expansions(table, specs))
         == match Effects(t, Expansions(table, specs[..|specs| - 1]))
            case None => None
            case Some(u) => Effects(u, ExpansionOf(table, specs[|specs| - 1]))
  {
    EffectsAppend(t, Expansions(table, specs[..|specs| - 1]), ExpansionOf(table, specs[|specs| - 1]));
  }

  /** The parts of a key come out in order, each with its column or expression, its length and its direction. */
  lemma {:induction false} PartsMade(parts: seq<Option<KeyPart>>)
    requires forall i :: 0 <= i < |parts| ==> parts[i].Some?
    ensures var r := NormalizeParts(parts);
      && |r| == |parts|
      && forall i :: 0 <= i < |parts| ==>
           && r[i].column == Trim(TextOf(parts[i].value.column)) && r[i].expr == TextOf(parts[i].value.expr)
           && r[i].length == parts[i].value.length && r[i].desc == parts[i].value.desc
  {
    if parts != [] {
      var n := |parts| - 1;
      PartsMade(parts[..n]);
      assert forall i :: 0 <= i < n ==> parts[..n][i] == parts[i];
      assert Trim("") == "";
    }
  }

  function TextOf(o: Option<string>): string { if o.Some? then o.value else "" }

  /** The constraints that are added, with the parts and the reference of the definition. */
  lemma ConstraintsAdded(table: string, spec: Spec)
    requires spec.tp == AddConstraint && Expansion(table, spec).Some?
    ensures var c, items := spec.constraint.value, Expansion(table, spec).value;
      && |items| == 1
      && (c.tp == PrimaryKey <==> items[0].Inner? && items[0].spec.AddPrimaryKey?)
      && (c.tp == ForeignKey <==> items[0].Inner? && items[0].spec.AddForeignKey?)
      && (IsUnique(c.tp) <==> items[0].Inner? && items[0].spec.AddUniqueKey?)
      && (c.tp == KeyConstraint || c.tp == IndexConstraint <==> items[0].Index? && items[0].statement.CreateIndex?)
    ensures spec.constraint.value.tp == ForeignKey ==>
      var c, added := spec.constraint.value, Expansion(table, spec).value[0].spec;
      && c.refer.Some? && added.name == Trim(c.name) && added.parts == NormalizeParts(c.keys)
      && added.reference.table == Trim(TextOf(c.refer.value.table)) && added.reference.parts == NormalizeParts(c.refer.value.parts)
      && added.reference.onDelete == c.refer.value.onDelete && added.reference.onUpdate == c.refer.value.onUpdate
  {
  }

  /** What is dropped keeps its name and its IF EXISTS. */
  lemma DropsMade(table: string, spec: Spec)
    requires Expansion(table, spec).Some?
    ensures spec.tp == DropPrimaryKeyType ==> Expansion(table, spec) == Some([Inner(DropPrimaryKey(spec.ifExists))])
    ensures spec.tp == DropForeignKeyType ==> Expansion(table, spec) == Some([Inner(DropForeignKey(Trim(spec.name), spec.ifExists))])
    ensures spec.tp == DropIndexType ==> Expansion(table, spec) == Some([Index(DropIndex(Trim(spec.name), spec.ifExists))])
  {
  }

  /** A single column at the default place. */
  predicate OneColumn(spec: Spec) { |spec.newColumns| == 1 && spec.newColumns[0].Some? && spec.atDefaultPosition }

  predicate Named(o: Option<string>) { o.Some? && Trim(o.value) != "" }

  /** Which specs are supported. */
  lemma SupportedExactly(table: string, spec: Spec)
    ensures spec.tp == AddColumns ==> (Expansion(table, spec).Some? <==> |spec.newColumns| == 1 && spec.newConstraints == 0 && spec.atDefaultPosition)
    ensures spec.tp == DropColumnType ==> (Expansion(table, spec).Some? <==> spec.oldColumn.Some?)
    ensures spec.tp == AlterColumnType ==>
      (Expansion(table, spec).Some? <==> |spec.newColumns| == 1 && spec.newColumns[0].Some? && spec.newColumns[0].value.name.Some?)
    ensures spec.tp == ModifyColumn ==> (Expansion(table, spec).Some? <==> OneColumn(spec))
    ensures spec.tp == ChangeColumn ==>
      (Expansion(table, spec).Some? <==> OneColumn(spec) && Named(spec.oldColumn) && Named(spec.newColumns[0].value.name))
    ensures spec.tp == AddConstraint ==>
      (Expansion(table, spec).Some? <==> spec.constraint.Some? && ConstraintSupported(spec.constraint.value))
    ensures spec.tp == OtherSpec ==> Expansion(table, spec).None?
  {
    if spec.tp == ChangeColumn && OneColumn(spec) { NameMade(spec.newColumns[0].value); }
    if spec.tp == AddConstraint && spec.constraint.Some? && spec.constraint.value.refer.Some? {
      PartsEmpty(spec.constraint.value.refer.value.parts);
    }
  }

  lemma NameMade(d: ColumnDef)
    ensures NormalizeColumn(Some(d)).name == Trim(TextOf(d.name))
  {
    match d.name
    case None => assert Trim("") == "";
    case Some(name) => ColumnMade(name, d.tp, d.options);
  }

  predicate ConstraintSupported(c: Constraint) {
    match c.tp
    case ForeignKey => c.refer.Some? && Named(c.refer.value.table) && exists i :: 0 <= i < |c.refer.value.parts| && c.refer.value.parts[i].Some?
    case KeyConstraint => Trim(c.name) != ""
    case IndexConstraint => Trim(c.name) != ""
    case OtherConstraint => false
    case _ => true
  }

  lemma {:induction false} PartsEmpty(parts: seq<Option<KeyPart>>)
    ensures NormalizeParts(parts) != [] <==> exists i :: 0 <= i < |parts| && parts[i].Some?
  {
    if parts != [] {
      var n := |parts| - 1;
      PartsEmpty(parts[..n]);
      assert forall i :: 0 <= i < n ==> parts[..n][i] == parts[i];
      if parts[n].None? && exists i :: 0 <= i < |parts| && parts[i].Some? {
        var i :| 0 <= i < |parts| && parts[i].Some?;
        assert parts[..n][i].Some?;
      }
    }
  }
}
