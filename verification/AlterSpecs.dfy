/**
 ALTER TABLE as it is parsed and as it is normalised, and what each spec stands for
 (internal/normalize/tidb_ddl.go:57-183, 279-301).
 */
module AlterSpecs {
  import opened Basics
  import opened Strings

  // ----- the parsed statement; expression texts are given, nil is None

  datatype OptionType = OptPrimaryKey | OptNotNull | OptNull | OptUniqKey | OptAutoIncrement | OptDefault | OptOnUpdate | OptOther

  datatype ColumnOption = ColumnOption(tp: OptionType, text: string)

  datatype ColumnDef = ColumnDef(name: Option<string>, tp: string, options: seq<Option<ColumnOption>>)

  datatype KeyPart = KeyPart(column: Option<string>, expr: Option<string>, length: int, desc: bool)

  datatype Reference = Reference(table: Option<string>, parts: seq<Option<KeyPart>>, match_: string, onDelete: string, onUpdate: string)

  datatype ConstraintType = PrimaryKey | Uniq | UniqKey | UniqIndex | ForeignKey | KeyConstraint | IndexConstraint | OtherConstraint

  datatype Constraint = Constraint(
    tp: ConstraintType, name: string, keys: seq<Option<KeyPart>>, ifNotExists: bool, refer: Option<Reference>)

  datatype SpecType =
    | AddColumns | DropColumnType | AlterColumnType | ModifyColumn | ChangeColumn | AddConstraint
    | DropPrimaryKeyType | DropIndexType | DropForeignKeyType | OtherSpec

  datatype Spec = Spec(
    tp: SpecType, newColumns: seq<Option<ColumnDef>>, newConstraints: nat,
    atDefaultPosition: bool,  // the position is present and is the default one
    oldColumn: Option<string>, constraint: Option<Constraint>, name: string, ifExists: bool)

  datatype AlterStmt = AlterStmt(table: string, specs: seq<Option<Spec>>)

  // ----- the normalised statements

  datatype Column = Column(name: string, tp: string, notNull: bool, primaryKey: bool, unique: bool, autoIncrement: bool, default_: string)

  datatype IndexPart = IndexPart(column: string, expr: string, length: int, desc: bool)

  datatype ForeignReference = ForeignReference(table: string, parts: seq<IndexPart>, match_: string, onDelete: string, onUpdate: string)

  datatype AlterSpec =
    | AddColumn(column: Column)
    | DropColumn(name: string)
    | SetDefault(name: string, text: string)
    | DropDefault(name: string)
    | AlterType(name: string, column: Column)
    | SetNotNull(name: string)
    | DropNotNull(name: string)
    | RenameColumn(name: string, newName: string)
    | AddPrimaryKey(parts: seq<IndexPart>)
    | AddUniqueKey(name: string, parts: seq<IndexPart>, ifNotExists: bool)
    | AddForeignKey(name: string, parts: seq<IndexPart>, ifNotExists: bool, reference: ForeignReference)
    | DropPrimaryKey(ifExists: bool)
    | DropForeignKey(name: string, ifExists: bool)

  datatype Statement =
    | Raw(sql: string)
    | AlterTableStatement(name: string, specs: seq<AlterSpec>)
    | CreateIndex(index: string, table: string, parts: seq<IndexPart>, ifNotExists: bool)
    | DropIndex(index: string, ifExists: bool)
    | Batch(statements: seq<Statement>)

  // ----- columns and keys

  const NO_COLUMN := Column("", "", false, false, false, false, "")

  function WithOption(c: Column, o: Option<ColumnOption>): Column {
    match o
    case None => c
    case Some(ColumnOption(tp, text)) =>
      match tp
      case OptPrimaryKey => c.(primaryKey := true)
      case OptNotNull => c.(notNull := true)
      case OptNull => c.(notNull := false)
      case OptUniqKey => c.(unique := true)
      case OptAutoIncrement => c.(autoIncrement := true)
      case OptDefault => c.(default_ := text)
      case OptOnUpdate => c
      case OptOther => c
  }

  /** Options apply left to right. */
  function WithOptions(c: Column, os: seq<Option<ColumnOption>>): Column {
    if os == [] then c else WithOption(WithOptions(c, os[..|os| - 1]), os[|os| - 1])
  }

  function NormalizeColumn(column: Option<ColumnDef>): Column {
    match column
    case None => NO_COLUMN
    case Some(ColumnDef(None, _, _)) => NO_COLUMN
    case Some(ColumnDef(Some(name), tp, options)) =>
      WithOptions(NO_COLUMN.(name := Trim(name), tp := Lower(Trim(tp))), options)
  }

  function NormalizeParts(parts: seq<Option<KeyPart>>): seq<IndexPart> {
    if parts == [] then [] else NormalizeParts(parts[..|parts| - 1]) + NormalizePart(parts[|parts| - 1])
  }

  function NormalizePart(part: Option<KeyPart>): seq<IndexPart> {
    match part
    case None => []
    case Some(p) =>
      [IndexPart(if p.column.Some? then Trim(p.column.value) else "", if p.expr.Some? then p.expr.value else "", p.length, p.desc)]
  }

  function NormalizeReference(r: Option<Reference>): Option<ForeignReference> {
    if r.None? || r.value.table.None? then None else
      var n := ForeignReference(
                 Trim(r.value.table.value), NormalizeParts(r.value.parts), r.value.match_, r.value.onDelete, r.value.onUpdate);
      if n.table == "" || n.parts == [] then None else Some(n)
  }

  function MutationSpecs(column: Column, target: string): seq<AlterSpec> {
    [AlterType(target, column), if column.notNull then SetNotNull(target) else DropNotNull(target)]
  }

  // ----- what one spec stands for

  /** One unit of the result: a spec inside an ALTER TABLE, or a statement of its own. */
  datatype Item = Inner(spec: AlterSpec) | Index(statement: Statement)

  function Inners(specs: seq<AlterSpec>): seq<Item> {
    if specs == [] then [] else Inners(specs[..|specs| - 1]) + [Inner(specs[|specs| - 1])]
  }

  predicate IsUnique(tp: ConstraintType) { tp == Uniq || tp == UniqKey || tp == UniqIndex }

  function OptionText(o: Option<ColumnOption>): string { if o.Some? then o.value.text else "" }

  /** The expansion of one spec in order, or None if it is not supported. */
  function Expansion(table: string, spec: Spec): Option<seq<Item>> {
    match spec.tp
    case AddColumns =>
      if |spec.newColumns| != 1 || spec.newConstraints != 0 || !spec.atDefaultPosition then None
      else Some([Inner(AddColumn(NormalizeColumn(spec.newColumns[0])))])
    case DropColumnType =>
      if spec.oldColumn.None? then None else Some([Inner(DropColumn(Trim(spec.oldColumn.value)))])
    case AlterColumnType =>
      if |spec.newColumns| != 1 || spec.newColumns[0].None? || spec.newColumns[0].value.name.None? then None
      else
        var c := spec.newColumns[0].value;
        // the one option, if there is one, is the new default
        if |c.options| == 1 then Some([Inner(SetDefault(Trim(c.name.value), OptionText(c.options[0])))])
        else Some([Inner(DropDefault(Trim(c.name.value)))])
    case ModifyColumn =>
      if |spec.newColumns| != 1 || spec.newColumns[0].None? || !spec.atDefaultPosition then None
      else
        var c := NormalizeColumn(spec.newColumns[0]);
        Some(Inners(MutationSpecs(c, c.name)))
    case ChangeColumn =>
      if |spec.newColumns| != 1 || spec.newColumns[0].None? || spec.oldColumn.None? || !spec.atDefaultPosition then None
      else
        var c, old_ := NormalizeColumn(spec.newColumns[0]), Trim(spec.oldColumn.value);
        if old_ == "" || c.name == "" then None
        else Some((if old_ != c.name then [Inner(RenameColumn(old_, c.name))] else []) + Inners(MutationSpecs(c, c.name)))
    case AddConstraint =>
      if spec.constraint.None? then None else ConstraintExpansion(table, spec.constraint.value)
    case DropPrimaryKeyType => Some([Inner(DropPrimaryKey(spec.ifExists))])
    case DropIndexType => Some([Index(DropIndex(Trim(spec.name), spec.ifExists))])
    case DropForeignKeyType => Some([Inner(DropForeignKey(Trim(spec.name), spec.ifExists))])
    case OtherSpec => None
  }

  function ConstraintExpansion(table: string, c: Constraint): Option<seq<Item>> {
    match c.tp
    case PrimaryKey => Some([Inner(AddPrimaryKey(NormalizeParts(c.keys)))])
    case ForeignKey =>
      (match NormalizeReference(c.refer)
       case None => None
       case Some(reference) => Some([Inner(AddForeignKey(Trim(c.name), NormalizeParts(c.keys), c.ifNotExists, reference))]))
    case KeyConstraint => IndexExpansion(table, c)
    case IndexConstraint => IndexExpansion(table, c)
    case OtherConstraint => None
    case _ => Some([Inner(AddUniqueKey(Trim(c.name), NormalizeParts(c.keys), c.ifNotExists))])
  }

  function IndexExpansion(table: string, c: Constraint): Option<seq<Item>> {
    if Trim(c.name) == "" then None
    else Some([Index(CreateIndex(Trim(c.name), table, NormalizeParts(c.keys), c.ifNotExists))])
  }

  predicate Supported(table: string, specs: seq<Option<Spec>>) {
    forall i :: 0 <= i < |specs| && specs[i].Some? ==> Expansion(table, specs[i].value).Some?
  }

  /** The expansions of the non-nil specs, in source order. */
  function Expansions(table: string, specs: seq<Option<Spec>>): seq<Item>
    requires Supported(table, specs)
  {
    if specs == [] then [] else Expansions(table, specs[..|specs| - 1]) + ExpansionOf(table, specs[|specs| - 1])
  }

  function ExpansionOf(table: string, spec: Option<Spec>): seq<Item>
    requires spec.Some? ==> Expansion(table, spec.value).Some?
  {
    if spec.None? then [] else Expansion(table, spec.value).value
  }
}
