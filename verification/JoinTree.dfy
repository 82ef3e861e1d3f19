/**
 Join trees, what they denote, and the re-association that the cross-join builder performs
 (internal/parser/tidb/ast/dml.go). ON conditions are symbols with a footprint; an environment
 gives them, the tables and the columns a meaning.
 */
module JoinTree {
  import opened Basics
  import opened JoinRows
  import opened Bags

  datatype On = On(id: nat, footprint: set<Table>)

  datatype Info = Info(on: Option<On>, using: seq<Column>, natural: bool, straight: bool, parens: bool)

  /** A join whose right operand is nil wraps a single operand; its other fields are kept. */
  datatype Tree =
    | Leaf(table: Table)
    | Wrap(inner: Tree, wtp: JoinType, winfo: Info)
    | Node(left: Tree, right: Tree, tp: JoinType, info: Info)

  const NO_INFO := Info(None, [], false, false, false)

  datatype Env = Env(tuples: Table -> seq<Tuple>, columns: Table -> set<Column>, holds: (nat, Row) -> bool)

  ghost function Tables(t: Tree): set<Table> {
    match t
    case Leaf(x) => {x}
    case Wrap(u, _, _) => Tables(u)
    case Node(l, r, _, _) => Tables(l) + Tables(r)
  }

  ghost predicate Distinct(t: Tree) {
    match t
    case Leaf(_) => true
    case Wrap(u, _, _) => Distinct(u)
    case Node(l, r, _, _) => Distinct(l) && Distinct(r) && Tables(l) !! Tables(r)
  }

  // ----- meaning

  ghost function Values(tables: set<Table>, c: Column, row: Row): set<int> {
    set t | t in tables && t in row && row[t].Some? && c in row[t].value :: row[t].value[c]
  }

  /** Column `c` has one value on either side, and it is the same. */
  ghost predicate SameValue(tl: set<Table>, tr: set<Table>, c: Column, row: Row) {
    exists v :: Values(tl, c, row) == {v} && Values(tr, c, row) == {v}
  }

  ghost predicate Common(tl: set<Table>, tr: set<Table>, c: Column, env: Env) {
    (exists a :: a in tl && c in env.columns(a)) && (exists b :: b in tr && c in env.columns(b))
  }

  ghost predicate CondHolds(info: Info, tl: set<Table>, tr: set<Table>, env: Env, row: Row) {
    && (info.on.Some? ==> env.holds(info.on.value.id, Restrict(row, info.on.value.footprint)))
    && (info.natural ==> forall c :: Common(tl, tr, c, env) ==> SameValue(tl, tr, c, row))
    && forall c :: c in info.using ==> SameValue(tl, tr, c, row)
  }

  ghost function Cond(info: Info, tl: set<Table>, tr: set<Table>, env: Env): Row -> bool {
    (row: Row) => CondHolds(info, tl, tr, env, row)
  }

  ghost function Single(table: Table): Tuple -> Row {
    (u: Tuple) => map[table := Some(u)]
  }

  /** The rows a join tree denotes. */
  ghost function Rows(t: Tree, env: Env): seq<Row> {
    match t
    case Leaf(x) => Map(env.tuples(x), Single(x))
    case Wrap(u, _, _) => Rows(u, env)
    case Node(l, r, tp, info) =>
      Join(Rows(l, env), Rows(r, env), tp, Cond(info, Tables(l), Tables(r), env), Tables(l), Tables(r))
  }

  // ----- the rewriting

  ghost function Crossed(a: Tree, t: Tree): Tree {
    Node(a, t, CrossJoin, NO_INFO)
  }

  ghost predicate Swaps(t: Tree) requires t.Node? {
    t.tp == RightJoin && t.info.parens
  }

  ghost function Spine(t: Tree): Tree requires t.Node? {
    if Swaps(t) then t.right else t.left
  }

  ghost function Other(t: Tree): Tree requires t.Node? {
    if Swaps(t) then t.left else t.right
  }

  ghost function SpineType(t: Tree): JoinType requires t.Node? {
    if Swaps(t) then LeftJoin else t.tp
  }

  /** The walk down the left spine: swap the parenthesised right joins, then cross `a` with the
      leftmost operand. */
  ghost function Graft(a: Tree, t: Tree): Tree
    requires t.Node?
  {
    Node(if Spine(t).Node? then Graft(a, Spine(t)) else Crossed(a, Spine(t)), Other(t), SpineType(t), t.info)
  }

  /** A join in parentheses is an operand as it stands, like a table. */
  ghost function CrossTree(a: Tree, t: Tree): Tree {
    if t.Node? && !t.info.parens then Graft(a, t) else Crossed(a, t)
  }

  // ----- when the rewriting keeps the meaning

  ghost predicate Merges(t: Tree) requires t.Node? {
    t.info.natural || t.info.using != []
  }

  ghost predicate BareRight(t: Tree) requires t.Node? {
    t.tp == RightJoin && !t.info.parens
  }

  /** No NATURAL, no USING and no unparenthesised RIGHT JOIN on the walked spine. */
  ghost predicate SafeSpine(t: Tree) requires t.Node? {
    !Merges(t) && !BareRight(t) && (Spine(t).Node? ==> SafeSpine(Spine(t)))
  }

  /** On the walked spine, ON conditions mention tables of their own join only. */
  ghost predicate Scoped(t: Tree) requires t.Node? {
    && (t.info.on.Some? ==> t.info.on.value.footprint <= Tables(t))
    && (Spine(t).Node? ==> Scoped(Spine(t)))
  }

  lemma {:induction false} RowsOver(t: Tree, env: Env)
    ensures Over(Rows(t, env), Tables(t))
  {
    match t
    case Leaf(x) =>
      forall row | row in Rows(t, env) ensures row.Keys == {x} { MapIn(env.tuples(x), Single(x), row); }
    case Wrap(u, _, _) => RowsOver(u, env);
    case Node(l, r, tp, info) =>
      RowsOver(l, env);
      RowsOver(r, env);
      JoinOver(Rows(l, env), Rows(r, env), tp, Cond(info, Tables(l), Tables(r), env), Tables(l), Tables(r));
  }

  lemma {:induction false} GraftTables(a: Tree, t: Tree)
    requires t.Node?
    ensures Tables(Graft(a, t)) == Tables(a) + Tables(t)
  {
    if Spine(t).Node? { GraftTables(a, Spine(t)); }
  }

  lemma SpineTables(t: Tree)
    requires t.Node?
    ensures Tables(t) == Tables(Spine(t)) + Tables(Other(t))
    ensures Distinct(t) ==> Distinct(Spine(t)) && Distinct(Other(t)) && Tables(Spine(t)) !! Tables(Other(t))
  {
  }

  ghost function GraftLeft(a: Tree, t: Tree): Tree requires t.Node? {
    if Spine(t).Node? then Graft(a, Spine(t)) else Crossed(a, Spine(t))
  }

  lemma GraftLeftTables(a: Tree, t: Tree)
    requires t.Node?
    ensures Tables(GraftLeft(a, t)) == Tables(a) + Tables(Spine(t))
  {
    if Spine(t).Node? { GraftTables(a, Spine(t)); }
  }

  lemma SameBagTrans(x: seq<Row>, y: seq<Row>, z: seq<Row>)
    requires SameBag(x, y) && SameBag(y, z)
    ensures SameBag(x, z)
  {
  }

  /** Replacing the left operand by one with the same tables and rows. */
  lemma LeftCongruence(g: Tree, h: Tree, r: Tree, tp: JoinType, info: Info, env: Env)
    requires Tables(g) == Tables(h) && Tables(g) !! Tables(r)
    requires SameBag(Rows(g, env), Rows(h, env))
    ensures SameBag(Rows(Node(g, r, tp, info), env), Rows(Node(h, r, tp, info), env))
  {
    RowsOver(g, env);
    RowsOver(h, env);
    RowsOver(r, env);
    var p := Cond(info, Tables(g), Tables(r), env);
    Congruence(Rows(g, env), Rows(h, env), Rows(r, env), Rows(r, env), tp, p, p, Tables(g), Tables(r));
  }

  lemma RightCongruence(a: Tree, g: Tree, h: Tree, env: Env)
    requires Tables(g) == Tables(h) && Tables(a) !! Tables(g)
    requires SameBag(Rows(g, env), Rows(h, env))
    ensures SameBag(Rows(Crossed(a, g), env), Rows(Crossed(a, h), env))
  {
    RowsOver(a, env);
    RowsOver(g, env);
    RowsOver(h, env);
    var p := Cond(NO_INFO, Tables(a), Tables(g), env);
    Congruence(Rows(a, env), Rows(a, env), Rows(g, env), Rows(h, env), CrossJoin, p, p, Tables(a), Tables(g));
  }

  /** The join that the walk leaves behind at one spine node, before anything is grafted. */
  ghost function Turned(t: Tree): Tree requires t.Node? {
    Node(Spine(t), Other(t), SpineType(t), t.info)
  }

  lemma SameValueSymmetric(tl: set<Table>, tr: set<Table>, c: Column, row: Row)
    ensures SameValue(tl, tr, c, row) == SameValue(tr, tl, c, row)
  {
  }

  lemma TurnKeepsRows(t: Tree, env: Env)
    requires t.Node? && Distinct(t)
    ensures SameBag(Rows(Turned(t), env), Rows(t, env))
  {
    if Swaps(t) {
      var tl, tr := Tables(t.left), Tables(t.right);
      var p, q := Cond(t.info, tl, tr, env), Cond(t.info, tr, tl, env);
      forall row: Row ensures p(row) == q(row) { CondSymmetric(t.info, tl, tr, env, row); }
      RowsOver(t.left, env);
      RowsOver(t.right, env);
      Swap(Rows(t.left, env), Rows(t.right, env), p, q, tl, tr);
    }
  }

  lemma CondSymmetric(info: Info, tl: set<Table>, tr: set<Table>, env: Env, row: Row)
    ensures CondHolds(info, tl, tr, env, row) == CondHolds(info, tr, tl, env, row)
  {
    forall c ensures SameValue(tl, tr, c, row) == SameValue(tr, tl, c, row) { SameValueSymmetric(tl, tr, c, row); }
    forall c ensures Common(tl, tr, c, env) == Common(tr, tl, c, env) { }
  }

  lemma CondLifts(info: Info, tx: set<Table>, tl: set<Table>, tr: set<Table>, env: Env, x: Row)
    requires !info.natural && info.using == []
    requires info.on.Some? ==> info.on.value.footprint <= tl + tr
    requires x.Keys == tx && tx !! tl + tr
    ensures Lifts(Cond(info, tx + tl, tr, env), Cond(info, tl, tr, env), x, tl + tr)
  {
    forall row: Row | row.Keys == tl + tr
      ensures CondHolds(info, tx + tl, tr, env, Glue(x, row)) == CondHolds(info, tl, tr, env, row)
    {
      if info.on.Some? {
        assert Restrict(Glue(x, row), info.on.value.footprint) == Restrict(row, info.on.value.footprint);
      }
    }
  }

  /** Crossing inside the left operand of a plain cross, inner or left join, or outside it. */
  lemma RegroupTrees(a: Tree, s: Tree, r: Tree, tp: JoinType, info: Info, env: Env)
    requires Tables(a) !! Tables(s) && Tables(a) !! Tables(r) && Tables(s) !! Tables(r)
    requires tp != RightJoin && !info.natural && info.using == []
    requires info.on.Some? ==> info.on.value.footprint <= Tables(s) + Tables(r)
    ensures SameBag(Rows(Node(Crossed(a, s), r, tp, info), env), Rows(Crossed(a, Node(s, r, tp, info)), env))
  {
    var ta, ts, tr := Tables(a), Tables(s), Tables(r);
    RowsOver(a, env);
    RowsOver(s, env);
    RowsOver(r, env);
    var p, q := Cond(info, ts, tr, env), Cond(info, ta + ts, tr, env);
    forall x: Row | x.Keys == ta ensures Lifts(q, p, x, ts + tr) { CondLifts(info, ta, ts, tr, env, x); }
    var any, any' := Cond(NO_INFO, ta, ts, env), Cond(NO_INFO, ta, ts + tr, env);
    Regroup(Rows(a, env), Rows(s, env), Rows(r, env), tp, p, q, any, ta, ts, tr);
    JoinOver(Rows(s, env), Rows(r, env), tp, p, ts, tr);
    var sr := Join(Rows(s, env), Rows(r, env), tp, p, ts, tr);
    Congruence(Rows(a, env), Rows(a, env), sr, sr, CrossJoin, any, any', ta, ts + tr);
  }

  /** Sufficiency: on a safe spine the grafted tree is the cross of the two operands. */
  lemma {:induction false} GraftPreserves(a: Tree, t: Tree, env: Env)
    requires t.Node? && Distinct(a) && Distinct(t) && Tables(a) !! Tables(t)
    requires SafeSpine(t) && Scoped(t)
    ensures SameBag(Rows(Graft(a, t), env), Rows(Crossed(a, t), env))
  {
    SpineTables(t);
    var s, r, g := Spine(t), Other(t), GraftLeft(a, t);
    if s.Node? { GraftPreserves(a, s, env); }
    GraftLeftTables(a, t);
    LeftCongruence(g, Crossed(a, s), r, SpineType(t), t.info, env);
    RegroupTrees(a, s, r, SpineType(t), t.info, env);
    TurnKeepsRows(t, env);
    RightCongruence(a, Turned(t), t, env);
    SameBagTrans(Rows(Graft(a, t), env), Rows(Node(Crossed(a, s), r, SpineType(t), t.info), env), Rows(Crossed(a, Turned(t)), env));
    SameBagTrans(Rows(Graft(a, t), env), Rows(Crossed(a, Turned(t)), env), Rows(Crossed(a, t), env));
  }
}
