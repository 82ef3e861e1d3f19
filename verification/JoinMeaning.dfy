/**
 Exactly when the cross-join builder keeps the meaning of a query: the two theorems and the
 environments that separate the trees when it does not.
 */
module JoinMeaning {
  import opened Basics
  import opened JoinRows
  import opened JoinTree
  import opened Bags

  // ----- environments with one tuple, or none, per table

  ghost function Uniform(cols: set<Column>, v: int): Tuple {
    map c | c in cols :: v
  }

  /** The tables of `ta` are empty, every other table holds one tuple of zeros. */
  ghost function EmptyEnv(ta: set<Table>, cols: set<Column>): Env {
    Env(x => if x in ta then [] else [Uniform(cols, 0)], _ => cols, (_, _) => true)
  }

  /** Every table holds one tuple: ones in the tables of `ta`, zeros elsewhere. */
  ghost function MarkedEnv(ta: set<Table>, cols: set<Column>): Env {
    Env(x => [Uniform(cols, if x in ta then 1 else 0)], _ => cols, (_, _) => true)
  }

  ghost function UsingColumns(t: Tree): set<Column> {
    match t
    case Leaf(_) => {}
    case Wrap(u, _, _) => UsingColumns(u)
    case Node(l, r, _, info) => UsingColumns(l) + UsingColumns(r) + (set c | c in info.using)
  }

  lemma {:induction false} TablesNonempty(t: Tree)
    ensures Tables(t) != {}
  {
    match t
    case Leaf(_) =>
    case Wrap(u, _, _) => TablesNonempty(u);
    case Node(l, _, _, _) => TablesNonempty(l);
  }

  /** A row in which every present table outside `ta` holds zeros, no table of `ta` is present,
      and some table is. */
  ghost predicate Plainly(row: Row, ta: set<Table>, cols: set<Column>) {
    && (forall x :: x in row && row[x].Some? ==> x !in ta && row[x] == Some(Uniform(cols, 0)))
    && exists x :: x in row && row[x].Some?
  }

  lemma PlainValues(row: Row, half: Row, ta: set<Table>, cols: set<Column>, c: Column)
    requires Plainly(half, ta, cols) && c in cols
    requires forall x :: x in half ==> x in row && row[x] == half[x]
    ensures Values(half.Keys, c, row) == {0}
  {
    var x :| x in half && half[x].Some?;
    assert row[x] == half[x] && row[x].value[c] == 0;
    assert 0 in Values(half.Keys, c, row);
  }

  lemma PlainCondHolds(info: Info, l: Row, r: Row, ta: set<Table>, cols: set<Column>)
    requires Plainly(l, ta, cols) && Plainly(r, ta, cols) && l.Keys !! r.Keys
    requires forall c :: c in info.using ==> c in cols
    ensures CondHolds(info, l.Keys, r.Keys, EmptyEnv(ta, cols), Glue(l, r))
  {
    forall c | c in cols ensures SameValue(l.Keys, r.Keys, c, Glue(l, r)) {
      PlainValues(Glue(l, r), l, ta, cols, c);
      PlainValues(Glue(l, r), r, ta, cols, c);
    }
    TablePresent(l);
    forall c | Common(l.Keys, r.Keys, c, EmptyEnv(ta, cols)) ensures c in cols { }
  }

  lemma TablePresent(l: Row)
    requires exists x :: x in l && l[x].Some?
    ensures l.Keys != {}
  {
  }

  lemma PlainGlue(l: Row, r: Row, ta: set<Table>, cols: set<Column>)
    requires l.Keys !! r.Keys
    requires Plainly(l, ta, cols) || Plainly(r, ta, cols)
    requires Plainly(l, ta, cols) || l == Nulls(l.Keys)
    requires Plainly(r, ta, cols) || r == Nulls(r.Keys)
    ensures Plainly(Glue(l, r), ta, cols)
  {
    if Plainly(l, ta, cols) {
      var x :| x in l && l[x].Some?;
      assert Glue(l, r)[x] == l[x];
    } else {
      var x :| x in r && r[x].Some?;
      assert Glue(l, r)[x] == r[x];
    }
  }

  lemma {:induction false} RowsPlain(t: Tree, ta: set<Table>, cols: set<Column>)
    requires Distinct(t)
    ensures forall row :: row in Rows(t, EmptyEnv(ta, cols)) ==> Plainly(row, ta, cols)
  {
    var env := EmptyEnv(ta, cols);
    match t
    case Leaf(x) =>
      forall row: Row | row in Rows(t, env) ensures Plainly(row, ta, cols) {
        MapIn(env.tuples(x), Single(x), row);
        assert x in row && row[x].Some?;
      }
    case Wrap(u, _, _) => RowsPlain(u, ta, cols);
    case Node(l, r, tp, info) =>
      RowsPlain(l, ta, cols);
      RowsPlain(r, ta, cols);
      RowsOver(l, env);
      RowsOver(r, env);
      forall row | row in Rows(t, env) ensures Plainly(row, ta, cols) {
        JoinPlain(Rows(l, env), Rows(r, env), tp, Cond(info, Tables(l), Tables(r), env), Tables(l), Tables(r), ta, cols, row);
      }
  }

  lemma JoinPlain(ls: seq<Row>, rs: seq<Row>, tp: JoinType, p: Row -> bool, tl: set<Table>, tr: set<Table>,
                  ta: set<Table>, cols: set<Column>, row: Row)
    requires Over(ls, tl) && Over(rs, tr) && tl !! tr
    requires forall l :: l in ls ==> Plainly(l, ta, cols)
    requires forall r :: r in rs ==> Plainly(r, ta, cols)
    requires row in Join(ls, rs, tp, p, tl, tr)
    ensures Plainly(row, ta, cols)
  {
    JoinFrom(ls, rs, tp, p, tl, tr, row);
    forall l, r | l in ls && r in rs ensures Plainly(l + r, ta, cols) { PlainGlue(l, r, ta, cols); }
    forall l | l in ls ensures Plainly(l + Nulls(tr), ta, cols) { PlainPadded(l, tr, ta, cols); }
    forall r | r in rs ensures Plainly(Nulls(tl) + r, ta, cols) { PlainPadded(r, tl, ta, cols); }
  }

  lemma PlainPadded(l: Row, tables: set<Table>, ta: set<Table>, cols: set<Column>)
    requires Plainly(l, ta, cols) && l.Keys !! tables
    ensures Plainly(l + Nulls(tables), ta, cols) && Plainly(Nulls(tables) + l, ta, cols)
  {
    PlainGlue(l, Nulls(tables), ta, cols);
    PlainGlue(Nulls(tables), l, ta, cols);
  }

  /** A matching pair of operand rows is a row of the join, whatever its type. */
  lemma PairInJoin(ls: seq<Row>, rs: seq<Row>, tp: JoinType, p: Row -> bool, tl: set<Table>, tr: set<Table>, l: Row, r: Row)
    requires l in ls && r in rs && p(Glue(l, r))
    ensures Glue(l, r) in Join(ls, rs, tp, p, tl, tr)
  {
    MatchedHas(ls, rs, Glue, p, l, r);
  }

  lemma RightRowsStay(ls: seq<Row>, rs: seq<Row>, p: Row -> bool, tl: set<Table>, tr: set<Table>)
    requires ls == [] && rs != []
    ensures Join(ls, rs, RightJoin, p, tl, tr) != []
  {
    UnmatchedIn(rs, ls, Eulg, p, rs[0]);
    MapIn(Unmatched(rs, ls, Eulg, p), PadLeft(tl), PadLeft(tl)(rs[0]));
  }

  /** In the empty environment any two operand rows match, so nonempty operands join to something. */
  lemma PlainPair(g: Tree, r: Tree, tp: JoinType, info: Info, ta: set<Table>, cols: set<Column>, l: Row) returns (row: Row)
    requires Distinct(g) && Distinct(r) && Tables(g) !! Tables(r)
    requires forall c :: c in info.using ==> c in cols
    requires l in Rows(g, EmptyEnv(ta, cols)) && Rows(r, EmptyEnv(ta, cols)) != []
    ensures row in Rows(Node(g, r, tp, info), EmptyEnv(ta, cols))
    ensures exists rr: Row :: rr.Keys == Tables(r) && row == Glue(l, rr)
  {
    var env := EmptyEnv(ta, cols);
    RowsOver(g, env);
    RowsOver(r, env);
    RowsPlain(g, ta, cols);
    RowsPlain(r, ta, cols);
    var rr := Rows(r, env)[0];
    PlainCondHolds(info, l, rr, ta, cols);
    row := Glue(l, rr);
    PairInJoin(Rows(g, env), Rows(r, env), tp, Cond(info, Tables(g), Tables(r), env), Tables(g), Tables(r), l, rr);
  }

  lemma {:induction false} RowsNonempty(t: Tree, ta: set<Table>, cols: set<Column>)
    requires Distinct(t) && Tables(t) !! ta && UsingColumns(t) <= cols
    ensures Rows(t, EmptyEnv(ta, cols)) != []
  {
    var env := EmptyEnv(ta, cols);
    match t
    case Leaf(x) =>
      assert env.tuples(x) == [Uniform(cols, 0)];
    case Wrap(u, _, _) => RowsNonempty(u, ta, cols);
    case Node(l, r, tp, info) =>
      RowsNonempty(l, ta, cols);
      RowsNonempty(r, ta, cols);
      var row := PlainPair(l, r, tp, info, ta, cols, Rows(l, env)[0]);
  }

  lemma {:induction false} RowsEmpty(t: Tree, ta: set<Table>, cols: set<Column>)
    requires Tables(t) <= ta
    ensures Rows(t, EmptyEnv(ta, cols)) == []
  {
    var env := EmptyEnv(ta, cols);
    match t
    case Leaf(x) =>
    case Wrap(u, _, _) => RowsEmpty(u, ta, cols);
    case Node(l, r, tp, info) =>
      RowsEmpty(l, ta, cols);
      RowsEmpty(r, ta, cols);
  }

  lemma CrossedEmpty(a: Tree, t: Tree, cols: set<Column>)
    ensures Rows(Crossed(a, t), EmptyEnv(Tables(a), cols)) == []
  {
    RowsEmpty(a, Tables(a), cols);
  }

  // ----- an unparenthesised RIGHT JOIN on the spine

  ghost predicate HasBareRight(t: Tree) requires t.Node? {
    BareRight(t) || (Spine(t).Node? && HasBareRight(Spine(t)))
  }

  ghost predicate HasMerge(t: Tree) requires t.Node? {
    Merges(t) || (Spine(t).Node? && HasMerge(Spine(t)))
  }

  lemma {:induction false} UnsafeReasons(t: Tree)
    requires t.Node?
    ensures SafeSpine(t) <==> !HasBareRight(t) && !HasMerge(t)
  {
    if Spine(t).Node? { UnsafeReasons(Spine(t)); }
  }

  lemma {:induction false} GraftDistinct(a: Tree, t: Tree)
    requires t.Node? && Distinct(a) && Distinct(t) && Tables(a) !! Tables(t)
    ensures Distinct(Graft(a, t))
  {
    SpineTables(t);
    GraftLeftTables(a, t);
    if Spine(t).Node? { GraftDistinct(a, Spine(t)); }
  }

  lemma {:induction false} BareRightShows(a: Tree, t: Tree, cols: set<Column>)
    requires t.Node? && Distinct(a) && Distinct(t) && Tables(a) !! Tables(t)
    requires UsingColumns(t) <= cols && HasBareRight(t)
    ensures Rows(Graft(a, t), EmptyEnv(Tables(a), cols)) != []
  {
    var env, g, r := EmptyEnv(Tables(a), cols), GraftLeft(a, t), Other(t);
    SpineTables(t);
    GraftLeftTables(a, t);
    RowsNonempty(r, Tables(a), cols);
    if Spine(t).Node? { GraftDistinct(a, Spine(t)); }
    if Rows(g, env) == [] {
      if !BareRight(t) { BareRightShows(a, Spine(t), cols); }
      RightRowsStay(Rows(g, env), Rows(r, env), Cond(t.info, Tables(g), Tables(r), env), Tables(g), Tables(r));
    } else {
      var row := PlainPair(g, r, SpineType(t), t.info, Tables(a), cols, Rows(g, env)[0]);
    }
  }

  // ----- NATURAL or USING on the spine

  /** The row in which every table is present, with its only tuple. */
  ghost function FullRow(tables: set<Table>, ta: set<Table>, cols: set<Column>): Row {
    map x | x in tables :: Some(Uniform(cols, if x in ta then 1 else 0))
  }

  lemma FullGlue(tl: set<Table>, tr: set<Table>, ta: set<Table>, cols: set<Column>)
    requires tl !! tr
    ensures FullRow(tl + tr, ta, cols) == Glue(FullRow(tl, ta, cols), FullRow(tr, ta, cols))
  {
  }

  lemma FullValues(half: set<Table>, tables: set<Table>, ta: set<Table>, cols: set<Column>, c: Column, x: Table)
    requires half <= tables && c in cols && x in half
    ensures (if x in ta then 1 else 0) in Values(half, c, FullRow(tables, ta, cols))
    ensures half !! ta ==> Values(half, c, FullRow(tables, ta, cols)) == {0}
    ensures half <= ta ==> Values(half, c, FullRow(tables, ta, cols)) == {1}
  {
    var row := FullRow(tables, ta, cols);
    assert row[x].value[c] == if x in ta then 1 else 0;
  }

  lemma {:induction false} FullRowIn(t: Tree, ta: set<Table>, cols: set<Column>)
    requires Distinct(t) && (Tables(t) <= ta || Tables(t) !! ta) && UsingColumns(t) <= cols
    ensures FullRow(Tables(t), ta, cols) in Rows(t, MarkedEnv(ta, cols))
  {
    var env := MarkedEnv(ta, cols);
    match t
    case Leaf(x) =>
      assert env.tuples(x)[0] in env.tuples(x);
      assert FullRow({x}, ta, cols) == Single(x)(env.tuples(x)[0]);
      MapIn(env.tuples(x), Single(x), FullRow({x}, ta, cols));
    case Wrap(u, _, _) => FullRowIn(u, ta, cols);
    case Node(l, r, tp, info) =>
      FullRowIn(l, ta, cols);
      FullRowIn(r, ta, cols);
      FullGlue(Tables(l), Tables(r), ta, cols);
      FullCondHolds(l, r, info, ta, cols);
      PairInJoin(Rows(l, env), Rows(r, env), tp, Cond(info, Tables(l), Tables(r), env), Tables(l), Tables(r),
                 FullRow(Tables(l), ta, cols), FullRow(Tables(r), ta, cols));
  }

  lemma FullCondHolds(l: Tree, r: Tree, info: Info, ta: set<Table>, cols: set<Column>)
    requires Tables(l) + Tables(r) <= ta || Tables(l) + Tables(r) !! ta
    requires forall c :: c in info.using ==> c in cols
    ensures CondHolds(info, Tables(l), Tables(r), MarkedEnv(ta, cols), FullRow(Tables(l) + Tables(r), ta, cols))
  {
    TablesNonempty(l);
    TablesNonempty(r);
    var x :| x in Tables(l);
    var y :| y in Tables(r);
    forall c | c in cols ensures SameValue(Tables(l), Tables(r), c, FullRow(Tables(l) + Tables(r), ta, cols)) {
      FullValues(Tables(l), Tables(l) + Tables(r), ta, cols, c, x);
      FullValues(Tables(r), Tables(l) + Tables(r), ta, cols, c, y);
    }
    forall c | Common(Tables(l), Tables(r), c, MarkedEnv(ta, cols)) ensures c in cols { }
  }

  lemma FullInCrossed(a: Tree, t: Tree, cols: set<Column>)
    requires Distinct(Crossed(a, t)) && UsingColumns(a) + UsingColumns(t) <= cols
    ensures FullRow(Tables(a) + Tables(t), Tables(a), cols) in Rows(Crossed(a, t), MarkedEnv(Tables(a), cols))
  {
    var ta, env := Tables(a), MarkedEnv(Tables(a), cols);
    FullRowIn(a, ta, cols);
    FullRowIn(t, ta, cols);
    FullGlue(ta, Tables(t), ta, cols);
    PairInJoin(Rows(a, env), Rows(t, env), CrossJoin, Cond(NO_INFO, ta, Tables(t), env), ta, Tables(t),
               FullRow(ta, ta, cols), FullRow(Tables(t), ta, cols));
  }

  /** A full row of a join comes from a full row of its left operand, and satisfies the condition. */
  lemma FullFromLeft(g: Tree, r: Tree, tp: JoinType, info: Info, ta: set<Table>, cols: set<Column>)
    requires Distinct(g) && Distinct(r) && Tables(g) !! Tables(r)
    requires FullRow(Tables(g) + Tables(r), ta, cols) in Rows(Node(g, r, tp, info), MarkedEnv(ta, cols))
    ensures FullRow(Tables(g), ta, cols) in Rows(g, MarkedEnv(ta, cols))
    ensures CondHolds(info, Tables(g), Tables(r), MarkedEnv(ta, cols), FullRow(Tables(g) + Tables(r), ta, cols))
  {
    var env, tg, tr := MarkedEnv(ta, cols), Tables(g), Tables(r);
    RowsOver(g, env);
    RowsOver(r, env);
    TablesNonempty(g);
    TablesNonempty(r);
    FullMatched(Rows(g, env), Rows(r, env), tp, Cond(info, tg, tr, env), tg, tr, ta, cols);
  }

  lemma FullMatched(ls: seq<Row>, rs: seq<Row>, tp: JoinType, p: Row -> bool, tg: set<Table>, tr: set<Table>,
                    ta: set<Table>, cols: set<Column>)
    requires Over(ls, tg) && Over(rs, tr) && tg !! tr && tg != {} && tr != {}
    requires FullRow(tg + tr, ta, cols) in Join(ls, rs, tp, p, tg, tr)
    ensures FullRow(tg, ta, cols) in ls && p(FullRow(tg + tr, ta, cols))
  {
    var row := FullRow(tg + tr, ta, cols);
    JoinFrom(ls, rs, tp, p, tg, tr, row);
    FullNotPadded(tg, tr, ta, cols, ls, rs);
    FullGlue(tg, tr, ta, cols);
    forall l, r | l in ls && r in rs && row == l + r ensures l == FullRow(tg, ta, cols) {
      GlueInjective(l, r, FullRow(tg, ta, cols), FullRow(tr, ta, cols));
    }
  }

  lemma FullNotPadded(tg: set<Table>, tr: set<Table>, ta: set<Table>, cols: set<Column>, ls: seq<Row>, rs: seq<Row>)
    requires Over(ls, tg) && Over(rs, tr) && tg !! tr && tg != {} && tr != {}
    ensures !exists l :: l in ls && FullRow(tg + tr, ta, cols) == l + Nulls(tr)
    ensures !exists r :: r in rs && FullRow(tg + tr, ta, cols) == Nulls(tg) + r
  {
    var row := FullRow(tg + tr, ta, cols);
    var x :| x in tg;
    var y :| y in tr;
    assert row[x].Some? && row[y].Some?;
    forall l | l in ls ensures row != l + Nulls(tr) { assert (l + Nulls(tr))[y] == None; }
    forall r | r in rs ensures row != Nulls(tg) + r { assert x !in r && (Nulls(tg) + r)[x] == None; }
  }

  lemma {:induction false} MergeHides(a: Tree, t: Tree, cols: set<Column>)
    requires t.Node? && Distinct(a) && Distinct(t) && Tables(a) !! Tables(t)
    requires UsingColumns(t) <= cols && cols != {} && HasMerge(t)
    ensures FullRow(Tables(a) + Tables(t), Tables(a), cols) !in Rows(Graft(a, t), MarkedEnv(Tables(a), cols))
  {
    var ta, g, r := Tables(a), GraftLeft(a, t), Other(t);
    SpineTables(t);
    GraftLeftTables(a, t);
    if Spine(t).Node? { GraftDistinct(a, Spine(t)); }
    assert Tables(a) + Tables(t) == Tables(g) + Tables(r);
    if FullRow(Tables(g) + Tables(r), ta, cols) in Rows(Graft(a, t), MarkedEnv(ta, cols)) {
      FullFromLeft(g, r, SpineType(t), t.info, ta, cols);
      if Merges(t) {
        MergeFails(a, g, r, t.info, cols);
      } else {
        MergeHides(a, Spine(t), cols);
      }
    }
  }

  lemma MergeFails(a: Tree, g: Tree, r: Tree, info: Info, cols: set<Column>)
    requires info.natural || info.using != []
    requires Tables(a) <= Tables(g) && Tables(a) !! Tables(r) && cols != {} && forall c :: c in info.using ==> c in cols
    ensures !CondHolds(info, Tables(g), Tables(r), MarkedEnv(Tables(a), cols), FullRow(Tables(g) + Tables(r), Tables(a), cols))
  {
    var ta, env := Tables(a), MarkedEnv(Tables(a), cols);
    TablesNonempty(a);
    TablesNonempty(r);
    var x :| x in ta;
    var y :| y in Tables(r);
    forall c | c in cols ensures !SameValue(Tables(g), Tables(r), c, FullRow(Tables(g) + Tables(r), ta, cols)) {
      FullValues(Tables(g), Tables(g) + Tables(r), ta, cols, c, x);
      FullValues(Tables(r), Tables(g) + Tables(r), ta, cols, c, y);
    }
    if info.natural {
      var c :| c in cols;
      assert c in env.columns(x) && c in env.columns(y);
      assert Common(Tables(g), Tables(r), c, env);
    } else {
      assert info.using[0] in cols;
    }
  }

  // ----- theorem 1: the cross of the two operands as they stand

  /** Two trees denote the same rows, with the same multiplicities, in every environment. */
  ghost predicate SameQuery(x: Tree, y: Tree) {
    forall env :: SameBag(Rows(x, env), Rows(y, env))
  }

  /** The cross of two operands as they stand. */
  ghost function CrossOf(a: Tree, t: Tree): Tree {
    Node(a, t, CrossJoin, Info(None, [], false, false, false))
  }

  /** The built tree denotes the cross of the two operands exactly when the right one is no join, or a join in
      parentheses, or a join whose walked spine has no NATURAL, no USING and no RIGHT JOIN without parentheses. */
  lemma CrossPreservedExactly(a: Tree, t: Tree)
    requires Distinct(CrossOf(a, t)) && (t.Node? && !t.info.parens ==> Scoped(t))
    ensures SameQuery(CrossTree(a, t), CrossOf(a, t)) <==> !t.Node? || t.info.parens || SafeSpine(t)
  {
    if t.Node? && !t.info.parens {
      if SafeSpine(t) {
        forall env ensures SameBag(Rows(CrossTree(a, t), env), Rows(CrossOf(a, t), env)) { GraftPreserves(a, t, env); }
      } else {
        var env := Separation(a, t);
      }
    }
  }

  /** An environment in which an unsafe spine shows. */
  lemma Separation(a: Tree, t: Tree) returns (env: Env)
    requires t.Node? && Distinct(CrossOf(a, t)) && !SafeSpine(t)
    ensures !SameBag(Rows(Graft(a, t), env), Rows(CrossOf(a, t), env))
  {
    var cols := UsingColumns(a) + UsingColumns(t) + {"c"};
    UnsafeReasons(t);
    assert "c" in cols;
    if HasBareRight(t) {
      env := EmptyEnv(Tables(a), cols);
      CrossedEmpty(a, t, cols);
      BareRightShows(a, t, cols);
      SameBagSep(Rows(Graft(a, t), env), Rows(Crossed(a, t), env), Rows(Graft(a, t), env)[0]);
    } else {
      env := MarkedEnv(Tables(a), cols);
      FullInCrossed(a, t, cols);
      MergeHides(a, t, cols);
      SameBagSep(Rows(Graft(a, t), env), Rows(Crossed(a, t), env), FullRow(Tables(a) + Tables(t), Tables(a), cols));
    }
  }

  lemma SameBagSep(x: seq<Row>, y: seq<Row>, row: Row)
    requires row in x <==> row !in y
    ensures !SameBag(x, y)
  {
    if SameBag(x, y) { SameBagIn(x, y, row); }
  }

  // ----- theorem 2: joins written without parentheses associate to the left

  /** The query `a JOIN t` when the joins of `t` written without parentheses associate to the left:
      `a` joins the leftmost operand, a parenthesised join counting as one operand. */
  ghost function ByPrecedence(a: Tree, t: Tree): Tree {
    if t.Node? && !t.info.parens then Node(ByPrecedence(a, t.left), t.right, t.tp, t.info) else CrossOf(a, t)
  }

  /** The parenthesised join at which left association stops, if it stops at one. */
  ghost function FirstParens(t: Tree): (p: Option<Tree>)
    ensures p.Some? ==> p.value.Node?
  {
    if !t.Node? then None else if t.info.parens then Some(t) else FirstParens(t.left)
  }

  /** An operand that is itself in parentheses is not walked. */
  ghost predicate FirstParensSafe(t: Tree) {
    t.Node? && !t.info.parens && FirstParens(t).Some? ==> SafeSpine(FirstParens(t).value)
  }

  /** ON conditions inside the first parenthesised join stay within their own join; outside it
      they may mention any table, also those of the left operand. */
  ghost predicate FirstParensScoped(t: Tree) {
    FirstParens(t).Some? ==> Scoped(FirstParens(t).value)
  }

  ghost predicate Unmerged(t: Tree) {
    t.Node? && !t.info.parens ==> !Merges(t) && Unmerged(t.left)
  }

  lemma {:induction false} PrecedenceTables(a: Tree, t: Tree)
    requires Distinct(Crossed(a, t))
    ensures Tables(ByPrecedence(a, t)) == Tables(a) + Tables(t) && Distinct(ByPrecedence(a, t))
  {
    if t.Node? && !t.info.parens { PrecedenceTables(a, t.left); }
  }

  /** What the walk leaves at a subtree of the left spine. */
  ghost function Below(a: Tree, t: Tree): Tree {
    if t.Node? then Graft(a, t) else Crossed(a, t)
  }

  lemma BelowTables(a: Tree, t: Tree)
    requires Distinct(Crossed(a, t))
    ensures Tables(Below(a, t)) == Tables(a) + Tables(t) && Distinct(Below(a, t))
  {
    if t.Node? { GraftTables(a, t); GraftDistinct(a, t); }
  }

  lemma {:induction false} PrecedenceBelow(a: Tree, t: Tree, env: Env)
    requires Distinct(Crossed(a, t)) && FirstParensScoped(t)
    requires FirstParens(t).Some? ==> SafeSpine(FirstParens(t).value)
    ensures SameBag(Rows(Below(a, t), env), Rows(ByPrecedence(a, t), env))
  {
    if t.Node? && !t.info.parens {
      PrecedenceBelow(a, t.left, env);
      PrecedenceTables(a, t.left);
      BelowTables(a, t.left);
      LeftCongruence(Below(a, t.left), ByPrecedence(a, t.left), t.right, t.tp, t.info, env);
    } else if t.Node? {
      GraftPreserves(a, t, env);
    }
  }

  /** Left association is kept whenever the join it stops at has a safe spine. */
  lemma PrecedenceKept(a: Tree, t: Tree)
    requires Distinct(CrossOf(a, t)) && (t.Node? && !t.info.parens ==> FirstParensScoped(t)) && FirstParensSafe(t)
    ensures SameQuery(CrossTree(a, t), ByPrecedence(a, t))
  {
    if t.Node? && !t.info.parens {
      forall env ensures SameBag(Rows(CrossTree(a, t), env), Rows(ByPrecedence(a, t), env)) { PrecedenceBelow(a, t, env); }
    }
  }

  ghost predicate Touches(row: Row, tables: set<Table>) {
    exists x :: x in tables && x in row && row[x].Some?
  }

  lemma {:induction false} BareRightTouches(a: Tree, t: Tree, cols: set<Column>) returns (row: Row)
    requires Distinct(Crossed(a, t)) && UsingColumns(t) <= cols
    requires FirstParens(t).Some? && HasBareRight(FirstParens(t).value)
    ensures row in Rows(Below(a, t), EmptyEnv(Tables(a), cols))
    ensures Touches(row, Tables(FirstParens(t).value))
  {
    var ta, env := Tables(a), EmptyEnv(Tables(a), cols);
    if t.Node? && !t.info.parens {
      var l := BareRightTouches(a, t.left, cols);
      BelowTables(a, t.left);
      RowsNonempty(t.right, ta, cols);
      row := PlainPair(Below(a, t.left), t.right, t.tp, t.info, ta, cols, l);
      RowsOver(Below(a, t.left), env);
    } else {
      BareRightShows(a, t, cols);
      row := Rows(Graft(a, t), env)[0];
      BelowTables(a, t);
      RowsPlain(Graft(a, t), ta, cols);
      RowsOver(Graft(a, t), env);
    }
  }

  lemma {:induction false} PrecedenceMisses(a: Tree, t: Tree, cols: set<Column>, row: Row)
    requires Distinct(Crossed(a, t)) && FirstParens(t).Some?
    requires row in Rows(ByPrecedence(a, t), EmptyEnv(Tables(a), cols))
    ensures !Touches(row, Tables(FirstParens(t).value))
  {
    var env := EmptyEnv(Tables(a), cols);
    if t.Node? && !t.info.parens {
      var g, tf := ByPrecedence(a, t.left), Tables(FirstParens(t).value);
      PrecedenceTables(a, t.left);
      FirstParensTables(t.left);
      RowsOver(g, env);
      RowsOver(t.right, env);
      JoinFrom(Rows(g, env), Rows(t.right, env), t.tp, Cond(t.info, Tables(g), Tables(t.right), env), Tables(g), Tables(t.right), row);
      if l: Row, r: Row :| l in Rows(g, env) && r.Keys == Tables(t.right) && row == l + r {
        PrecedenceMisses(a, t.left, cols, l);
      }
    } else {
      CrossedEmpty(a, t, cols);
    }
  }

  lemma {:induction false} FirstParensTables(t: Tree)
    requires FirstParens(t).Some?
    ensures Tables(FirstParens(t).value) <= Tables(t)
  {
    if t.Node? && !t.info.parens { FirstParensTables(t.left); }
  }

  lemma {:induction false} PrecedenceHasFull(a: Tree, t: Tree, cols: set<Column>)
    requires Distinct(Crossed(a, t)) && Unmerged(t) && UsingColumns(a) + UsingColumns(t) <= cols
    ensures FullRow(Tables(a) + Tables(t), Tables(a), cols) in Rows(ByPrecedence(a, t), MarkedEnv(Tables(a), cols))
  {
    var ta, env := Tables(a), MarkedEnv(Tables(a), cols);
    if t.Node? && !t.info.parens {
      var g, r := ByPrecedence(a, t.left), t.right;
      PrecedenceTables(a, t.left);
      PrecedenceHasFull(a, t.left, cols);
      FullRowIn(r, ta, cols);
      assert Tables(a) + Tables(t) == Tables(g) + Tables(r);
      FullGlue(Tables(g), Tables(r), ta, cols);
      PairInJoin(Rows(g, env), Rows(r, env), t.tp, Cond(t.info, Tables(g), Tables(r), env), Tables(g), Tables(r),
                 FullRow(Tables(g), ta, cols), FullRow(Tables(r), ta, cols));
    } else {
      FullInCrossed(a, t, cols);
    }
  }

  lemma {:induction false} BelowHidesFull(a: Tree, t: Tree, cols: set<Column>)
    requires Distinct(Crossed(a, t)) && UsingColumns(t) <= cols && cols != {}
    requires FirstParens(t).Some? && HasMerge(FirstParens(t).value)
    ensures FullRow(Tables(a) + Tables(t), Tables(a), cols) !in Rows(Below(a, t), MarkedEnv(Tables(a), cols))
  {
    var ta, env := Tables(a), MarkedEnv(Tables(a), cols);
    if t.Node? && !t.info.parens {
      var g, r := Below(a, t.left), t.right;
      BelowTables(a, t.left);
      BelowHidesFull(a, t.left, cols);
      assert Tables(a) + Tables(t) == Tables(g) + Tables(r);
      if FullRow(Tables(g) + Tables(r), ta, cols) in Rows(Below(a, t), env) {
        FullFromLeft(g, r, t.tp, t.info, ta, cols);
      }
    } else {
      MergeHides(a, t, cols);
    }
  }

  /** When no join outside the first parentheses is NATURAL or has USING, left association is kept
      in every environment exactly when the join it stops at has a safe spine: a RIGHT JOIN without
      parentheses, a NATURAL or a USING inside those parentheses changes the query. */
  lemma PrecedenceExactly(a: Tree, t: Tree)
    requires Distinct(CrossOf(a, t)) && (t.Node? && !t.info.parens ==> FirstParensScoped(t)) && Unmerged(t)
    ensures SameQuery(CrossTree(a, t), ByPrecedence(a, t)) <==> FirstParensSafe(t)
  {
    if FirstParensSafe(t) {
      PrecedenceKept(a, t);
    } else {
      PrecedenceShows(a, t);
    }
  }

  lemma PrecedenceShows(a: Tree, t: Tree)
    requires Distinct(CrossOf(a, t)) && Unmerged(t) && !FirstParensSafe(t)
    ensures !SameQuery(CrossTree(a, t), ByPrecedence(a, t))
  {
    var cols := UsingColumns(a) + UsingColumns(t) + {"c"};
    assert "c" in cols;
    UnsafeReasons(FirstParens(t).value);
    if HasBareRight(FirstParens(t).value) {
      var env := EmptyEnv(Tables(a), cols);
      var row := BareRightTouches(a, t, cols);
      if row in Rows(ByPrecedence(a, t), env) { PrecedenceMisses(a, t, cols, row); }
      SameBagSep(Rows(CrossTree(a, t), env), Rows(ByPrecedence(a, t), env), row);
    } else {
      var env := MarkedEnv(Tables(a), cols);
      BelowHidesFull(a, t, cols);
      PrecedenceHasFull(a, t, cols);
      SameBagSep(Rows(CrossTree(a, t), env), Rows(ByPrecedence(a, t), env), FullRow(Tables(a) + Tables(t), Tables(a), cols));
    }
  }
}
