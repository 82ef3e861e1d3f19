/**
 Rows of a joined table and the join operators on bags of rows (joined table, section 7.7 of
 ISO/IEC 9075-2:2003). A row maps every table in scope to a tuple, or to None where an outer
 join padded that table with NULLs. A bag is a sequence read up to the multiset of its elements.
 */
module JoinRows {
  import opened Basics
  import opened Bags

  type Table = string
  type Column = string
  type Tuple = map<Column, int>

  type Row = map<Table, Option<Tuple>>

  // A CrossJoin that carries an ON condition is an inner join.
  datatype JoinType = CrossJoin | LeftJoin | RightJoin

  ghost predicate Over(rows: seq<Row>, tables: set<Table>) {
    forall r :: r in rows ==> r.Keys == tables
  }

  ghost function Glue(l: Row, r: Row): Row { l + r }

  ghost function Eulg(r: Row, l: Row): Row { l + r }

  ghost function Nulls(tables: set<Table>): Row {
    map t | t in tables :: None
  }

  ghost function PadRight(tables: set<Table>): Row -> Row {
    (l: Row) => l + Nulls(tables)
  }

  ghost function PadLeft(tables: set<Table>): Row -> Row {
    (r: Row) => Nulls(tables) + r
  }

  ghost function LeftRest(ls: seq<Row>, rs: seq<Row>, p: Row -> bool, tr: set<Table>): seq<Row> {
    Map(Unmatched(ls, rs, Glue, p), PadRight(tr))
  }

  ghost function RightRest(ls: seq<Row>, rs: seq<Row>, p: Row -> bool, tl: set<Table>): seq<Row> {
    Map(Unmatched(rs, ls, Eulg, p), PadLeft(tl))
  }

  /** The joined table: the pairs that satisfy the condition and, for an outer join, the
      unmatched rows of the preserved side padded with NULLs. */
  ghost function Join(ls: seq<Row>, rs: seq<Row>, tp: JoinType, p: Row -> bool,
                      tl: set<Table>, tr: set<Table>): seq<Row> {
    Matched(ls, rs, Glue, p)
    + match tp
      case CrossJoin => []
      case LeftJoin => LeftRest(ls, rs, p, tr)
      case RightJoin => RightRest(ls, rs, p, tl)
  }

  ghost predicate SameBag(a: seq<Row>, b: seq<Row>) {
    multiset(a) == multiset(b)
  }

  lemma SameBagIn(a: seq<Row>, b: seq<Row>, r: Row)
    requires SameBag(a, b)
    ensures r in a <==> r in b
  {
    assert r in a <==> r in multiset(a);
    assert r in b <==> r in multiset(b);
  }

  // ----- rows

  lemma GlueInjective(l: Row, r: Row, l0: Row, r0: Row)
    requires l.Keys == l0.Keys && r.Keys == r0.Keys && l.Keys !! r.Keys
    ensures l + r == l0 + r0 <==> l == l0 && r == r0
  {
    if l + r == l0 + r0 {
      forall t | t in l ensures l[t] == l0[t] { assert (l + r)[t] == l[t]; assert (l0 + r0)[t] == l0[t]; }
      forall t | t in r ensures r[t] == r0[t] { assert (l + r)[t] == r[t]; assert (l0 + r0)[t] == r0[t]; }
    }
  }

  lemma GlueCommutes(l: Row, r: Row)
    requires l.Keys !! r.Keys
    ensures l + r == r + l
  {
  }

  ghost function Restrict(row: Row, tables: set<Table>): Row {
    map t | t in tables && t in row :: row[t]
  }

  lemma Unglue(row: Row, tl: set<Table>, tr: set<Table>) returns (l: Row, r: Row)
    requires row.Keys == tl + tr && tl !! tr
    ensures l.Keys == tl && r.Keys == tr && row == l + r
  {
    l, r := Restrict(row, tl), Restrict(row, tr);
  }

  // ----- multiplicities

  /** Unmatched occurrences of `l`: all of them, unless some row of `rs` matches. */
  ghost function Lone(l: Row, ls: seq<Row>, rs: seq<Row>, glue: (Row, Row) -> Row, p: Row -> bool): nat {
    if HasMatch(l, rs, glue, p) then 0 else multiset(ls)[l]
  }

  lemma MatchedAt(ls: seq<Row>, rs: seq<Row>, p: Row -> bool, l: Row, r: Row)
    requires Over(ls, l.Keys) && Over(rs, r.Keys) && l.Keys !! r.Keys
    ensures multiset(Matched(ls, rs, Glue, p))[l + r] == if p(l + r) then multiset(ls)[l] * multiset(rs)[r] else 0
  {
    forall l', r' | l' in ls && r' in rs ensures Glue(l', r') == Glue(l, r) <==> l' == l && r' == r {
      GlueInjective(l', r', l, r);
    }
    MatchedCount(ls, rs, Glue, p, l, r);
  }

  lemma LeftRestAt(ls: seq<Row>, rs: seq<Row>, p: Row -> bool, l: Row, r: Row)
    requires Over(ls, l.Keys) && l.Keys !! r.Keys
    ensures multiset(LeftRest(ls, rs, p, r.Keys))[l + r] == if r == Nulls(r.Keys) then Lone(l, ls, rs, Glue, p) else 0
  {
    var us, f := Unmatched(ls, rs, Glue, p), PadRight(r.Keys);
    forall l' ensures l' in us ==> l' in ls { UnmatchedIn(ls, rs, Glue, p, l'); }
    forall l' | l' in us ensures f(l') == l + r <==> l' == l && Nulls(r.Keys) == r {
      GlueInjective(l', Nulls(r.Keys), l, r);
    }
    if r == Nulls(r.Keys) {
      UnmatchedCount(ls, rs, Glue, p, l);
      MapCount(us, f, l);
    } else {
      MapIn(us, f, l + r);
    }
  }

  lemma RightRestAt(ls: seq<Row>, rs: seq<Row>, p: Row -> bool, l: Row, r: Row)
    requires Over(rs, r.Keys) && l.Keys !! r.Keys
    ensures multiset(RightRest(ls, rs, p, l.Keys))[l + r] == if l == Nulls(l.Keys) then Lone(r, rs, ls, Eulg, p) else 0
  {
    var us, f := Unmatched(rs, ls, Eulg, p), PadLeft(l.Keys);
    forall r' ensures r' in us ==> r' in rs { UnmatchedIn(rs, ls, Eulg, p, r'); }
    forall r' | r' in us ensures f(r') == l + r <==> r' == r && Nulls(l.Keys) == l {
      GlueInjective(Nulls(l.Keys), r', l, r);
    }
    if l == Nulls(l.Keys) {
      UnmatchedCount(rs, ls, Eulg, p, r);
      MapCount(us, f, r);
    } else {
      MapIn(us, f, l + r);
    }
  }

  ghost function Padded(l: Row, ls: seq<Row>, r: Row, rs: seq<Row>, tp: JoinType, p: Row -> bool): nat {
    match tp
    case CrossJoin => 0
    case LeftJoin => if r == Nulls(r.Keys) then Lone(l, ls, rs, Glue, p) else 0
    case RightJoin => if l == Nulls(l.Keys) then Lone(r, rs, ls, Eulg, p) else 0
  }

  /** How often the joined table holds the row `l + r`. */
  lemma JoinAt(ls: seq<Row>, rs: seq<Row>, tp: JoinType, p: Row -> bool, l: Row, r: Row)
    requires Over(ls, l.Keys) && Over(rs, r.Keys) && l.Keys !! r.Keys
    ensures multiset(Join(ls, rs, tp, p, l.Keys, r.Keys))[l + r]
         == (if p(l + r) then multiset(ls)[l] * multiset(rs)[r] else 0)
            + Padded(l, ls, r, rs, tp, p)
  {
    MatchedAt(ls, rs, p, l, r);
    match tp {
      case CrossJoin =>
      case LeftJoin =>
        LeftRestAt(ls, rs, p, l, r);
        CountAppend(Matched(ls, rs, Glue, p), LeftRest(ls, rs, p, r.Keys), l + r);
      case RightJoin =>
        RightRestAt(ls, rs, p, l, r);
        CountAppend(Matched(ls, rs, Glue, p), RightRest(ls, rs, p, l.Keys), l + r);
    }
  }

  /** Where a row of the joined table comes from. */
  lemma JoinFrom(ls: seq<Row>, rs: seq<Row>, tp: JoinType, p: Row -> bool, tl: set<Table>, tr: set<Table>, row: Row)
    requires row in Join(ls, rs, tp, p, tl, tr)
    ensures (p(row) && exists l, r :: l in ls && r in rs && row == l + r)
         || (tp == LeftJoin && exists l :: l in ls && row == l + Nulls(tr))
         || (tp == RightJoin && exists r :: r in rs && row == Nulls(tl) + r)
  {
    if row in Matched(ls, rs, Glue, p) {
      MatchedFrom(ls, rs, Glue, p, row);
    } else if tp == LeftJoin {
      MapIn(Unmatched(ls, rs, Glue, p), PadRight(tr), row);
      forall l ensures l in Unmatched(ls, rs, Glue, p) ==> l in ls { UnmatchedIn(ls, rs, Glue, p, l); }
    } else {
      MapIn(Unmatched(rs, ls, Eulg, p), PadLeft(tl), row);
      forall r ensures r in Unmatched(rs, ls, Eulg, p) ==> r in rs { UnmatchedIn(rs, ls, Eulg, p, r); }
    }
  }

  lemma JoinOver(ls: seq<Row>, rs: seq<Row>, tp: JoinType, p: Row -> bool, tl: set<Table>, tr: set<Table>)
    requires Over(ls, tl) && Over(rs, tr)
    ensures Over(Join(ls, rs, tp, p, tl, tr), tl + tr)
  {
    forall row | row in Join(ls, rs, tp, p, tl, tr) ensures row.Keys == tl + tr {
      JoinFrom(ls, rs, tp, p, tl, tr, row);
    }
  }

  /** Two bags over disjoint halves are equal when they agree on every glued row. */
  lemma SameBagByHalves(a: seq<Row>, b: seq<Row>, tl: set<Table>, tr: set<Table>)
    requires Over(a, tl + tr) && Over(b, tl + tr) && tl !! tr
    requires forall l: Row, r: Row :: l.Keys == tl && r.Keys == tr ==> multiset(a)[Glue(l, r)] == multiset(b)[Glue(l, r)]
    ensures SameBag(a, b)
  {
    forall row ensures multiset(a)[row] == multiset(b)[row] {
      if row.Keys == tl + tr {
        var l, r := Unglue(row, tl, tr);
        assert row == Glue(l, r);
      } else {
        assert row !in a && row !in b;
      }
    }
  }

  // ----- the three laws the rewriting rests on

  ghost predicate Agree(p: Row -> bool, q: Row -> bool, tables: set<Table>) {
    forall row: Row :: row.Keys == tables ==> p(row) == q(row)
  }

  lemma LoneCongruence(l: Row, ls: seq<Row>, ls': seq<Row>, rs: seq<Row>, rs': seq<Row>,
                       glue: (Row, Row) -> Row, p: Row -> bool, q: Row -> bool)
    requires SameBag(ls, ls') && SameBag(rs, rs')
    requires forall r :: r in rs ==> p(glue(l, r)) == q(glue(l, r))
    ensures Lone(l, ls, rs, glue, p) == Lone(l, ls', rs', glue, q)
  {
    forall r ensures r in rs <==> r in rs' { SameBagIn(rs, rs', r); }
  }

  /** Equal operand bags and conditions that agree on the rows in scope give equal joins. */
  lemma Congruence(ls: seq<Row>, ls': seq<Row>, rs: seq<Row>, rs': seq<Row>, tp: JoinType,
                   p: Row -> bool, q: Row -> bool, tl: set<Table>, tr: set<Table>)
    requires Over(ls, tl) && Over(ls', tl) && Over(rs, tr) && Over(rs', tr) && tl !! tr
    requires SameBag(ls, ls') && SameBag(rs, rs')
    requires Agree(p, q, tl + tr)
    ensures SameBag(Join(ls, rs, tp, p, tl, tr), Join(ls', rs', tp, q, tl, tr))
  {
    var a, b := Join(ls, rs, tp, p, tl, tr), Join(ls', rs', tp, q, tl, tr);
    JoinOver(ls, rs, tp, p, tl, tr);
    JoinOver(ls', rs', tp, q, tl, tr);
    forall l: Row, r: Row | l.Keys == tl && r.Keys == tr ensures multiset(a)[Glue(l, r)] == multiset(b)[Glue(l, r)] {
      CongruenceAt(ls, ls', rs, rs', tp, p, q, l, r);
    }
    SameBagByHalves(a, b, tl, tr);
  }

  lemma AgreeOnGlued(p: Row -> bool, q: Row -> bool, l: Row, rs: seq<Row>, tr: set<Table>)
    requires Over(rs, tr) && Agree(p, q, l.Keys + tr)
    ensures forall r :: r in rs ==> p(Glue(l, r)) == q(Glue(l, r))
  {
    forall r | r in rs ensures p(Glue(l, r)) == q(Glue(l, r)) { assert Glue(l, r).Keys == l.Keys + tr; }
  }

  lemma AgreeOnEulged(p: Row -> bool, q: Row -> bool, r: Row, ls: seq<Row>, tl: set<Table>)
    requires Over(ls, tl) && Agree(p, q, tl + r.Keys)
    ensures forall l :: l in ls ==> p(Eulg(r, l)) == q(Eulg(r, l))
  {
    forall l | l in ls ensures p(Eulg(r, l)) == q(Eulg(r, l)) { assert Eulg(r, l).Keys == tl + r.Keys; }
  }

  lemma CongruenceAt(ls: seq<Row>, ls': seq<Row>, rs: seq<Row>, rs': seq<Row>, tp: JoinType,
                     p: Row -> bool, q: Row -> bool, l: Row, r: Row)
    requires Over(ls, l.Keys) && Over(ls', l.Keys) && Over(rs, r.Keys) && Over(rs', r.Keys) && l.Keys !! r.Keys
    requires SameBag(ls, ls') && SameBag(rs, rs')
    requires Agree(p, q, l.Keys + r.Keys)
    ensures multiset(Join(ls, rs, tp, p, l.Keys, r.Keys))[l + r] == multiset(Join(ls', rs', tp, q, l.Keys, r.Keys))[l + r]
  {
    JoinAt(ls, rs, tp, p, l, r);
    JoinAt(ls', rs', tp, q, l, r);
    PaddedCongruence(ls, ls', rs, rs', tp, p, q, l, r);
    assert Glue(l, r).Keys == l.Keys + r.Keys;
  }

  lemma PaddedCongruence(ls: seq<Row>, ls': seq<Row>, rs: seq<Row>, rs': seq<Row>, tp: JoinType,
                         p: Row -> bool, q: Row -> bool, l: Row, r: Row)
    requires Over(ls, l.Keys) && Over(rs, r.Keys)
    requires SameBag(ls, ls') && SameBag(rs, rs')
    requires Agree(p, q, l.Keys + r.Keys)
    ensures Padded(l, ls, r, rs, tp, p) == Padded(l, ls', r, rs', tp, q)
  {
    match tp
    case CrossJoin =>
    case LeftJoin =>
      AgreeOnGlued(p, q, l, rs, r.Keys);
      LoneCongruence(l, ls, ls', rs, rs', Glue, p, q);
    case RightJoin =>
      AgreeOnEulged(p, q, r, ls, l.Keys);
      LoneCongruence(r, rs, rs', ls, ls', Eulg, p, q);
  }

  /** A right join is the left join of its swapped operands. */
  lemma Swap(ls: seq<Row>, rs: seq<Row>, p: Row -> bool, q: Row -> bool, tl: set<Table>, tr: set<Table>)
    requires Over(ls, tl) && Over(rs, tr) && tl !! tr
    requires Agree(p, q, tl + tr)
    ensures SameBag(Join(ls, rs, RightJoin, p, tl, tr), Join(rs, ls, LeftJoin, q, tr, tl))
  {
    var a, b := Join(ls, rs, RightJoin, p, tl, tr), Join(rs, ls, LeftJoin, q, tr, tl);
    JoinOver(ls, rs, RightJoin, p, tl, tr);
    JoinOver(rs, ls, LeftJoin, q, tr, tl);
    assert tl + tr == tr + tl;
    forall l: Row, r: Row | l.Keys == tl && r.Keys == tr ensures multiset(a)[Glue(l, r)] == multiset(b)[Glue(l, r)] {
      SwapAt(ls, rs, p, q, l, r);
    }
    SameBagByHalves(a, b, tl, tr);
  }

  lemma SwapAt(ls: seq<Row>, rs: seq<Row>, p: Row -> bool, q: Row -> bool, l: Row, r: Row)
    requires Over(ls, l.Keys) && Over(rs, r.Keys) && l.Keys !! r.Keys
    requires Agree(p, q, l.Keys + r.Keys)
    ensures multiset(Join(ls, rs, RightJoin, p, l.Keys, r.Keys))[l + r] == multiset(Join(rs, ls, LeftJoin, q, r.Keys, l.Keys))[l + r]
  {
    GlueCommutes(l, r);
    JoinAt(ls, rs, RightJoin, p, l, r);
    JoinAt(rs, ls, LeftJoin, q, r, l);
    AgreeAt(p, q, l, r);
    PaddedSwap(ls, rs, p, q, l, r);
    Product(multiset(ls)[l], multiset(rs)[r]);
  }

  lemma AgreeAt(p: Row -> bool, q: Row -> bool, l: Row, r: Row)
    requires Agree(p, q, l.Keys + r.Keys)
    ensures p(l + r) == q(l + r)
  {
    assert Glue(l, r).Keys == l.Keys + r.Keys;
  }

  lemma PaddedSwap(ls: seq<Row>, rs: seq<Row>, p: Row -> bool, q: Row -> bool, l: Row, r: Row)
    requires Over(ls, l.Keys) && l.Keys !! r.Keys && Agree(p, q, l.Keys + r.Keys)
    ensures Padded(l, ls, r, rs, RightJoin, p) == Padded(r, rs, l, ls, LeftJoin, q)
  {
    SwapMatch(ls, p, q, r, l.Keys);
  }

  lemma SwapMatch(ls: seq<Row>, p: Row -> bool, q: Row -> bool, r: Row, tl: set<Table>)
    requires Over(ls, tl) && tl !! r.Keys && Agree(p, q, tl + r.Keys)
    ensures HasMatch(r, ls, Eulg, p) == HasMatch(r, ls, Glue, q)
  {
    forall s | s in ls ensures p(Eulg(r, s)) == q(Glue(r, s)) {
      GlueCommutes(s, r);
      assert Eulg(r, s).Keys == tl + r.Keys;
    }
  }

  lemma Product(m: nat, n: nat)
    ensures m * n == n * m
  {
  }

  ghost predicate Always(p: Row -> bool) {
    forall row: Row :: p(row)
  }

  /** `q` is `p` with the tables of `x` in scope but not looked at. */
  ghost predicate Lifts(q: Row -> bool, p: Row -> bool, x: Row, tables: set<Table>) {
    forall row: Row :: row.Keys == tables ==> q(Glue(x, row)) == p(row)
  }

  lemma CrossAt(xs: seq<Row>, ls: seq<Row>, any: Row -> bool, x: Row, l: Row)
    requires Over(xs, x.Keys) && Over(ls, l.Keys) && x.Keys !! l.Keys && Always(any)
    ensures multiset(Join(xs, ls, CrossJoin, any, x.Keys, l.Keys))[x + l] == multiset(xs)[x] * multiset(ls)[l]
  {
    JoinAt(xs, ls, CrossJoin, any, x, l);
  }

  lemma InnerAt(ls: seq<Row>, rs: seq<Row>, tp: JoinType, p: Row -> bool, l: Row, r: Row)
    requires Over(ls, l.Keys) && Over(rs, r.Keys) && l.Keys !! r.Keys && tp != RightJoin
    ensures multiset(Join(ls, rs, tp, p, l.Keys, r.Keys))[l + r]
         == (if p(Glue(l, r)) then multiset(ls)[l] * multiset(rs)[r] else 0) + Padded(l, ls, r, rs, tp, p)
  {
    JoinAt(ls, rs, tp, p, l, r);
  }

  lemma LiftedMatch(x: Row, l: Row, rs: seq<Row>, p: Row -> bool, q: Row -> bool, tr: set<Table>)
    requires Over(rs, tr) && Lifts(q, p, x, l.Keys + tr)
    ensures HasMatch(Glue(x, l), rs, Glue, q) == HasMatch(l, rs, Glue, p)
  {
    forall s | s in rs ensures q(Glue(Glue(x, l), s)) == p(Glue(l, s)) {
      var g := Glue(l, s);
      assert g.Keys == l.Keys + tr;
      GlueKeys(x, l, s);
    }
  }

  lemma Spread(x: nat, l: nat, r: nat, u: nat)
    ensures (x * l) * r + x * u == x * (l * r + u) && x * u == x * (0 + u)
  {
  }

  lemma RegroupAt(xs: seq<Row>, ls: seq<Row>, rs: seq<Row>, xl: seq<Row>, lr: seq<Row>, tp: JoinType,
                  p: Row -> bool, q: Row -> bool, x: Row, l: Row, r: Row)
    requires multiset(xl)[x + l] == multiset(xs)[x] * multiset(ls)[l]
    requires multiset(lr)[l + r] == (if p(Glue(l, r)) then multiset(ls)[l] * multiset(rs)[r] else 0) + Padded(l, ls, r, rs, tp, p)
    requires HasMatch(Glue(x, l), rs, Glue, q) == HasMatch(l, rs, Glue, p)
    requires q(Glue(x + l, r)) == p(Glue(l, r)) && tp != RightJoin
    ensures (if q(Glue(x + l, r)) then multiset(xl)[x + l] * multiset(rs)[r] else 0) + Padded(x + l, xl, r, rs, tp, q)
         == multiset(xs)[x] * multiset(lr)[l + r]
  {
    Spread(multiset(xs)[x], multiset(ls)[l], multiset(rs)[r], Padded(l, ls, r, rs, tp, p));
  }

  lemma RegroupRow(xs: seq<Row>, ls: seq<Row>, rs: seq<Row>, xl: seq<Row>, lr: seq<Row>, tp: JoinType,
                   p: Row -> bool, q: Row -> bool, any: Row -> bool, x: Row, l: Row, r: Row, x_l: Row, l_r: Row)
    requires Over(xs, x.Keys) && Over(ls, l.Keys) && Over(rs, r.Keys) && Over(xl, x_l.Keys) && Over(lr, l_r.Keys)
    requires x.Keys !! l.Keys && l.Keys !! r.Keys && x_l.Keys !! r.Keys && x.Keys !! l_r.Keys
    requires tp != RightJoin && Always(any)
    requires x_l == Glue(x, l) && l_r == Glue(l, r) && Glue(x_l, r) == Glue(x, l_r)
    requires xl == Join(xs, ls, CrossJoin, any, x.Keys, l.Keys) && lr == Join(ls, rs, tp, p, l.Keys, r.Keys)
    requires HasMatch(x_l, rs, Glue, q) == HasMatch(l, rs, Glue, p)
    requires q(Glue(x_l, r)) == p(l_r)
    ensures multiset(Join(xl, rs, tp, q, x_l.Keys, r.Keys))[Glue(x_l, r)]
         == multiset(Join(xs, lr, CrossJoin, any, x.Keys, l_r.Keys))[Glue(x, l_r)]
  {
    CrossAt(xs, ls, any, x, l);
    InnerAt(ls, rs, tp, p, l, r);
    RegroupAt(xs, ls, rs, xl, lr, tp, p, q, x, l, r);
    InnerAt(xl, rs, tp, q, x_l, r);
    CrossAt(xs, lr, any, x, l_r);
  }

  lemma GlueKeys(x: Row, l: Row, r: Row)
    ensures Glue(x, l).Keys == x.Keys + l.Keys
    ensures Glue(Glue(x, l), r) == Glue(x, Glue(l, r))
  {
  }

  lemma Disjoint3(tx: set<Table>, tl: set<Table>, tr: set<Table>)
    requires tx !! tl && tx !! tr && tl !! tr
    ensures tx + tl !! tr && tx !! tl + tr && tx + tl + tr == tx + (tl + tr)
  {
  }

  lemma RegroupRows(xs: seq<Row>, ls: seq<Row>, rs: seq<Row>, xl: seq<Row>, lr: seq<Row>, tp: JoinType,
                    p: Row -> bool, q: Row -> bool, any: Row -> bool, tx: set<Table>, tl: set<Table>, tr: set<Table>,
                    txl: set<Table>, tlr: set<Table>, x_l: Row, r: Row)
    requires Over(xs, tx) && Over(ls, tl) && Over(rs, tr) && Over(xl, txl) && Over(lr, tlr)
    requires tx !! tl && tl !! tr && txl !! tr && tx !! tlr && txl == tx + tl && tlr == tl + tr
    requires tp != RightJoin && Always(any)
    requires forall x: Row :: x.Keys == tx ==> Lifts(q, p, x, tlr)
    requires xl == Join(xs, ls, CrossJoin, any, tx, tl) && lr == Join(ls, rs, tp, p, tl, tr)
    requires x_l.Keys == txl && r.Keys == tr
    ensures multiset(Join(xl, rs, tp, q, txl, tr))[Glue(x_l, r)]
         == multiset(Join(xs, lr, CrossJoin, any, tx, tlr))[Glue(x_l, r)]
  {
    var x, l := Unglue(x_l, tx, tl);
    var l_r := Glue(l, r);
    assert x_l == Glue(x, l);
    GlueKeys(x, l, r);
    GlueKeys(l, r, r);
    LiftedMatch(x, l, rs, p, q, tr);
    RegroupRow(xs, ls, rs, xl, lr, tp, p, q, any, x, l, r, x_l, l_r);
  }

  /** Crossing with `xs` first or last makes no difference to a cross, inner or left join whose
      condition does not look at the tables of `xs`. */
  lemma Regroup(xs: seq<Row>, ls: seq<Row>, rs: seq<Row>, tp: JoinType, p: Row -> bool, q: Row -> bool,
                any: Row -> bool, tx: set<Table>, tl: set<Table>, tr: set<Table>)
    requires Over(xs, tx) && Over(ls, tl) && Over(rs, tr) && tx !! tl && tx !! tr && tl !! tr
    requires tp != RightJoin && Always(any)
    requires forall x: Row :: x.Keys == tx ==> Lifts(q, p, x, tl + tr)
    ensures SameBag(Join(Join(xs, ls, CrossJoin, any, tx, tl), rs, tp, q, tx + tl, tr),
                    Join(xs, Join(ls, rs, tp, p, tl, tr), CrossJoin, any, tx, tl + tr))
  {
    var xl, lr := Join(xs, ls, CrossJoin, any, tx, tl), Join(ls, rs, tp, p, tl, tr);
    JoinOver(xs, ls, CrossJoin, any, tx, tl);
    JoinOver(ls, rs, tp, p, tl, tr);
    Disjoint3(tx, tl, tr);
    RegroupBags(xs, ls, rs, xl, lr, tp, p, q, any, tx, tl, tr, tx + tl, tl + tr);
  }

  lemma RegroupBags(xs: seq<Row>, ls: seq<Row>, rs: seq<Row>, xl: seq<Row>, lr: seq<Row>, tp: JoinType,
                    p: Row -> bool, q: Row -> bool, any: Row -> bool, tx: set<Table>, tl: set<Table>, tr: set<Table>,
                    txl: set<Table>, tlr: set<Table>)
    requires Over(xs, tx) && Over(ls, tl) && Over(rs, tr) && Over(xl, txl) && Over(lr, tlr)
    requires tx !! tl && tl !! tr && txl !! tr && tx !! tlr && txl == tx + tl && tlr == tl + tr && txl + tr == tx + tlr
    requires tp != RightJoin && Always(any)
    requires forall x: Row :: x.Keys == tx ==> Lifts(q, p, x, tlr)
    requires xl == Join(xs, ls, CrossJoin, any, tx, tl) && lr == Join(ls, rs, tp, p, tl, tr)
    ensures SameBag(Join(xl, rs, tp, q, txl, tr), Join(xs, lr, CrossJoin, any, tx, tlr))
  {
    var a, b := Join(xl, rs, tp, q, txl, tr), Join(xs, lr, CrossJoin, any, tx, tlr);
    JoinOver(xl, rs, tp, q, txl, tr);
    JoinOver(xs, lr, CrossJoin, any, tx, tlr);
    forall x_l: Row, r: Row | x_l.Keys == txl && r.Keys == tr ensures multiset(a)[Glue(x_l, r)] == multiset(b)[Glue(x_l, r)] {
      RegroupRows(xs, ls, rs, xl, lr, tp, p, q, any, tx, tl, tr, txl, tlr, x_l, r);
    }
    SameBagByHalves(a, b, txl, tr);
  }
}
