/**
 No reader finds a semicolon that is not in its text, so a statement whose text ends in one, which is taken
 off before reading, does not come back (internal/syntax/syntax.go:94-226,
 internal/syntax/postgres/parser.go:12-75, 132-240, internal/syntax/mysql/parser.go:12-75, 132-264).
 */
module Semicolons {
  import opened Basics
  import opened Strings
  import opened TopLevel
  import opened Statements
  import opened Readers
  import opened MySqlJoins

  // ----- counting

  function Semis(s: string): nat {
    if s == "" then 0 else (if s[0] == ';' then 1 else 0) + Semis(s[1..])
  }

  function AllSemis(ps: seq<string>): nat {
    if ps == [] then 0 else Semis(ps[0]) + AllSemis(ps[1..])
  }

  function JoinSemis(js: seq<Join>): nat {
    if js == [] then 0 else Semis(js[0].table) + Semis(js[0].on) + JoinSemis(js[1..])
  }

  function AssignedSemis(xs: seq<Assignment>): nat {
    if xs == [] then 0 else Semis(xs[0].column) + Semis(xs[0].value) + AssignedSemis(xs[1..])
  }

  /** The semicolons in the pieces of a SELECT, an UPDATE or a DELETE. */
  function Weight(s: Statement): nat {
    match s
    case Select(columns, from, joins, where, orderBy, _) =>
      AllSemis(columns) + Semis(from) + JoinSemis(joins) + Semis(where) + AllSemis(orderBy)
    case Update(table, xs, where) => Semis(table) + AssignedSemis(xs) + Semis(where)
    case Delete(table, where) => Semis(table) + Semis(where)
    case _ => 0
  }

  lemma {:induction false} SemisAppend(a: string, b: string)
    ensures Semis(a + b) == Semis(a) + Semis(b)
  {
    if a == "" {
      assert a + b == b;
    } else {
      assert (a + b)[1..] == a[1..] + b;
      SemisAppend(a[1..], b);
    }
  }

  lemma {:induction false} SemisNone(s: string)
    requires ';' !in s
    ensures Semis(s) == 0
  {
    if s != "" { SemisNone(s[1..]); }
  }

  lemma SemisCut(s: string, i: nat)
    requires i <= |s|
    ensures Semis(s) == Semis(s[..i]) + Semis(s[i..])
  {
    assert s == s[..i] + s[i..];
    SemisAppend(s[..i], s[i..]);
  }

  /** Two pieces of a text, one after the other. */
  lemma SemisTwo(s: string, i: nat, j: nat)
    requires i <= j <= |s|
    ensures Semis(s[..i]) + Semis(s[j..]) <= Semis(s)
  {
    SemisCut(s, j);
    SemisCut(s[..j], i);
    assert s[..j][..i] == s[..i];
  }

  lemma SemisSlice(s: string, i: nat, j: nat)
    requires i <= j <= |s|
    ensures Semis(s[i..j]) <= Semis(s) && Semis(s[..i]) + Semis(s[i..j]) <= Semis(s) && Semis(s[i..j]) + Semis(s[j..]) <= Semis(s)
  {
    SemisCut(s, j);
    SemisCut(s[..j], i);
    assert s[..j][..i] == s[..i] && s[..j][i..] == s[i..j];
  }

  lemma SliceOfSlice(s: string, a: nat, b: nat, i: nat, j: nat)
    requires a <= b <= |s| && i <= j <= b - a
    ensures s[a..b][i..j] == s[a + i..a + j]
  {
    var x, y := s[a..b][i..j], s[a + i..a + j];
    forall k | 0 <= k < j - i ensures x[k] == y[k] { assert s[a..b][i + k] == s[a + i + k]; }
    assert x == y;
  }

  lemma SemisTrim(s: string)
    ensures Semis(Trim(s)) <= Semis(s)
  {
    var l := TrimLeft(s);
    TrimLeftIs(s);
    TrimRightIs(l);
    SemisCut(s, |s| - |l|);
    SemisCut(l, |Trim(s)|);
    assert l[..|Trim(s)|] == Trim(s);
  }

  lemma {:induction false} AllAppend(a: seq<string>, b: seq<string>)
    ensures AllSemis(a + b) == AllSemis(a) + AllSemis(b)
  {
    if a == [] {
      assert a + b == b;
    } else {
      assert (a + b)[1..] == a[1..] + b;
      AllAppend(a[1..], b);
    }
  }

  lemma {:induction false} JoinSemisAppend(a: seq<Join>, b: seq<Join>)
    ensures JoinSemis(a + b) == JoinSemis(a) + JoinSemis(b)
  {
    if a == [] {
      assert a + b == b;
    } else {
      assert (a + b)[1..] == a[1..] + b;
      JoinSemisAppend(a[1..], b);
    }
  }

  lemma OneJoin(j: Join)
    ensures JoinSemis([j]) == Semis(j.table) + Semis(j.on)
  {
    assert [j][1..] == [];
  }

  // ----- lists

  lemma {:induction false} PiecesSemis(m: Mode, piece: string, s: string)
    ensures AllSemis(Pieces(m, piece, s)) <= Semis(piece) + Semis(s)
    decreases |s|
  {
    SemisTrim(piece);
    if s == "" {
      assert [Trim(piece)][1..] == [];
    } else if s[0] == ',' && m == OUT {
      PiecesSemis(m, "", s[1..]);
      AllAppend([Trim(piece)], Pieces(m, "", s[1..]));
      assert [Trim(piece)][1..] == [];
    } else {
      PiecesSemis(Step(m, s[0]), piece + [s[0]], s[1..]);
      SemisAppend(piece, [s[0]]);
      assert [s[0]][1..] == "";
    }
  }

  lemma SplitSemis(s: string)
    ensures AllSemis(Split(s)) <= Semis(s)
  {
    PiecesSemis(OUT, "", s);
  }

  // ----- the joins of the PostgreSQL reader

  function ReadSemis(r: JoinRead): nat {
    match r
    case Stop => 0
    case Last(j) => Semis(j.table) + Semis(j.on)
    case More(j, rest) => Semis(j.table) + Semis(j.on) + Semis(rest)
  }

  lemma OnAtSemis(keyword: string, table: string, afterOn: string, next: int)
    requires next <= |afterOn|
    ensures ReadSemis(OnAt(keyword, table, afterOn, next)) <= Semis(table) + Semis(afterOn)
  {
    if next < 0 {
      SemisTrim(afterOn);
    } else {
      SemisCut(afterOn, next);
      SemisTrim(afterOn[..next]);
      SemisTrim(afterOn[next..]);
    }
  }

  lemma ReadOnSemis(keyword: string, table: string, afterOn: string)
    ensures ReadSemis(ReadOn(keyword, table, afterOn)) <= Semis(table) + Semis(afterOn)
  {
    FindJoinFits(" " + afterOn);
    OnAtSemis(keyword, table, afterOn, FindJoin(" " + afterOn).0);
  }

  lemma TableAtSemis(keyword: string, rest: string, on: int)
    requires on < 0 || on + |ON| <= |rest|
    ensures ReadSemis(TableAt(keyword, rest, on)) <= Semis(rest)
  {
    if on >= 0 {
      SemisTwo(rest, on, on + |ON|);
      SemisTrim(rest[..on]);
      SemisTrim(rest[on + |ON|..]);
      ReadOnSemis(keyword, Trim(rest[..on]), Trim(rest[on + |ON|..]));
    }
  }

  lemma ReadJoinSemis(remainder: string)
    ensures ReadSemis(ReadJoin(remainder)) <= Semis(remainder)
  {
    var keyword := Trim(FindJoin(" " + remainder).1);
    var dropped := DropPrefix(remainder, keyword);
    if keyword <= remainder { SemisCut(remainder, |keyword|); }
    SemisTrim(dropped);
    TableAtSemis(keyword, Trim(dropped), Find(OUT, Trim(dropped), ON));
  }

  lemma {:induction false} JoinsFromSemis(remainder: string)
    ensures JoinSemis(JoinsFrom(remainder)) <= Semis(remainder)
    decreases |remainder|
  {
    if remainder != "" {
      ReadJoinShortens(remainder);
      ReadJoinSemis(remainder);
      match ReadJoin(remainder)
      case Stop =>
      case Last(j) => OneJoin(j);
      case More(j, rest) =>
        JoinsFromSemis(rest);
        OneJoin(j);
        JoinSemisAppend([j], JoinsFrom(rest));
    }
  }

  lemma FromSemis(input: string)
    ensures var r := FromAndJoins(input); Semis(r.0) + JoinSemis(r.1) <= Semis(input)
  {
    var base := Trim(input);
    var i := FindJoin(base).0;
    SemisTrim(input);
    FindJoinFits(base);
    if i >= 0 {
      SemisCut(base, i);
      SemisTrim(base[..i]);
      SemisTrim(base[i..]);
      JoinsFromSemis(Trim(base[i..]));
    }
  }

  // ----- the joins of the MySQL reader

  function RemainderSemis(r: Remainder): nat { Semis(r.table) + Semis(r.on) + Semis(r.tail) }

  lemma SplitOnAtSemis(table: string, afterOn: string, next: int)
    requires next <= |afterOn|
    ensures RemainderSemis(SplitOnAt(table, afterOn, next)) <= Semis(table) + Semis(afterOn)
  {
    if next >= 0 {
      SemisCut(afterOn, next);
      SemisTrim(afterOn[..next]);
      SemisTrim(afterOn[next..]);
    }
  }

  lemma SplitRemainderSemis(input: string)
    ensures RemainderSemis(SplitRemainder(input)) <= Semis(input)
  {
    var on := Find(OUT, input, ON);
    if on >= 0 {
      var table, after := Trim(input[..on]), Trim(input[on + |ON|..]);
      SemisTwo(input, on, on + |ON|);
      SemisTrim(input[..on]);
      SemisTrim(input[on + |ON|..]);
      FindJoinFits(after);
      SplitOnAtSemis(table, after, FindJoin(after).0);
    }
  }

  /** What is read behind a keyword: a join, and the tail. */
  lemma KeywordSemis(s: string, keyword: string)
    requires FindJoin(s).0 >= 0
    ensures var i := FindJoin(s).0; var r := SplitRemainder(AfterKeyword(s));
      i <= |s| && Semis(s[..i]) + JoinSemis([AsJoin(keyword, r)]) + Semis(Trim(r.tail)) <= Semis(s)
  {
    var i, r := FindJoin(s).0, SplitRemainder(AfterKeyword(s));
    FindJoinFits(s);
    SemisTwo(s, i, i + |FindJoin(s).1|);
    SemisTrim(s[i + |FindJoin(s).1|..]);
    SplitRemainderSemis(AfterKeyword(s));
    SemisTrim(r.table);
    SemisTrim(r.on);
    SemisTrim(r.tail);
    OneJoin(AsJoin(keyword, r));
  }

  lemma {:induction false} AppendJoinsSemis(t: string)
    ensures JoinSemis(AppendJoins(t)) <= Semis(t)
    decreases |t|
  {
    if Trim(t) != "" && FindJoin(t).0 >= 0 {
      var kw, r := FindJoin(t).1, SplitRemainder(AfterKeyword(t));
      TailShorter(t);
      KeywordSemis(t, kw);
      AppendJoinsSemis(Trim(r.tail));
      JoinSemisAppend([AsJoin(kw, r)], AppendJoins(Trim(r.tail)));
    }
  }

  lemma {:induction false} MySqlFromSemis(base: string, joins: seq<Join>)
    ensures var r := MySqlFrom(base, joins); Semis(r.0) + JoinSemis(r.1) <= Semis(base) + JoinSemis(joins)
    decreases |base|
  {
    if FindJoin(base).0 < 0 {
      SemisTrim(base);
    } else {
      var i, kw, r := FindJoin(base).0, FindJoin(base).1, SplitRemainder(AfterKeyword(base));
      var more := joins + [AsJoin(kw, r)];
      TailShorter(base);
      KeywordSemis(base, kw);
      SemisTrim(base[..i]);
      JoinSemisAppend(joins, [AsJoin(kw, r)]);
      AppendJoinsSemis(Trim(r.tail));
      JoinSemisAppend(more, AppendJoins(Trim(r.tail)));
      MySqlFromSemis(Trim(r.tail), more);
    }
  }

  lemma MySqlFromAndJoinsSemis(input: string)
    ensures var r := MySqlFromAndJoins(input); Semis(r.0) + JoinSemis(r.1) <= Semis(input)
  {
    SemisTrim(input);
    MySqlFromSemis(Trim(input), []);
  }

  // ----- clauses

  /** The keywords that are there stand in the order of the clauses. */
  predicate Ordered(w: int, o: int, l: int) {
    (w >= 0 && o >= 0 ==> w < o) && (w >= 0 && l >= 0 ==> w < l) && (o >= 0 && l >= 0 ==> o < l)
  }

  function OutcomeSemis(where: Outcome<string>): nat { match where case Ok(x) => Semis(x) case _ => 0 }

  function OrderSemis(order: Outcome<seq<string>>): nat { match order case Ok(x) => AllSemis(x) case _ => 0 }

  lemma OrderOfSemis(after: string, o: int, l: int)
    requires o <= |after|
    ensures OrderSemis(OrderOf(after, o, l)) <= if o < 0 then 0 else Semis(after[o..])
  {
    var end := if l > o then l else |after|;
    if o >= 0 && o + |ORDER_BY| <= end <= |after| {
      SplitSemis(after[o + |ORDER_BY|..end]);
      SemisSlice(after[o..], |ORDER_BY|, end - o);
      assert after[o..][|ORDER_BY|..end - o] == after[o + |ORDER_BY|..end];
    }
  }

  lemma WhereOfSemis(after: string, w: int, o: int, l: int)
    requires Ordered(w, o, l) && w <= |after| && o <= |after|
    ensures w >= 0 ==> OutcomeSemis(WhereOf(after, w, o, l)) + (if o < 0 then 0 else Semis(after[o..])) <= Semis(after[w..])
    ensures w < 0 ==> OutcomeSemis(WhereOf(after, w, o, l)) == 0
  {
    if w >= 0 {
      var stop := if o >= 0 then o else |after|;
      var part, end := after[w..stop], ClauseEnd(w, o, l, |after|);
      assert end <= stop;
      SemisCut(after[w..], stop - w);
      assert after[w..][..stop - w] == part && after[w..][stop - w..] == after[stop..];
      assert after[|after|..] == "";
      if w + |WHERE| <= end { WhereSliceSemis(after, w, end, stop); }
    }
  }

  lemma WhereSliceSemis(after: string, w: nat, end: nat, stop: nat)
    requires w + |WHERE| <= end <= stop <= |after|
    ensures Semis(Trim(after[w + |WHERE|..end])) <= Semis(after[w..stop])
  {
    var part := after[w..stop];
    SemisTrim(after[w + |WHERE|..end]);
    SemisSlice(part, |WHERE|, end - w);
    SliceOfSlice(after, w, stop, |WHERE|, end - w);
  }

  lemma ClausesSemis(after: string, w: int, o: int, l: int)
    requires Ordered(w, o, l) && w <= |after| && o <= |after| && l <= |after|
    ensures Earliest(w, o, l) <= |after|
    ensures Semis(FromPart(after, w, o, l)) + OutcomeSemis(WhereOf(after, w, o, l)) + OrderSemis(OrderOf(after, o, l)) <= Semis(after)
  {
    WhereOfSemis(after, w, o, l);
    OrderOfSemis(after, o, l);
    var e := Earliest(w, o, l);
    if e >= 0 { SemisCut(after, e); }
  }

  lemma AssembledSemis(columns: seq<string>, from: (string, seq<Join>), after: string, w: int, o: int, l: int,
                       limit: Outcome<Option<Limit>>, x: Statement)
    requires Ordered(w, o, l) && w <= |after| && o <= |after| && l <= |after|
    requires Earliest(w, o, l) <= |after| && Semis(from.0) + JoinSemis(from.1) <= Semis(FromPart(after, w, o, l))
    requires Assembled(columns, from, after, w, o, l, limit) == Ok(x)
    ensures Weight(x) <= AllSemis(columns) + Semis(after)
  {
    ClausesSemis(after, w, o, l);
  }
}
