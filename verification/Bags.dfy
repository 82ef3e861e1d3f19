/**
 Nested-loop pairing over sequences, with multiplicities. The element types and the way two
 elements are glued together stay abstract here, so that the counting arguments need no
 knowledge of rows.
 */
module Bags {

  /** Pairs `l` with every element of `rs` whose combination satisfies the condition. */
  ghost function Pairs<A, B, C>(l: A, rs: seq<B>, glue: (A, B) -> C, p: C -> bool): seq<C> {
    if rs == [] then []
    else (if p(glue(l, rs[0])) then [glue(l, rs[0])] else []) + Pairs(l, rs[1..], glue, p)
  }

  /** All combinations that satisfy the condition, left operand outermost. */
  ghost function Matched<A, B, C>(ls: seq<A>, rs: seq<B>, glue: (A, B) -> C, p: C -> bool): seq<C> {
    if ls == [] then [] else Pairs(ls[0], rs, glue, p) + Matched(ls[1..], rs, glue, p)
  }

  ghost predicate HasMatch<A, B(!new), C>(l: A, rs: seq<B>, glue: (A, B) -> C, p: C -> bool) {
    exists r :: r in rs && p(glue(l, r))
  }

  /** The elements of `ls` that no element of `rs` matches. */
  ghost function Unmatched<A, B(!new), C>(ls: seq<A>, rs: seq<B>, glue: (A, B) -> C, p: C -> bool): seq<A> {
    if ls == [] then []
    else (if HasMatch(ls[0], rs, glue, p) then [] else [ls[0]]) + Unmatched(ls[1..], rs, glue, p)
  }

  ghost function Map<A, C>(ls: seq<A>, f: A -> C): seq<C> {
    if ls == [] then [] else [f(ls[0])] + Map(ls[1..], f)
  }

  lemma {:induction false} PairsCount<A, B(!new), C>(l: A, rs: seq<B>, glue: (A, B) -> C, p: C -> bool, l0: A, r0: B)
    requires forall r :: r in rs ==> (glue(l, r) == glue(l0, r0) <==> l == l0 && r == r0)
    ensures multiset(Pairs(l, rs, glue, p))[glue(l0, r0)]
         == if p(glue(l0, r0)) && l == l0 then multiset(rs)[r0] else 0
  {
    if rs == [] {
    } else {
      assert rs == [rs[0]] + rs[1..];
      PairsCount(l, rs[1..], glue, p, l0, r0);
    }
  }

  lemma {:induction false} MatchedCount<A(!new), B(!new), C>(ls: seq<A>, rs: seq<B>, glue: (A, B) -> C, p: C -> bool, l0: A, r0: B)
    requires forall l, r :: l in ls && r in rs ==> (glue(l, r) == glue(l0, r0) <==> l == l0 && r == r0)
    ensures multiset(Matched(ls, rs, glue, p))[glue(l0, r0)]
         == if p(glue(l0, r0)) then multiset(ls)[l0] * multiset(rs)[r0] else 0
  {
    if ls == [] {
    } else {
      var x, rest := glue(l0, r0), Matched(ls[1..], rs, glue, p);
      PairsCount(ls[0], rs, glue, p, l0, r0);
      MatchedCount(ls[1..], rs, glue, p, l0, r0);
      CountAppend(Pairs(ls[0], rs, glue, p), rest, x);
      CountCons(ls, l0);
      Successor(multiset(ls[1..])[l0], multiset(rs)[r0]);
    }
  }

  lemma CountAppend<C>(s: seq<C>, t: seq<C>, x: C)
    ensures multiset(s + t)[x] == multiset(s)[x] + multiset(t)[x]
  {
  }

  lemma CountCons<A>(s: seq<A>, x: A)
    requires s != []
    ensures multiset(s)[x] == (if s[0] == x then 1 else 0) + multiset(s[1..])[x]
  {
    assert s == [s[0]] + s[1..];
  }

  lemma Successor(n: nat, m: nat)
    ensures (n + 1) * m == n * m + m
  {
  }

  lemma {:induction false} MatchedFrom<A, B, C(!new)>(ls: seq<A>, rs: seq<B>, glue: (A, B) -> C, p: C -> bool, x: C)
    requires x in Matched(ls, rs, glue, p)
    ensures p(x) && exists l, r :: l in ls && r in rs && x == glue(l, r)
  {
    if x in Pairs(ls[0], rs, glue, p) {
      PairsFrom(ls[0], rs, glue, p, x);
    } else {
      MatchedFrom(ls[1..], rs, glue, p, x);
    }
  }

  lemma {:induction false} PairsFrom<A, B, C>(l: A, rs: seq<B>, glue: (A, B) -> C, p: C -> bool, x: C)
    requires x in Pairs(l, rs, glue, p)
    ensures p(x) && exists r :: r in rs && x == glue(l, r)
  {
    if p(glue(l, rs[0])) && x == glue(l, rs[0]) {
      assert rs[0] in rs;
    } else {
      PairsFrom(l, rs[1..], glue, p, x);
    }
  }

  lemma {:induction false} MatchedHas<A, B, C>(ls: seq<A>, rs: seq<B>, glue: (A, B) -> C, p: C -> bool, l: A, r: B)
    requires l in ls && r in rs && p(glue(l, r))
    ensures glue(l, r) in Matched(ls, rs, glue, p)
  {
    if l == ls[0] {
      PairsHas(l, rs, glue, p, r);
    } else {
      assert l in ls[1..];
      MatchedHas(ls[1..], rs, glue, p, l, r);
    }
  }

  lemma {:induction false} PairsHas<A, B, C>(l: A, rs: seq<B>, glue: (A, B) -> C, p: C -> bool, r: B)
    requires r in rs && p(glue(l, r))
    ensures glue(l, r) in Pairs(l, rs, glue, p)
  {
    if r != rs[0] {
      assert r in rs[1..];
      PairsHas(l, rs[1..], glue, p, r);
    }
  }

  lemma {:induction false} UnmatchedCount<A, B(!new), C>(ls: seq<A>, rs: seq<B>, glue: (A, B) -> C, p: C -> bool, l: A)
    ensures multiset(Unmatched(ls, rs, glue, p))[l] == if HasMatch(l, rs, glue, p) then 0 else multiset(ls)[l]
  {
    if ls == [] {
    } else {
      assert ls == [ls[0]] + ls[1..];
      UnmatchedCount(ls[1..], rs, glue, p, l);
    }
  }

  lemma UnmatchedIn<A, B(!new), C>(ls: seq<A>, rs: seq<B>, glue: (A, B) -> C, p: C -> bool, l: A)
    ensures l in Unmatched(ls, rs, glue, p) <==> l in ls && !HasMatch(l, rs, glue, p)
  {
    UnmatchedCount(ls, rs, glue, p, l);
    assert l in Unmatched(ls, rs, glue, p) <==> l in multiset(Unmatched(ls, rs, glue, p));
    assert l in ls <==> l in multiset(ls);
  }

  lemma {:induction false} MapCount<A(!new), C>(ls: seq<A>, f: A -> C, l0: A)
    requires forall l :: l in ls ==> (f(l) == f(l0) <==> l == l0)
    ensures multiset(Map(ls, f))[f(l0)] == multiset(ls)[l0]
  {
    if ls == [] {
    } else {
      assert ls == [ls[0]] + ls[1..];
      MapCount(ls[1..], f, l0);
    }
  }

  lemma {:induction false} MapIn<A(!new), C>(ls: seq<A>, f: A -> C, x: C)
    ensures x in Map(ls, f) <==> exists l :: l in ls && x == f(l)
  {
    if ls == [] {
    } else {
      MapIn(ls[1..], f, x);
      assert ls == [ls[0]] + ls[1..];
    }
  }
}
