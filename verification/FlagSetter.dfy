/**
 The visitor that sets flags, as a walk over mutable nodes
 (internal/parser/tidb/ast/flag.go:26-107, internal/parser/tidb/yy_parser.go:191-217).
 */
module FlagSetter {

  import opened Flags
  import opened FlagMeaning

  /** The stored flags. */
  ghost function Stored(s: set<Node>): (m: Marks)
    reads s
    ensures m.Keys == s
  {
    map x | x in s :: x.flag
  }

  /** The flags of the nodes without a rule are as `base` says. */
  ghost predicate GivenKept(s: set<Node>, base: Marks)
    requires s <= base.Keys
    reads s
  {
    forall x :: x in s && !Handled(x.shape) ==> x.flag == base[x]
  }

  /** Every visited node has the flag the rules give it. */
  ghost predicate Right(r: set<Node>, s: set<Node>, base: Marks)
    requires Closed(s) && r <= s && s <= base.Keys
    reads r
  {
    forall x :: x in r ==> x.flag == FlagOf(x, s, base)
  }

  /** Outside r, nothing changed since `before`. */
  ghost predicate KeptOutside(r: set<Node>, s: set<Node>, before: Marks)
    requires s <= before.Keys
    reads s
  {
    forall x :: x in s && x !in r ==> x.flag == before[x]
  }

  lemma {:induction false} UnionIsFlags(ns: seq<Node>, r: set<Node>, s: set<Node>, base: Marks, bound: nat)
    requires Closed(s) && In(ns, s, bound) && r <= s && s <= base.Keys && Right(r, s, base)
    requires forall c :: c in ns ==> c in r
    ensures Union(ns) == FlagsOf(ns, s, base, bound)
  {
    if ns != [] {
      UnionIsFlags(ns[..|ns| - 1], r, s, base, bound);
    }
  }

  lemma NamedInVisited(n: Node, s: set<Node>)
    requires Closed(s) && n in s && In(Children(n.shape), s, n.height)
    ensures forall c :: c in Named(n.shape) ==> c in VisitedAll(Children(n.shape), s, n.height)
  {
    NamedVisited(n.shape);
    forall c | c in Named(n.shape) ensures c in VisitedAll(Children(n.shape), s, n.height) {
      ChildVisited(Children(n.shape), s, n.height, c);
    }
  }

  lemma LeftRight(n: Node, s: set<Node>, base: Marks, below: set<Node>, flags: Flag)
    requires Closed(s) && n in s && below <= s && s <= base.Keys && In(Named(n.shape), s, n.height)
    requires if Handled(n.shape) then n.flag == Own(n.shape) + flags && flags == FlagsOf(Named(n.shape), s, base, n.height)
             else n.flag == base[n]
    requires Right(below, s, base)
    ensures Right({n} + below, s, base)
  {
  }

  /** Leaves a node whose children are right. */
  method LeaveRight(n: Node, ghost s: set<Node>, ghost base: Marks, ghost below: set<Node>)
    requires Closed(s) && n in s && n !in below && below <= s && s <= base.Keys && GivenKept(s, base) && Right(below, s, base)
    requires In(Named(n.shape), s, n.height) && forall c :: c in Named(n.shape) ==> c in below
    modifies n
    ensures GivenKept(s, base) && Right({n} + below, s, base)
  {
    UnionIsFlags(Named(n.shape), below, s, base, n.height);
    ghost var flags := Union(Named(n.shape));
    Leave(n);
    LeftRight(n, s, base, below, flags);
  }

  /** Visits the children in order, then sets the node's own flag. */
  method Accept(n: Node, ghost s: set<Node>, ghost base: Marks)
    requires Closed(s) && n in s && s <= base.Keys && GivenKept(s, base)
    modifies s
    ensures GivenKept(s, base)
    ensures Right(Visited(n, s), s, base)
    ensures KeptOutside(Visited(n, s), s, old(Stored(s)))
    decreases n.height, 1
  {
    NamedIn(n, s);
    AcceptAll(Children(n.shape), s, base, n.height);
    NamedInVisited(n, s);
    LeaveRight(n, s, base, VisitedAll(Children(n.shape), s, n.height));
  }

  method AcceptAll(ns: seq<Node>, ghost s: set<Node>, ghost base: Marks, ghost bound: nat)
    requires Closed(s) && In(ns, s, bound) && s <= base.Keys && GivenKept(s, base)
    modifies s
    ensures GivenKept(s, base)
    ensures Right(VisitedAll(ns, s, bound), s, base)
    ensures KeptOutside(VisitedAll(ns, s, bound), s, old(Stored(s)))
    decreases bound, 0
  {
    ghost var before := Stored(s);
    assert ns[..0] == [];
    for i := 0 to |ns|
      invariant Done(VisitedAll(ns[..i], s, bound), s, base, before)
    {
      ghost var seen := VisitedAll(ns[..i], s, bound);
      ghost var mid := Stored(s);
      assert DoneThen(seen, s, base, before, mid);
      VisitedMore(ns, s, bound, i);
      Accept(ns[i], s, base);
      DoneMore(seen, Visited(ns[i], s), s, base, before, mid);
    }
    assert ns[..|ns|] == ns;
  }

  lemma VisitedMore(ns: seq<Node>, s: set<Node>, bound: nat, i: nat)
    requires Closed(s) && In(ns, s, bound) && i < |ns|
    ensures In(ns[..i], s, bound) && In(ns[..i + 1], s, bound) && ns[i] in s && ns[i].height < bound
    ensures VisitedAll(ns[..i + 1], s, bound) == VisitedAll(ns[..i], s, bound) + Visited(ns[i], s)
  {
    assert ns[..i + 1][..i] == ns[..i];
  }

  /** The visits so far: the nodes in `seen` are right, and nothing else changed. */
  ghost predicate Done(seen: set<Node>, s: set<Node>, base: Marks, before: Marks)
    requires Closed(s) && seen <= s && s <= base.Keys && s <= before.Keys
    reads s
  {
    GivenKept(s, base) && Right(seen, s, base) && KeptOutside(seen, s, before)
  }

  /** The same, of flags stored earlier. */
  ghost predicate DoneThen(seen: set<Node>, s: set<Node>, base: Marks, before: Marks, mid: Marks)
    requires Closed(s) && seen <= s && s <= base.Keys && s <= before.Keys && s <= mid.Keys
  {
    (forall x :: x in seen ==> mid[x] == FlagOf(x, s, base)) && (forall x :: x in s && x !in seen ==> mid[x] == before[x])
  }

  lemma DoneMore(seen: set<Node>, more: set<Node>, s: set<Node>, base: Marks, before: Marks, mid: Marks)
    requires Closed(s) && seen <= s && more <= s && s <= base.Keys && s <= before.Keys && s <= mid.Keys
    requires DoneThen(seen, s, base, before, mid)
    requires GivenKept(s, base) && Right(more, s, base) && KeptOutside(more, s, mid)
    ensures Done(seen + more, s, base, before)
  {
  }

  /** Every visited node with a rule has the flag its rule gives from its children's stored flags. */
  ghost predicate Settled(r: set<Node>, s: set<Node>)
    requires Closed(s) && r <= s
    reads s
  {
    forall x :: x in r && Handled(x.shape) ==> NamedStay(x, s) && Ruled(x, x.flag)
  }

  lemma NamedStays(x: Node, s: set<Node>)
    requires Closed(s) && x in s
    ensures NamedStay(x, s)
  {
    NamedIn(x, s);
  }

  ghost predicate NamedStay(x: Node, s: set<Node>) {
    forall c :: c in Named(x.shape) ==> c in s
  }

  lemma {:induction false} SettledIsRight(n: Node, s: set<Node>)
    requires Closed(s) && n in s && Settled(Visited(n, s), s)
    ensures Right(Visited(n, s), s, Stored(s))
    decreases n.height, 1, 0
  {
    NamedIn(n, s);
    var below := VisitedAll(Children(n.shape), s, n.height);
    SettledAllRight(Children(n.shape), s, n.height);
    NamedInVisited(n, s);
    UnionIsFlags(Named(n.shape), below, s, Stored(s), n.height);
  }

  lemma {:induction false} SettledAllRight(ns: seq<Node>, s: set<Node>, bound: nat)
    requires Closed(s) && In(ns, s, bound) && Settled(VisitedAll(ns, s, bound), s)
    ensures Right(VisitedAll(ns, s, bound), s, Stored(s))
    decreases bound, 0, |ns|
  {
    if ns != [] {
      SettledAllRight(ns[..|ns| - 1], s, bound);
      SettledIsRight(ns[|ns| - 1], s);
    }
  }

  lemma {:induction false} RightIsSettled(n: Node, s: set<Node>, base: Marks)
    requires Closed(s) && n in s && s <= base.Keys && Right(Visited(n, s), s, base)
    ensures Settled(Visited(n, s), s)
    decreases n.height, 1, 0
  {
    NamedIn(n, s);
    NamedStays(n, s);
    var below := VisitedAll(Children(n.shape), s, n.height);
    AllRightSettled(Children(n.shape), s, base, n.height);
    NamedInVisited(n, s);
    UnionIsFlags(Named(n.shape), below, s, base, n.height);
  }

  lemma {:induction false} AllRightSettled(ns: seq<Node>, s: set<Node>, base: Marks, bound: nat)
    requires Closed(s) && In(ns, s, bound) && s <= base.Keys && Right(VisitedAll(ns, s, bound), s, base)
    ensures Settled(VisitedAll(ns, s, bound), s)
    decreases bound, 0, |ns|
  {
    if ns != [] {
      AllRightSettled(ns[..|ns| - 1], s, base, bound);
      RightIsSettled(ns[|ns| - 1], s, base);
    }
  }

  lemma SameMarks(r: set<Node>, s: set<Node>, base: Marks)
    requires Closed(s) && r <= s && base.Keys == s
    requires Right(r, s, base) && KeptOutside(r, s, base)
    requires forall x :: x in r ==> base[x] == FlagOf(x, s, base)
    ensures Stored(s) == base
  {
  }

  /** What a run leaves does not depend on the flags that nodes with a rule had before. */
  lemma RightForGiven(r: set<Node>, s: set<Node>, a: Marks, b: Marks)
    requires Closed(s) && r <= s && s <= a.Keys && s <= b.Keys && SameGiven(s, a, b) && Right(r, s, a)
    ensures Right(r, s, b)
  {
    forall x | x in r ensures x.flag == FlagOf(x, s, b) { FlagOfGiven(x, s, a, b); }
  }

  /** One run: the rules hold everywhere below, whatever flags the nodes with a rule had before, and a run over
      an expression where they held changes nothing. */
  method SetFlag(n: Node, ghost s: set<Node>)
    requires Closed(s) && n in s
    modifies s
    ensures Right(Visited(n, s), s, old(Stored(s)))
    ensures KeptOutside(Visited(n, s), s, old(Stored(s)))
    ensures forall base: Marks {:trigger SameGiven(s, old(Stored(s)), base)} ::
      s <= base.Keys && SameGiven(s, old(Stored(s)), base) ==> Right(Visited(n, s), s, base)
    ensures Settled(Visited(n, s), s)
    ensures old(Settled(Visited(n, s), s)) ==> Stored(s) == old(Stored(s))
  {
    ghost var before := Stored(s);
    ghost var r := Visited(n, s);
    ghost var settled := Settled(r, s);
    if settled { SettledIsRight(n, s); }
    Accept(n, s, before);
    RightIsSettled(n, s, before);
    if settled { SameMarks(r, s, before); }
    forall base: Marks | s <= base.Keys && SameGiven(s, before, base) ensures Right(r, s, base) {
      RightForGiven(r, s, before, base);
    }
  }

  /** Parsing one statement runs the setter twice; the tree is as one run leaves it. */
  method ParseOneStatement(n: Node, ghost s: set<Node>)
    requires Closed(s) && n in s
    modifies s
    ensures Right(Visited(n, s), s, old(Stored(s)))
    ensures KeptOutside(Visited(n, s), s, old(Stored(s)))
  {
    SetFlag(n, s);
    ghost var once := Stored(s);
    SetFlag(n, s);
    assert Stored(s) == once;
    assert forall x :: x in s ==> x.flag == once[x];
  }
}
