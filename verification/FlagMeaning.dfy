/**
 What a flag says about the whole expression below its node, and when a run of the setter changes
 nothing (internal/parser/tidb/ast/flag.go:40-107).
 */
module FlagMeaning {

  import opened Flags

  type Marks = map<Node, Flag>

  ghost predicate In(ns: seq<Node>, s: set<Node>, bound: nat) {
    forall c :: c in ns ==> c in s && c.height < bound
  }

  lemma NamedIn(n: Node, s: set<Node>)
    requires Closed(s) && n in s
    ensures In(Named(n.shape), s, n.height)
    ensures In(Children(n.shape), s, n.height)
  {
    NamedVisited(n.shape);
  }

  /** The flag a run leaves at n, when `base` gives the flags of the nodes it has no rule for. */
  ghost function FlagOf(n: Node, s: set<Node>, base: Marks): Flag
    requires Closed(s) && n in s && s <= base.Keys
    decreases n.height, 1, 0
  {
    NamedIn(n, s);
    if Handled(n.shape) then Own(n.shape) + FlagsOf(Named(n.shape), s, base, n.height) else base[n]
  }

  ghost function FlagsOf(ns: seq<Node>, s: set<Node>, base: Marks, bound: nat): Flag
    requires Closed(s) && In(ns, s, bound) && s <= base.Keys
    decreases bound, 0, |ns|
  {
    if ns == [] then {}
    else FlagsOf(ns[..|ns| - 1], s, base, bound) + FlagOf(ns[|ns| - 1], s, base)
  }

  /** A way down from p[0] through children that rules name. */
  ghost predicate Path(p: seq<Node>, s: set<Node>) {
    |p| > 0 && p[0] in s && forall i :: 0 <= i < |p| - 1 ==> Step(p[i], p[i + 1], s)
  }

  ghost predicate Step(a: Node, b: Node, s: set<Node>) {
    Handled(a.shape) && b in Named(a.shape) && b in s
  }

  /** The node adds some bit of the bit by itself. */
  ghost predicate Adds(n: Node, bit: nat, base: Marks)
    requires n in base
  {
    bit in (if Handled(n.shape) then Own(n.shape) else base[n])
  }

  ghost predicate Shows(p: seq<Node>, n: Node, bit: nat, s: set<Node>, base: Marks)
  {
    Path(p, s) && p[0] == n && p[|p| - 1] in base && Adds(p[|p| - 1], bit, base)
  }

  lemma FlagsStep(ns: seq<Node>, s: set<Node>, base: Marks, bound: nat, bit: nat) returns (front: seq<Node>, last: Node)
    requires Closed(s) && In(ns, s, bound) && s <= base.Keys && ns != []
    ensures ns == front + [last]
    ensures In(front, s, bound) && last in s
    ensures bit in FlagsOf(ns, s, base, bound)
      <==> (bit in FlagsOf(front, s, base, bound) || bit in FlagOf(last, s, base))
  {
    front, last := ns[..|ns| - 1], ns[|ns| - 1];
    assert last in ns && In(front, s, bound);
    var f, l := FlagsOf(front, s, base, bound), FlagOf(last, s, base);
    assert FlagsOf(ns, s, base, bound) == f + l;
  }

  lemma {:induction false} FlagsHold(ns: seq<Node>, s: set<Node>, base: Marks, bound: nat, c: Node, bit: nat)
    requires Closed(s) && In(ns, s, bound) && s <= base.Keys
    requires c in ns && bit in FlagOf(c, s, base)
    ensures bit in FlagsOf(ns, s, base, bound)
  {
    var front, last := FlagsStep(ns, s, base, bound, bit);
    if c != last {
      FlagsHold(front, s, base, bound, c, bit);
    }
  }

  lemma {:induction false} FlagsFrom(ns: seq<Node>, s: set<Node>, base: Marks, bound: nat, bit: nat) returns (c: Node)
    requires Closed(s) && In(ns, s, bound) && s <= base.Keys
    requires bit in FlagsOf(ns, s, base, bound)
    ensures c in ns && bit in FlagOf(c, s, base)
  {
    var front, last := FlagsStep(ns, s, base, bound, bit);
    c := last;
    if bit !in FlagOf(last, s, base) {
      c := FlagsFrom(front, s, base, bound, bit);
    }
  }

  lemma FlagStep(n: Node, s: set<Node>, base: Marks, bit: nat)
    requires Closed(s) && n in s && s <= base.Keys && In(Named(n.shape), s, n.height)
    ensures bit in FlagOf(n, s, base)
      <==> (Adds(n, bit, base) || (Handled(n.shape) && bit in FlagsOf(Named(n.shape), s, base, n.height)))
  {
    if Handled(n.shape) {
      var f, l := Own(n.shape), FlagsOf(Named(n.shape), s, base, n.height);
      assert FlagOf(n, s, base) == f + l;
    }
  }

  lemma {:induction false} FoundBelow(n: Node, s: set<Node>, base: Marks, bit: nat) returns (p: seq<Node>)
    requires Closed(s) && n in s && s <= base.Keys
    requires bit in FlagOf(n, s, base)
    ensures Shows(p, n, bit, s, base)
    decreases n.height
  {
    p := [n];
    if !Adds(n, bit, base) {
      NamedIn(n, s);
      FlagStep(n, s, base, bit);
      var c := FlagsFrom(Named(n.shape), s, base, n.height, bit);
      var q := FoundBelow(c, s, base, bit);
      p := [n] + q;
      PathGrows(n, q, s);
    }
  }

  lemma PathGrows(n: Node, q: seq<Node>, s: set<Node>)
    requires n in s && Path(q, s) && Step(n, q[0], s)
    ensures Path([n] + q, s) && ([n] + q)[|q|] == q[|q| - 1]
  {
    var p := [n] + q;
    forall i | 0 <= i < |p| - 1 ensures Step(p[i], p[i + 1], s) {
      if i > 0 { assert p[i] == q[i - 1] && p[i + 1] == q[i]; }
    }
  }

  lemma PathShrinks(p: seq<Node>, s: set<Node>)
    requires Path(p, s) && |p| > 1
    ensures Path(p[1..], s) && Step(p[0], p[1], s)
  {
    var q := p[1..];
    assert Step(p[0], p[0 + 1], s);
    forall i | 0 <= i < |q| - 1 ensures Step(q[i], q[i + 1], s) {
      assert Step(p[i + 1], p[i + 1 + 1], s);
    }
  }

  lemma {:induction false} SeenAbove(p: seq<Node>, n: Node, s: set<Node>, base: Marks, bit: nat)
    requires Closed(s) && n in s && s <= base.Keys
    requires Shows(p, n, bit, s, base)
    ensures bit in FlagOf(n, s, base)
    decreases |p|
  {
    NamedIn(n, s);
    FlagStep(n, s, base, bit);
    if |p| > 1 {
      PathShrinks(p, s);
      SeenAbove(p[1..], p[1], s, base, bit);
      FlagsHold(Named(n.shape), s, base, n.height, p[1], bit);
    }
  }

  /**
   A flag has a bit exactly when some node below, reached through children the rules name, adds it:
   by its own kind, or, for a node without a rule, by the flag it already had.
   */
  lemma FlagMeansBelow(n: Node, s: set<Node>, base: Marks, bit: nat)
    requires Closed(s) && n in s && s <= base.Keys
    ensures bit in FlagOf(n, s, base) <==> exists p :: Shows(p, n, bit, s, base)
  {
    if bit in FlagOf(n, s, base) {
      var p := FoundBelow(n, s, base, bit);
    }
    if p :| Shows(p, n, bit, s, base) {
      SeenAbove(p, n, s, base, bit);
    }
  }

  // ----- which nodes a run visits, and when it has nothing to do

  ghost function Visited(n: Node, s: set<Node>): (r: set<Node>)
    requires Closed(s) && n in s
    ensures n in r && r <= s
    ensures forall x :: x in r ==> x == n || x.height < n.height
    decreases n.height, 1, 0
  {
    NamedIn(n, s);
    {n} + VisitedAll(Children(n.shape), s, n.height)
  }

  ghost function VisitedAll(ns: seq<Node>, s: set<Node>, bound: nat): (r: set<Node>)
    requires Closed(s) && In(ns, s, bound)
    ensures r <= s
    ensures forall x :: x in r ==> x.height < bound
    decreases bound, 0, |ns|
  {
    if ns == [] then {} else VisitedAll(ns[..|ns| - 1], s, bound) + Visited(ns[|ns| - 1], s)
  }

  lemma {:induction false} ChildVisited(ns: seq<Node>, s: set<Node>, bound: nat, c: Node)
    requires Closed(s) && In(ns, s, bound) && c in ns
    ensures c in VisitedAll(ns, s, bound)
  {
    var last := ns[|ns| - 1];
    if c != last {
      assert c in ns[..|ns| - 1];
      ChildVisited(ns[..|ns| - 1], s, bound, c);
    }
  }

  /** Two accounts of the flags agree on every node without a rule. */
  ghost predicate SameGiven(s: set<Node>, a: Marks, b: Marks)
    requires s <= a.Keys && s <= b.Keys
  {
    forall x :: x in s && !Handled(x.shape) ==> a[x] == b[x]
  }

  lemma {:induction false} FlagOfGiven(n: Node, s: set<Node>, a: Marks, b: Marks)
    requires Closed(s) && n in s && s <= a.Keys && s <= b.Keys && SameGiven(s, a, b)
    ensures FlagOf(n, s, a) == FlagOf(n, s, b)
    decreases n.height, 1, 0
  {
    NamedIn(n, s);
    FlagsOfGiven(Named(n.shape), s, a, b, n.height);
  }

  lemma {:induction false} FlagsOfGiven(ns: seq<Node>, s: set<Node>, a: Marks, b: Marks, bound: nat)
    requires Closed(s) && In(ns, s, bound) && s <= a.Keys && s <= b.Keys && SameGiven(s, a, b)
    ensures FlagsOf(ns, s, a, bound) == FlagsOf(ns, s, b, bound)
    decreases bound, 0, |ns|
  {
    if ns != [] {
      var front, last := ns[..|ns| - 1], ns[|ns| - 1];
      assert last in s && last.height < bound;
      assert In(front, s, bound);
      FlagsOfGiven(front, s, a, b, bound);
      FlagOfGiven(last, s, a, b);
      var fa, fb := FlagsOf(front, s, a, bound), FlagsOf(front, s, b, bound);
      var la, lb := FlagOf(last, s, a), FlagOf(last, s, b);
      assert FlagsOf(ns, s, a, bound) == fa + la;
      assert FlagsOf(ns, s, b, bound) == fb + lb;
    }
  }
}
