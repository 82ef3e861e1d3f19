/**
 What the cross-join builder does to the shape of a join tree: its leaves, their order and the
 number of join nodes.
 */
module JoinLeaves {
  import opened JoinRows
  import opened JoinTree

  ghost function Leaves(t: Tree): seq<Table> {
    match t
    case Leaf(x) => [x]
    case Wrap(u, _, _) => Leaves(u)
    case Node(l, r, _, _) => Leaves(l) + Leaves(r)
  }

  ghost function Joins(t: Tree): nat {
    match t
    case Leaf(_) => 0
    case Wrap(u, _, _) => 1 + Joins(u)
    case Node(l, r, _, _) => 1 + Joins(l) + Joins(r)
  }

  ghost predicate SwapsNothing(t: Tree) requires t.Node? {
    !Swaps(t) && (t.left.Node? ==> SwapsNothing(t.left))
  }

  lemma {:induction false} LeavesAreTables(t: Tree)
    ensures Leaves(t) != [] && forall x :: x in Leaves(t) <==> x in Tables(t)
  {
    match t
    case Leaf(_) =>
    case Wrap(u, _, _) => LeavesAreTables(u);
    case Node(l, r, _, _) =>
      LeavesAreTables(l);
      LeavesAreTables(r);
  }

  lemma GraftOpens(a: Tree, t: Tree)
    requires t.Node?
    ensures Leaves(Graft(a, t)) == Leaves(GraftLeft(a, t)) + Leaves(Other(t))
    ensures Joins(Graft(a, t)) == 1 + Joins(GraftLeft(a, t)) + Joins(Other(t))
    ensures multiset(Leaves(t)) == multiset(Leaves(Spine(t))) + multiset(Leaves(Other(t)))
    ensures Joins(t) == 1 + Joins(Spine(t)) + Joins(Other(t))
  {
    assert Graft(a, t) == Node(GraftLeft(a, t), Other(t), SpineType(t), t.info);
    Bag(Leaves(t.left), Leaves(t.right));
  }

  lemma {:induction false} GraftLeaves(a: Tree, t: Tree)
    requires t.Node?
    ensures multiset(Leaves(Graft(a, t))) == multiset(Leaves(a)) + multiset(Leaves(t))
    ensures Joins(Graft(a, t)) == Joins(a) + Joins(t) + 1
  {
    var s := Spine(t);
    GraftOpens(a, t);
    if s.Node? {
      GraftLeaves(a, s);
    } else {
      Bag(Leaves(a), Leaves(s));
    }
    Bag(Leaves(GraftLeft(a, t)), Leaves(Other(t)));
  }

  lemma Bag(s: seq<Table>, t: seq<Table>)
    ensures multiset(s + t) == multiset(s) + multiset(t)
  {
  }

  lemma {:induction false} GraftOrder(a: Tree, t: Tree)
    requires t.Node? && Distinct(t)
    ensures Leaves(Graft(a, t)) == Leaves(a) + Leaves(t) <==> SwapsNothing(t)
  {
    var whole := Leaves(a) + Leaves(t);
    LeavesAreTables(t.left);
    LeavesAreTables(t.right);
    if Swaps(t) {
      var got := Leaves(Graft(a, t));
      assert got[|got| - 1] == Leaves(t.left)[|Leaves(t.left)| - 1];
      assert Leaves(t.left)[|Leaves(t.left)| - 1] in Leaves(t.left);
      assert Leaves(t.right)[|Leaves(t.right)| - 1] in Leaves(t.right);
      assert whole[|whole| - 1] == Leaves(t.right)[|Leaves(t.right)| - 1];
    } else {
      var g := Leaves(GraftLeft(a, t));
      assert whole == (Leaves(a) + Leaves(t.left)) + Leaves(t.right);
      Cancel(g, Leaves(a) + Leaves(t.left), Leaves(t.right));
      if t.left.Node? { GraftOrder(a, t.left); }
    }
  }

  lemma Cancel(s: seq<Table>, t: seq<Table>, u: seq<Table>)
    ensures s + u == t + u <==> s == t
  {
    if s + u == t + u {
      assert |s| == |t|;
      assert (s + u)[..|s|] == s;
      assert (t + u)[..|s|] == t;
    }
  }

  /** The built tree has exactly one join more than its operands, the same leaves as often, and
      lists them left operand first exactly when no join on the walk was swapped. */
  lemma CrossTreeShape(a: Tree, t: Tree)
    requires Distinct(t)
    ensures Joins(CrossTree(a, t)) == Joins(a) + Joins(t) + 1
    ensures multiset(Leaves(CrossTree(a, t))) == multiset(Leaves(a)) + multiset(Leaves(t))
    ensures Leaves(CrossTree(a, t)) == Leaves(a) + Leaves(t) <==> (t.Node? && !t.info.parens ==> SwapsNothing(t))
  {
    if t.Node? && !t.info.parens {
      GraftLeaves(a, t);
      GraftOrder(a, t);
    }
  }
}
