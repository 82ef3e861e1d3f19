/**
 Comparing two expressions in place: erase positions and name spellings by a visitor, compare, and
 restore by the same visitor (internal/parser/tidb/ast/expressions.go:1488-1536).
 */
module ExprCompare {
  import opened Basics
  import opened ExprErasure

  /** An acyclic expression of height at most `n`; nodes may be shared. */
  ghost predicate Ranked(e: ExprNode, n: nat) {
    n > 0 && forall c :: c in e.children ==> Ranked(c, n - 1)
  }

  ghost predicate AllRanked(es: seq<ExprNode>, n: nat) {
    forall e :: e in es ==> Ranked(e, n)
  }

  /** The nodes in the order they are entered, a shared node as often as it is reached. */
  ghost function Visits(e: ExprNode, n: nat): seq<ExprNode>
    requires Ranked(e, n)
    decreases n, 0
  {
    [e] + VisitsAll(e.children, n - 1)
  }

  ghost function VisitsAll(es: seq<ExprNode>, n: nat): seq<ExprNode>
    requires AllRanked(es, n)
    decreases n, |es| + 1
  {
    if es == [] then [] else VisitsAll(es[..|es| - 1], n) + Visits(es[|es| - 1], n)
  }

  ghost function HeapState(s: set<ExprNode>): State
    reads s
  {
    map x | x in s :: Slot(x.offset, x.fnName)
  }

  ghost function Positions(saved: seq<Slot>): seq<int> {
    if saved == [] then [] else [saved[0].offset] + Positions(saved[1..])
  }

  ghost function Names(l: seq<ExprNode>, saved: seq<Slot>): seq<string>
    requires |saved| == |l|
  {
    if l == [] then [] else (if l[0].isFuncCall then [saved[0].fnName] else []) + Names(l[1..], saved[1..])
  }

  lemma {:induction false} QueuesAppend(l: seq<ExprNode>, m: seq<ExprNode>, s: seq<Slot>, t: seq<Slot>)
    requires |s| == |l| && |t| == |m|
    ensures Positions(s + t) == Positions(s) + Positions(t)
    ensures Names(l + m, s + t) == Names(l, s) + Names(m, t)
  {
    if l == [] {
      assert l + m == m && s + t == t;
    } else {
      assert (l + m)[1..] == l[1..] + m && (s + t)[1..] == s[1..] + t;
      QueuesAppend(l[1..], m, s[1..], t);
    }
  }

  class ExprCleaner {
    var oldTextPos: seq<int>
    var restore: bool
    var oldOriginFuncName: seq<string>

    constructor ()
      ensures oldTextPos == [] && !restore && oldOriginFuncName == []
    {
      oldTextPos, restore, oldOriginFuncName := [], false, [];
    }

    method BeginRestore()
      modifies `restore
      ensures restore
    {
      restore := true;
    }

    /** Saves and erases, or takes back what was saved first. */
    method Enter(n: ExprNode, ghost s: set<ExprNode>)
      requires n in s
      requires restore ==> |oldTextPos| >= 1 && (n.isFuncCall ==> |oldOriginFuncName| >= 1)
      modifies this, n
      ensures restore == old(restore)
      ensures !restore ==>
                && HeapState(s) == old(HeapState(s))[n := Cleaned(n, old(HeapState(s))[n])]
                && oldTextPos == old(oldTextPos) + [old(n.offset)]
                && oldOriginFuncName == old(oldOriginFuncName) + if n.isFuncCall then [old(n.fnName)] else []
      ensures restore ==>
                && var v := Slot(old(oldTextPos)[0], if n.isFuncCall then old(oldOriginFuncName)[0] else "");
                && HeapState(s) == old(HeapState(s))[n := PutBack(n, v, old(HeapState(s))[n])]
                && oldTextPos == old(oldTextPos)[1..]
                && oldOriginFuncName == if n.isFuncCall then old(oldOriginFuncName)[1..] else old(oldOriginFuncName)
    {
      if restore {
        n.offset := oldTextPos[0];
        oldTextPos := oldTextPos[1..];
        if n.isFuncCall {
          n.fnName := oldOriginFuncName[0];
          oldOriginFuncName := oldOriginFuncName[1..];
        }
        return;
      }
      oldTextPos := oldTextPos + [n.offset];
      n.offset := 0;
      if n.isFuncCall {
        oldOriginFuncName := oldOriginFuncName + [n.fnName];
        n.fnName := n.fnLower;
      }
    }
  }

  /** After erasing the visits `l` from the state `st`, with `pos` and `names` saved before. */
  ghost predicate Erased(v: ExprCleaner, s: set<ExprNode>, l: seq<ExprNode>, st: State, pos: seq<int>, names: seq<string>)
    reads v, s
  {
    && Covers(st, l) && !v.restore && HeapState(s) == CleanAll(l, st)
    && v.oldTextPos == pos + Positions(Saved(l, st)) && v.oldOriginFuncName == names + Names(l, Saved(l, st))
  }

  /** After restoring the visits `l` with `saved`, with `pos` and `names` still queued. */
  ghost predicate Restored(v: ExprCleaner, s: set<ExprNode>, l: seq<ExprNode>, saved: seq<Slot>, st: State, pos: seq<int>,
                           names: seq<string>)
    reads v, s
  {
    && Covers(st, l) && |saved| == |l| && v.restore && HeapState(s) == RestoreAll(l, saved, st)
    && v.oldTextPos == pos && v.oldOriginFuncName == names
  }

  lemma ErasedAppend(v: ExprCleaner, s: set<ExprNode>, l: seq<ExprNode>, m: seq<ExprNode>, st: State, pos: seq<int>, names: seq<string>)
    requires Covers(st, l)
    requires Erased(v, s, m, CleanAll(l, st), pos + Positions(Saved(l, st)), names + Names(l, Saved(l, st)))
    ensures Erased(v, s, l + m, st, pos, names)
  {
    var a, b := Saved(l, st), Saved(m, CleanAll(l, st));
    CleanAppend(l, m, st);
    QueuesAppend(l, m, a, b);
    Assoc(pos, Positions(a), Positions(b));
    Assoc(names, Names(l, a), Names(m, b));
  }

  lemma RestoredAppend(v: ExprCleaner, s: set<ExprNode>, l: seq<ExprNode>, m: seq<ExprNode>, a: seq<Slot>, b: seq<Slot>,
                       st: State, pos: seq<int>, names: seq<string>)
    requires Covers(st, l) && |a| == |l|
    requires Restored(v, s, m, b, RestoreAll(l, a, st), pos, names)
    ensures Restored(v, s, l + m, a + b, st, pos, names)
  {
    RestoreAppend(l, m, a, b, st);
  }

  /** What an expression's visit does in either mode. */
  ghost predicate Ready(v: ExprCleaner, s: set<ExprNode>, l: seq<ExprNode>, saved: seq<Slot>, pos: seq<int>, names: seq<string>)
    reads v
  {
    && (forall x :: x in l ==> x in s)
    && (v.restore ==> |saved| == |l| && v.oldTextPos == Positions(saved) + pos && v.oldOriginFuncName == Names(l, saved) + names)
  }

  ghost predicate Done(v: ExprCleaner, s: set<ExprNode>, l: seq<ExprNode>, saved: seq<Slot>, pos: seq<int>, names: seq<string>,
                       st: State, pos0: seq<int>, names0: seq<string>)
    reads v, s
  {
    if v.restore then Restored(v, s, l, saved, st, pos, names) else Erased(v, s, l, st, pos0, names0)
  }

  method Accept(e: ExprNode, v: ExprCleaner, ghost n: nat, ghost s: set<ExprNode>,
                ghost saved: seq<Slot>, ghost pos: seq<int>, ghost names: seq<string>)
    requires Ranked(e, n) && Ready(v, s, Visits(e, n), saved, pos, names)
    modifies v, s
    ensures v.restore == old(v.restore)
    ensures Done(v, s, Visits(e, n), saved, pos, names, old(HeapState(s)), old(v.oldTextPos), old(v.oldOriginFuncName))
    decreases n, 0
  {
    ghost var st, pos0, names0 := HeapState(s), v.oldTextPos, v.oldOriginFuncName;
    ghost var kids := VisitsAll(e.children, n - 1);
    ghost var head, tail: seq<Slot> := saved, [];
    if v.restore {
      head, tail := saved[..1], saved[1..];
      SplitQueues(e, kids, saved);
    }
    EnterOne(e, v, s, head, Positions(tail) + pos, (if v.restore then Names(kids, tail) else []) + names);
    AcceptAll(e.children, v, n - 1, s, tail, pos, names);
    if v.restore {
      RestoredAppend(v, s, [e], kids, head, tail, st, pos, names);
      assert head + tail == saved;
    } else {
      ErasedAppend(v, s, [e], kids, st, pos0, names0);
    }
  }

  method EnterOne(e: ExprNode, v: ExprCleaner, ghost s: set<ExprNode>,
                  ghost head: seq<Slot>, ghost pos: seq<int>, ghost names: seq<string>)
    requires e in s
    requires v.restore ==> |head| == 1 && v.oldTextPos == [head[0].offset] + pos
                           && v.oldOriginFuncName == (if e.isFuncCall then [head[0].fnName] else []) + names
    modifies v, e
    ensures v.restore == old(v.restore)
    ensures Done(v, s, [e], head, pos, names, old(HeapState(s)), old(v.oldTextPos), old(v.oldOriginFuncName))
  {
    ghost var st := HeapState(s);
    v.Enter(e, s);
    assert [e][1..] == [];
    if v.restore {
      assert RestoreAll([e], head, st) == st[e := PutBack(e, head[0], st[e])];
    } else {
      assert CleanAll([e], st) == st[e := Cleaned(e, st[e])];
      assert Saved([e], st) == [st[e]];
    }
  }

  lemma SplitQueues(e: ExprNode, kids: seq<ExprNode>, saved: seq<Slot>)
    requires |saved| == 1 + |kids|
    ensures Positions(saved) == [saved[0].offset] + Positions(saved[1..])
    ensures Names([e] + kids, saved) == (if e.isFuncCall then [saved[0].fnName] else []) + Names(kids, saved[1..])
  {
    assert ([e] + kids)[1..] == kids;
  }

  method AcceptAll(es: seq<ExprNode>, v: ExprCleaner, ghost n: nat, ghost s: set<ExprNode>,
                   ghost saved: seq<Slot>, ghost pos: seq<int>, ghost names: seq<string>)
    requires AllRanked(es, n) && Ready(v, s, VisitsAll(es, n), saved, pos, names)
    modifies v, s
    ensures v.restore == old(v.restore)
    ensures Done(v, s, VisitsAll(es, n), saved, pos, names, old(HeapState(s)), old(v.oldTextPos), old(v.oldOriginFuncName))
    decreases n, |es| + 1
  {
    ghost var st, pos0, names0 := HeapState(s), v.oldTextPos, v.oldOriginFuncName;
    if es == [] { return; }
    ghost var front, last := VisitsAll(es[..|es| - 1], n), Visits(es[|es| - 1], n);
    ghost var a, b: seq<Slot> := saved, [];
    ghost var pos1, names1 := pos, names;
    if v.restore {
      a, b := saved[..|front|], saved[|front|..];
      QueuesAppend(front, last, a, b);
      assert a + b == saved;
      pos1, names1 := Positions(b) + pos, Names(last, b) + names;
    }
    AcceptAll(es[..|es| - 1], v, n, s, a, pos1, names1);
    Accept(es[|es| - 1], v, n, s, b, pos, names);
    if v.restore {
      RestoredAppend(v, s, front, last, a, b, st, pos, names);
    } else {
      ErasedAppend(v, s, front, last, st, pos0, names0);
    }
  }
}
