/**
 Erase, compare, restore, as transformations of a state that gives every expression node its text
 position and its function-name spelling (internal/parser/tidb/ast/expressions.go:1488-1522).
 Nodes may be shared, within one expression and between the two.
 */
module ExprErasure {

  /** An expression node. Only its text position and the spelling of its function name change. */
  class ExprNode {
    const kind: string
    const payload: string
    const isFuncCall: bool
    const fnLower: string
    const children: seq<ExprNode>
    var offset: int
    var fnName: string

    constructor (kind: string, payload: string, isFuncCall: bool, fnLower: string, children: seq<ExprNode>, offset: int, fnName: string)
      ensures this.kind == kind && this.payload == payload && this.isFuncCall == isFuncCall && this.fnLower == fnLower
      ensures this.children == children && this.offset == offset && this.fnName == fnName
    {
      this.kind, this.payload, this.isFuncCall, this.fnLower := kind, payload, isFuncCall, fnLower;
      this.children, this.offset, this.fnName := children, offset, fnName;
    }
  }

  datatype Slot = Slot(offset: int, fnName: string)

  type State = map<ExprNode, Slot>

  ghost predicate Covers(st: State, l: seq<ExprNode>) {
    forall x :: x in l ==> x in st
  }

  /** Position and spelling erased. */
  function Cleaned(x: ExprNode, v: Slot): Slot {
    Slot(0, if x.isFuncCall then x.fnLower else v.fnName)
  }

  ghost function CleanAll(l: seq<ExprNode>, st: State): (st': State)
    requires Covers(st, l)
    ensures st'.Keys == st.Keys
  {
    if l == [] then st else CleanAll(l[1..], st[l[0] := Cleaned(l[0], st[l[0]])])
  }

  /** What the visits save, one slot per visit. */
  ghost function Saved(l: seq<ExprNode>, st: State): (s: seq<Slot>)
    requires Covers(st, l)
    ensures |s| == |l|
  {
    if l == [] then [] else [st[l[0]]] + Saved(l[1..], st[l[0] := Cleaned(l[0], st[l[0]])])
  }

  function PutBack(x: ExprNode, saved: Slot, now: Slot): Slot {
    Slot(saved.offset, if x.isFuncCall then saved.fnName else now.fnName)
  }

  ghost function RestoreAll(l: seq<ExprNode>, saved: seq<Slot>, st: State): (st': State)
    requires Covers(st, l) && |saved| == |l|
    ensures st'.Keys == st.Keys
  {
    if l == [] then st else RestoreAll(l[1..], saved[1..], st[l[0] := PutBack(l[0], saved[0], st[l[0]])])
  }

  ghost function Count(x: ExprNode, l: seq<ExprNode>): nat {
    multiset(l)[x]
  }

  // ----- laws of the three passes

  lemma {:induction false} CleanAt(l: seq<ExprNode>, st: State, x: ExprNode)
    requires Covers(st, l) && x in st
    ensures CleanAll(l, st)[x] == if x in l then Cleaned(x, st[x]) else st[x]
  {
    if l != [] {
      CleanAt(l[1..], st[l[0] := Cleaned(l[0], st[l[0]])], x);
    }
  }

  /** A visited node takes its value from the visits alone, apart from a name no visit touches. */
  lemma {:induction false} RestoreIgnores(l: seq<ExprNode>, saved: seq<Slot>, st: State, x: ExprNode, v: Slot)
    requires Covers(st, l) && |saved| == |l| && x in st
    requires !x.isFuncCall ==> v.fnName == st[x].fnName
    ensures RestoreAll(l, saved, st[x := v])
         == if x in l then RestoreAll(l, saved, st) else RestoreAll(l, saved, st)[x := v]
  {
    if l == [] {
    } else {
      var y, tail := l[0], l[1..];
      var st1 := st[y := PutBack(y, saved[0], st[y])];
      if y == x {
        assert st[x := v][y := PutBack(y, saved[0], v)] == st1;
      } else {
        assert st[x := v][y := PutBack(y, saved[0], st[y])] == st1[x := v];
        RestoreIgnores(tail, saved[1..], st1, x, v);
      }
    }
  }

  lemma {:induction false} CleanAppend(l: seq<ExprNode>, m: seq<ExprNode>, st: State)
    requires Covers(st, l) && Covers(st, m)
    ensures Covers(st, l + m)
    ensures CleanAll(l + m, st) == CleanAll(m, CleanAll(l, st))
    ensures Saved(l + m, st) == Saved(l, st) + Saved(m, CleanAll(l, st))
  {
    if l == [] {
      assert l + m == m;
    } else {
      assert (l + m)[1..] == l[1..] + m && (l + m)[0] == l[0];
      CleanAppend(l[1..], m, st[l[0] := Cleaned(l[0], st[l[0]])]);
    }
  }

  lemma {:induction false} RestoreAppend(l: seq<ExprNode>, m: seq<ExprNode>, s: seq<Slot>, t: seq<Slot>, st: State)
    requires Covers(st, l) && Covers(st, m) && |s| == |l| && |t| == |m|
    ensures Covers(st, l + m)
    ensures RestoreAll(l + m, s + t, st) == RestoreAll(m, t, RestoreAll(l, s, st))
  {
    if l == [] {
      assert l + m == m && s + t == t;
    } else {
      assert (l + m)[1..] == l[1..] + m && (l + m)[0] == l[0] && (s + t)[1..] == s[1..] + t;
      RestoreAppend(l[1..], m, s[1..], t, st[l[0] := PutBack(l[0], s[0], st[l[0]])]);
    }
  }

  /** Nodes visited once get their value back; nodes visited again stay erased. */
  ghost function Outcome(l: seq<ExprNode>, st: State): State
    requires Covers(st, l)
  {
    map x | x in st :: if Count(x, l) >= 2 then Cleaned(x, st[x]) else st[x]
  }

  lemma {:induction false} RoundTrip(l: seq<ExprNode>, st: State)
    requires Covers(st, l)
    ensures RestoreAll(l, Saved(l, st), CleanAll(l, st)) == Outcome(l, st)
  {
    if l == [] {
    } else {
      var x, tail := l[0], l[1..];
      var st1 := st[x := Cleaned(x, st[x])];
      RoundTripUnfold(l, x, tail, st, st1);
      RestoreIgnores(tail, Saved(tail, st1), CleanAll(tail, st1), x, st[x]);
      RoundTrip(tail, st1);
      OutcomeCons(x, tail, st, st1);
      assert l == [x] + tail;
    }
  }

  lemma RoundTripUnfold(l: seq<ExprNode>, x: ExprNode, tail: seq<ExprNode>, st: State, st1: State)
    requires l != [] && l[0] == x && l[1..] == tail && Covers(st, l) && st1 == st[x := Cleaned(x, st[x])]
    ensures !x.isFuncCall ==> st[x].fnName == CleanAll(tail, st1)[x].fnName
    ensures RestoreAll(l, Saved(l, st), CleanAll(l, st)) == RestoreAll(tail, Saved(tail, st1), CleanAll(tail, st1)[x := st[x]])
  {
    var c := CleanAll(tail, st1);
    CleanAt(tail, st1, x);
    assert PutBack(x, st[x], c[x]) == st[x];
    assert Saved(l, st)[1..] == Saved(tail, st1);
  }

  lemma OutcomeCons(x: ExprNode, tail: seq<ExprNode>, st: State, st1: State)
    requires x in st && Covers(st, tail) && st1 == st[x := Cleaned(x, st[x])]
    ensures Outcome([x] + tail, st) == if x in tail then Outcome(tail, st1) else Outcome(tail, st1)[x := st[x]]
  {
    assert x in tail <==> x in multiset(tail);
    forall y | y in st ensures Count(y, [x] + tail) == Count(y, tail) + if y == x then 1 else 0 { }
  }
}
