/**
 What comparing two expressions answers, and what it leaves behind: positions and spellings come
 back exactly at the nodes reached once, so all of them do for two disjoint trees.
 */
module ExprEquality {
  import opened ExprErasure
  import opened ExprCompare

  /** An expression as reflection compares it. */
  datatype View = View(kind: string, payload: string, isFuncCall: bool, fnLower: string, slot: Slot, children: seq<View>)

  ghost predicate Within(l: seq<ExprNode>, st: State) {
    forall x :: x in l ==> x in st
  }

  ghost function ViewOf(e: ExprNode, n: nat, st: State): View
    requires Ranked(e, n) && Within(Visits(e, n), st)
    decreases n, 0
  {
    assert forall x :: x in VisitsAll(e.children, n - 1) ==> x in Visits(e, n);
    assert e in Visits(e, n);
    View(e.kind, e.payload, e.isFuncCall, e.fnLower, st[e], ViewsOf(e.children, n - 1, st))
  }

  ghost function ViewsOf(es: seq<ExprNode>, n: nat, st: State): (vs: seq<View>)
    requires AllRanked(es, n) && Within(VisitsAll(es, n), st)
    ensures |vs| == |es|
    decreases n, |es| + 1
  {
    if es == [] then [] else
      assert forall x :: x in VisitsAll(es[..|es| - 1], n) ==> x in VisitsAll(es, n);
      assert forall x :: x in Visits(es[|es| - 1], n) ==> x in VisitsAll(es, n);
      ViewsOf(es[..|es| - 1], n, st) + [ViewOf(es[|es| - 1], n, st)]
  }

  /** Positions dropped and function names in lower case. */
  ghost function Erase(v: View): View {
    View(v.kind, v.payload, v.isFuncCall, v.fnLower, Slot(0, if v.isFuncCall then v.fnLower else v.slot.fnName), EraseAll(v.children))
  }

  ghost function EraseAll(vs: seq<View>): seq<View> {
    if vs == [] then [] else EraseAll(vs[..|vs| - 1]) + [Erase(vs[|vs| - 1])]
  }

  /** Alike but for text positions and the case of function names, down to every child. */
  ghost predicate Similar(v: View, w: View) {
    && v.kind == w.kind && v.payload == w.payload && v.isFuncCall == w.isFuncCall && v.fnLower == w.fnLower
    && (!v.isFuncCall ==> v.slot.fnName == w.slot.fnName)
    && |v.children| == |w.children|
    && forall i :: 0 <= i < |v.children| ==> Similar(v.children[i], w.children[i])
  }

  lemma {:induction false} ErasedAt(vs: seq<View>)
    ensures |EraseAll(vs)| == |vs| && forall i :: 0 <= i < |vs| ==> EraseAll(vs)[i] == Erase(vs[i])
  {
    if vs != [] {
      var n := |vs| - 1;
      ErasedAt(vs[..n]);
      assert forall i :: 0 <= i < n ==> vs[..n][i] == vs[i];
    }
  }

  /** Two expressions are equal when erased exactly when they are alike. */
  lemma {:induction false} EqualExactly(v: View, w: View)
    ensures Erase(v) == Erase(w) <==> Similar(v, w)
    decreases v
  {
    ErasedAt(v.children);
    ErasedAt(w.children);
    var a, b := Erase(v), Erase(w);
    if |v.children| == |w.children| {
      forall i | 0 <= i < |v.children| ensures a.children[i] == b.children[i] <==> Similar(v.children[i], w.children[i]) {
        EqualExactly(v.children[i], w.children[i]);
      }
      if Similar(v, w) { assert a.children == b.children; }
    }
  }

  /** A node that is reached once comes back as it was; one that is reached again is left at position 0, and with its
      name in lower case when it is a call. */
  lemma LeftOf(l: seq<ExprNode>, st: State, x: ExprNode)
    requires Covers(st, l) && x in st
    ensures Count(x, l) <= 1 ==> Outcome(l, st)[x] == st[x]
    ensures Count(x, l) > 1 ==> Outcome(l, st)[x] == Slot(0, if x.isFuncCall then x.fnLower else st[x].fnName)
  {
  }

  ghost predicate CleanedOn(l: seq<ExprNode>, st: State, st': State) {
    forall x :: x in l ==> x in st && x in st' && st'[x] == Cleaned(x, st[x])
  }

  lemma {:induction false} ErasedView(e: ExprNode, n: nat, st: State, st': State)
    requires Ranked(e, n) && CleanedOn(Visits(e, n), st, st')
    ensures ViewOf(e, n, st') == Erase(ViewOf(e, n, st))
    decreases n, 0
  {
    assert e in Visits(e, n);
    assert forall x :: x in VisitsAll(e.children, n - 1) ==> x in Visits(e, n);
    ErasedViews(e.children, n - 1, st, st');
  }

  lemma {:induction false} ErasedViews(es: seq<ExprNode>, n: nat, st: State, st': State)
    requires AllRanked(es, n) && CleanedOn(VisitsAll(es, n), st, st')
    ensures ViewsOf(es, n, st') == EraseAll(ViewsOf(es, n, st))
    decreases n, |es| + 1
  {
    if es != [] {
      var front, last := es[..|es| - 1], es[|es| - 1];
      assert forall x :: x in VisitsAll(front, n) || x in Visits(last, n) ==> x in VisitsAll(es, n);
      ErasedViews(front, n, st, st');
      ErasedView(last, n, st, st');
      EraseSnoc(ViewsOf(front, n, st), ViewOf(last, n, st));
    }
  }

  lemma EraseSnoc(vs: seq<View>, v: View)
    ensures EraseAll(vs + [v]) == EraseAll(vs) + [Erase(v)]
  {
    assert (vs + [v])[..|vs|] == vs;
  }

  lemma {:induction false} ViewAt(es: seq<ExprNode>, n: nat, st: State, k: nat)
    requires AllRanked(es, n) && Within(VisitsAll(es, n), st) && k < |es|
    ensures Within(Visits(es[k], n), st) && ViewsOf(es, n, st)[k] == ViewOf(es[k], n, st)
    decreases |es|
  {
    var front, last := es[..|es| - 1], es[|es| - 1];
    assert forall x :: x in VisitsAll(front, n) || x in Visits(last, n) ==> x in VisitsAll(es, n);
    if k < |es| - 1 { ViewAt(front, n, st, k); }
  }

  ghost predicate SameViews(a: seq<ExprNode>, n: nat, b: seq<ExprNode>, m: nat, st: State, k: nat)
    requires AllRanked(a, n) && Within(VisitsAll(a, n), st) && AllRanked(b, m) && Within(VisitsAll(b, m), st)
    requires k <= |a| == |b|
  {
    forall i :: 0 <= i < k ==> ViewsOf(a, n, st)[i] == ViewsOf(b, m, st)[i]
  }

  method DeepEqual(a: ExprNode, b: ExprNode, ghost n: nat, ghost m: nat, ghost s: set<ExprNode>) returns (eq: bool)
    requires Ranked(a, n) && Within(Visits(a, n), HeapState(s)) && Ranked(b, m) && Within(Visits(b, m), HeapState(s))
    ensures eq == (ViewOf(a, n, HeapState(s)) == ViewOf(b, m, HeapState(s)))
    decreases n, 0
  {
    ghost var st := HeapState(s);
    assert a in Visits(a, n) && b in Visits(b, m);
    assert forall x :: x in VisitsAll(a.children, n - 1) ==> x in Visits(a, n);
    assert forall x :: x in VisitsAll(b.children, m - 1) ==> x in Visits(b, m);
    if a.kind != b.kind || a.payload != b.payload || a.isFuncCall != b.isFuncCall || a.fnLower != b.fnLower { return false; }
    if a.offset != b.offset || a.fnName != b.fnName { return false; }
    eq := DeepEqualAll(a.children, b.children, n - 1, m - 1, s);
  }

  method DeepEqualAll(a: seq<ExprNode>, b: seq<ExprNode>, ghost n: nat, ghost m: nat, ghost s: set<ExprNode>) returns (eq: bool)
    requires AllRanked(a, n) && Within(VisitsAll(a, n), HeapState(s)) && AllRanked(b, m) && Within(VisitsAll(b, m), HeapState(s))
    ensures eq == (ViewsOf(a, n, HeapState(s)) == ViewsOf(b, m, HeapState(s)))
    decreases n, 1
  {
    if |a| != |b| { return false; }
    var i := 0;
    while i < |a|
      invariant i <= |a| && SameViews(a, n, b, m, HeapState(s), i)
    {
      ViewAt(a, n, HeapState(s), i);
      ViewAt(b, m, HeapState(s), i);
      var same := DeepEqual(a[i], b[i], n, m, s);
      if !same { return false; }
      i := i + 1;
    }
    return true;
  }

  /** The answer compares the expressions up to positions and function-name case; the state left
      behind is `Outcome` of the two visits. It is the state found exactly when no node that is reached
      more than once had anything to erase; comparing an expression with itself leaves it erased. */
  method ExpressionDeepEqual(a: ExprNode, b: ExprNode, ghost n: nat, ghost m: nat, ghost s: set<ExprNode>) returns (result: bool)
    requires Ranked(a, n) && Within(Visits(a, n), HeapState(s)) && Ranked(b, m) && Within(Visits(b, m), HeapState(s))
    modifies s
    ensures result <==> Similar(ViewOf(a, n, old(HeapState(s))), ViewOf(b, m, old(HeapState(s))))
    ensures Covers(old(HeapState(s)), Visits(a, n) + Visits(b, m))
    ensures HeapState(s) == Outcome(Visits(a, n) + Visits(b, m), old(HeapState(s)))
    ensures HeapState(s) == old(HeapState(s)) <==> NothingErased(Visits(a, n) + Visits(b, m), old(HeapState(s)))
    ensures a == b && n == m ==> CleanedOn(Visits(a, n), old(HeapState(s)), HeapState(s))
  {
    var cleanerA := new ExprCleaner();
    var cleanerB := new ExprCleaner();
    ghost var st := HeapState(s);
    ghost var sa, sb := EraseBoth(a, b, cleanerA, cleanerB, n, m, s);
    ErasedView(a, n, st, HeapState(s));
    ErasedView(b, m, st, HeapState(s));
    EqualExactly(ViewOf(a, n, st), ViewOf(b, m, st));
    result := DeepEqual(a, b, n, m, s);
    RestoreBoth(a, b, cleanerA, cleanerB, n, m, s, sa, sb);
    LeftBehind(Visits(a, n), Visits(b, m), st, HeapState(s));
  }

  /** The state after both halves. */
  lemma LeftBehind(l: seq<ExprNode>, k: seq<ExprNode>, st: State, after: State)
    requires Covers(st, l + k) && after == RestoreAll(l + k, Saved(l + k, st), CleanAll(l + k, st))
    ensures after == Outcome(l + k, st) && (after == st <==> NothingErased(l + k, st))
    ensures l == k ==> CleanedOn(l, st, after)
  {
    RoundTrip(l + k, st);
    RestoredExactly(l + k, st);
    if l == k {
      assert forall x :: x in l ==> x in l + k;
      SelfComparisonErases(l, st);
    }
  }

  /** The erasing half: both cleaners end up holding what their visits saved. */
  method EraseBoth(a: ExprNode, b: ExprNode, cleanerA: ExprCleaner, cleanerB: ExprCleaner, ghost n: nat, ghost m: nat,
                   ghost s: set<ExprNode>)
    returns (ghost sa: seq<Slot>, ghost sb: seq<Slot>)
    requires Ranked(a, n) && Within(Visits(a, n), HeapState(s)) && Ranked(b, m) && Within(Visits(b, m), HeapState(s))
    requires cleanerA != cleanerB && Fresh(cleanerA) && Fresh(cleanerB)
    modifies cleanerA, cleanerB, s
    ensures Covers(old(HeapState(s)), Visits(a, n) + Visits(b, m))
    ensures HeapState(s) == CleanAll(Visits(a, n) + Visits(b, m), old(HeapState(s)))
    ensures sa + sb == Saved(Visits(a, n) + Visits(b, m), old(HeapState(s)))
    ensures |sa| == |Visits(a, n)| && Holding(cleanerA, Visits(a, n), sa)
    ensures |sb| == |Visits(b, m)| && Holding(cleanerB, Visits(b, m), sb)
    ensures CleanedOn(Visits(a, n), old(HeapState(s)), HeapState(s)) && CleanedOn(Visits(b, m), old(HeapState(s)), HeapState(s))
  {
    ghost var st, l, k := HeapState(s), Visits(a, n), Visits(b, m);
    sa := Saved(l, st);
    sb := Saved(k, CleanAll(l, st));
    Accept(a, cleanerA, n, s, [], [], []);
    Accept(b, cleanerB, m, s, [], [], []);
    CleanAppend(l, k, st);
    BothCleaned(l, k, st);
  }

  /** The restoring half. */
  method RestoreBoth(a: ExprNode, b: ExprNode, cleanerA: ExprCleaner, cleanerB: ExprCleaner, ghost n: nat, ghost m: nat,
                     ghost s: set<ExprNode>, ghost sa: seq<Slot>, ghost sb: seq<Slot>)
    requires Ranked(a, n) && Within(Visits(a, n), HeapState(s)) && Ranked(b, m) && Within(Visits(b, m), HeapState(s))
    requires cleanerA != cleanerB
    requires |sa| == |Visits(a, n)| && Holding(cleanerA, Visits(a, n), sa)
    requires |sb| == |Visits(b, m)| && Holding(cleanerB, Visits(b, m), sb)
    modifies cleanerA, cleanerB, s
    ensures Covers(old(HeapState(s)), Visits(a, n) + Visits(b, m))
    ensures HeapState(s) == RestoreAll(Visits(a, n) + Visits(b, m), sa + sb, old(HeapState(s)))
  {
    ghost var st := HeapState(s);
    cleanerA.BeginRestore();
    cleanerB.BeginRestore();
    Accept(a, cleanerA, n, s, sa, [], []);
    Accept(b, cleanerB, m, s, sb, [], []);
    RestoreAppend(Visits(a, n), Visits(b, m), sa, sb, st);
  }

  ghost predicate Fresh(v: ExprCleaner) reads v {
    v.oldTextPos == [] && !v.restore && v.oldOriginFuncName == []
  }

  ghost predicate Holding(v: ExprCleaner, l: seq<ExprNode>, saved: seq<Slot>)
    requires |saved| == |l|
    reads v
  {
    !v.restore && v.oldTextPos == Positions(saved) + [] && v.oldOriginFuncName == Names(l, saved) + []
  }

  lemma BothCleaned(l: seq<ExprNode>, k: seq<ExprNode>, st: State)
    requires Covers(st, l) && Covers(st, k)
    ensures CleanedOn(l, st, CleanAll(k, CleanAll(l, st))) && CleanedOn(k, st, CleanAll(k, CleanAll(l, st)))
  {
    forall x | x in l || x in k ensures CleanAll(k, CleanAll(l, st))[x] == Cleaned(x, st[x]) {
      CleanAt(l, st, x);
      CleanAt(k, CleanAll(l, st), x);
    }
  }

  // ----- when everything comes back

  /** No node that is reached more than once has anything to erase. */
  ghost predicate NothingErased(l: seq<ExprNode>, st: State) {
    forall x :: x in st && Count(x, l) >= 2 ==> st[x] == Cleaned(x, st[x])
  }

  lemma RestoredExactly(l: seq<ExprNode>, st: State)
    requires Covers(st, l)
    ensures Outcome(l, st) == st <==> NothingErased(l, st)
  {
    if Outcome(l, st) == st {
      forall x | x in st && Count(x, l) >= 2 ensures st[x] == Cleaned(x, st[x]) { assert Outcome(l, st)[x] == st[x]; }
    }
  }

  /** Two disjoint trees without shared nodes come back unchanged. */
  lemma DisjointRestored(l: seq<ExprNode>, k: seq<ExprNode>, st: State)
    requires Covers(st, l) && Covers(st, k)
    requires forall i, j :: 0 <= i < j < |l| ==> l[i] != l[j]
    requires forall i, j :: 0 <= i < j < |k| ==> k[i] != k[j]
    requires forall x :: x in l ==> x !in k
    ensures Covers(st, l + k) && Outcome(l + k, st) == st
  {
    forall x | x in st ensures Count(x, l + k) <= 1 {
      NoRepeat(l, x);
      NoRepeat(k, x);
      assert multiset(l + k)[x] == multiset(l)[x] + multiset(k)[x];
      assert x in l <==> x in multiset(l);
      assert x in k <==> x in multiset(k);
    }
  }

  lemma {:induction false} NoRepeat(l: seq<ExprNode>, x: ExprNode)
    requires forall i, j :: 0 <= i < j < |l| ==> l[i] != l[j]
    ensures multiset(l)[x] <= 1
  {
    if l != [] {
      NoRepeat(l[1..], x);
      assert l == [l[0]] + l[1..];
      assert x in l[1..] <==> x in multiset(l[1..]);
    }
  }

  lemma SelfComparisonErases(l: seq<ExprNode>, st: State)
    requires Covers(st, l)
    ensures Covers(st, l + l) && CleanedOn(l, st, Outcome(l + l, st))
  {
    forall x | x in l ensures Outcome(l + l, st)[x] == Cleaned(x, st[x]) {
      assert x in multiset(l) && multiset(l + l)[x] == 2 * multiset(l)[x];
    }
  }
}
