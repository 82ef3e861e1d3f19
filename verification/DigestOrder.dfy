/**
 Which literals a digest keeps and which signs it drops, told by the shape of the token stack: integers in a
 list after ORDER BY or GROUP BY stay (internal/parser/tidb/digester.go:300-322, 371-405, 480-533, 575-599).
 */
module DigestOrder {
  import opened Basics
  import opened DigestTokens
  import opened DigestRuns
  import opened DigestGaps

  // ----- the end of the stack

  predicate Spelled(t: Token, words: seq<string>) { t.lit.Sym? && Spell(t.lit) in words }

  /** Tokens that are each followed by a comma. */
  predicate CommaEnded(items: seq<Token>) {
    |items| % 2 == 0 && forall i :: 0 <= i < |items| && i % 2 == 1 ==> Spelled(items[i], [","])
  }

  /** ORDER or GROUP, then BY, perhaps an opening parenthesis, and tokens that are each followed by a comma. */
  predicate OrderList(p: seq<Token>, k: Token, b: Token, open: seq<Token>, items: seq<Token>) {
    && Spelled(k, ["order", "group"]) && Spelled(b, ["by"])
    && |open| <= 1 && (forall t :: t in open ==> Spelled(t, ["("])) && CommaEnded(items)
  }

  function Stacked(p: seq<Token>, k: Token, b: Token, open: seq<Token>, items: seq<Token>): seq<Token> {
    p + [k, b] + open + items
  }

  ghost predicate EndsInOrderList(s: seq<Token>) {
    exists p, k, b, open, items :: OrderList(p, k, b, open, items) && s == Stacked(p, k, b, open, items)
  }

  /** Different symbols are spelled differently. */
  lemma SymbolIs(t: Token, c: Lit)
    requires c.Sym? && c.code < |SPELLINGS|
    ensures Spelled(t, [SPELLINGS[c.code]]) <==> t.lit == c
  {
    if t.lit.Sym? && t.lit.code < |SPELLINGS| && SPELLINGS[t.lit.code] == SPELLINGS[c.code] {
      SpellingsDiffer(t.lit.code, c.code);
    }
  }

  lemma SpellingsDiffer(i: nat, j: nat)
    requires i < |SPELLINGS| && j < |SPELLINGS| && SPELLINGS[i] == SPELLINGS[j]
    ensures i == j
  {
  }

  lemma SpelledBy(t: Token)
    ensures Spelled(t, ["by"]) <==> t.lit == By
    ensures Spelled(t, ["("]) <==> t.lit == Open
    ensures Spelled(t, [","]) <==> t.lit == Comma
  {
    SymbolIs(t, By);
    SymbolIs(t, Open);
    SymbolIs(t, Comma);
  }

  lemma SpelledOrder(t: Token)
    ensures Spelled(t, ["order", "group"]) <==> t.lit == Order || t.lit == Group
  {
    SymbolIs(t, Order);
    SymbolIs(t, Group);
    assert Spelled(t, ["order", "group"]) <==> Spelled(t, ["order"]) || Spelled(t, ["group"]);
  }

  // ----- the backward walk

  /** The walk passes over tokens that are each followed by a comma. */
  lemma {:induction false} WalkPasses(s: seq<Token>, base: seq<Token>, items: seq<Token>, n: nat)
    requires s == base + items && CommaEnded(items) && 2 <= n <= |items| + 2 && n % 2 == 0
    ensures OrderOrGroupFrom(s, n) == OrderOrGroupFrom(s, |items| + 2)
    decreases |items| - n
  {
    if n < |items| + 2 {
      var i := |items| - n + 1;
      assert s[|s| - n + 1] == items[i] && i % 2 == 1;
      SpelledBy(items[i]);
      WalkPasses(s, base, items, n + 2);
    }
  }

  lemma BaseAt(s: seq<Token>, base: seq<Token>, items: seq<Token>, j: nat)
    requires s == base + items && j < |base|
    ensures s[j] == base[j]
  {
  }

  lemma WalkAnswers(p: seq<Token>, k: Token, b: Token, open: seq<Token>, items: seq<Token>)
    requires OrderList(p, k, b, open, items)
    ensures OrderOrGroupFrom(Stacked(p, k, b, open, items), 2)
  {
    var base := p + [k, b] + open;
    var s, n := base + items, |items| + 2;
    SpelledOrder(k);
    SpelledBy(b);
    WalkPasses(s, base, items, 2);
    BaseAt(s, base, items, |base| - 1);
    BaseAt(s, base, items, |base| - 2);
    if open != [] {
      SpelledBy(open[0]);
      BaseAt(s, base, items, |base| - 3);
    }
  }

  /** What the walk has passed when it stops at n. */
  lemma {:induction false} WalkFinds(s: seq<Token>, n: nat) returns (items: seq<Token>, m: nat)
    requires n >= 2 && n % 2 == 0 && OrderOrGroupFrom(s, n)
    requires n - 2 <= |s| && CommaEnded(s[|s| - n + 2..])
    ensures m >= 2 && m <= |s| && items == s[|s| - m + 2..] && CommaEnded(items)
    ensures !IsComma(s[|s| - m + 1]) && OrderOrGroupFrom(s, m)
    decreases |s| - n
  {
    if IsComma(s[|s| - n + 1]) {
      var more := s[|s| - n..];
      SpelledBy(s[|s| - n + 1]);
      CommaFront(s[|s| - n], s[|s| - n + 1], s[|s| - n + 2..]);
      assert more == [s[|s| - n], s[|s| - n + 1]] + s[|s| - n + 2..];
      items, m := WalkFinds(s, n + 2);
    } else {
      items, m := s[|s| - n + 2..], n;
    }
  }

  lemma CommaFront(x: Token, c: Token, items: seq<Token>)
    requires CommaEnded(items) && Spelled(c, [","])
    ensures CommaEnded([x, c] + items)
  {
    var l := [x, c] + items;
    forall i | 0 <= i < |l| && i % 2 == 1 ensures Spelled(l[i], [","]) {
      if i > 1 { assert l[i] == items[i - 2]; }
    }
  }

  lemma WalkShape(s: seq<Token>)
    requires OrderOrGroupFrom(s, 2)
    ensures EndsInOrderList(s)
  {
    assert s[|s|..] == [];
    var items, m := WalkFinds(s, 2);
    var e := |s| - m + 2;
    var last := s[e - 1];
    SpelledBy(last);
    if last.lit == Open {
      SpelledOrder(s[e - 3]);
      SpelledBy(s[e - 2]);
      assert s == Stacked(s[..e - 3], s[e - 3], s[e - 2], [last], items);
      assert OrderList(s[..e - 3], s[e - 3], s[e - 2], [last], items);
    } else {
      SpelledOrder(s[e - 2]);
      assert s == Stacked(s[..e - 2], s[e - 2], last, [], items);
      assert OrderList(s[..e - 2], s[e - 2], last, [], items);
    }
  }

  /** The walk answers that an integer is to be kept exactly when the stack is such a list. */
  lemma KeptExactly(s: seq<Token>)
    ensures OrderOrGroupFrom(s, 2) <==> EndsInOrderList(s)
  {
    if OrderOrGroupFrom(s, 2) { WalkShape(s); }
    if p, k, b, open, items :| OrderList(p, k, b, open, items) && s == Stacked(p, k, b, open, items) {
      WalkAnswers(p, k, b, open, items);
    }
  }

  /** So an integer stays on the stack exactly when it folds nothing and stands in such a list. */
  lemma IntegerStaysExactly(s: seq<Token>, c: Token)
    requires c.kind == IntLit && c.lit != Star
    ensures var u := Unsigned(s, IntLit); Reduced(s, c) == c <==> !Folds(u) && EndsInOrderList(u)
  {
    KeptExactly(Unsigned(s, IntLit));
  }

  // ----- a whole list

  predicate Integers(ns: seq<Token>) {
    ns != [] && forall n :: n in ns ==> n.kind == IntLit && n.lit.Word?
  }

  const COMMA := Token(Other(44), Comma)
  const OPEN := Token(Other(40), Open)

  /** The integers with commas between them. */
  function Listed(ns: seq<Token>): seq<Token>
    requires ns != []
  {
    if |ns| == 1 then ns else Listed(ns[..|ns| - 1]) + ([COMMA] + [ns[|ns| - 1]])
  }

  /** The tokens of the list's head, as they come and as they stay. */
  predicate Head(k: Token, b: Token) {
    && (k.lit == Order || k.lit == Group) && b.lit == By
    && Scanned(k) && Scanned(b) && k.kind != Invalid && b.kind != Invalid && !IsLit(k) && !IsLit(b)
  }

  predicate At(input: seq<Token>, i: nat, toks: seq<Token>) {
    i + |toks| <= |input| && input[i..i + |toks|] == toks
  }

  lemma AtSplit(input: seq<Token>, i: nat, a: seq<Token>, b: seq<Token>)
    requires At(input, i, a + b)
    ensures At(input, i, a) && At(input, i + |a|, b)
  {
    assert input[i..i + |a|] == (a + b)[..|a|];
    assert input[i + |a|..i + |a| + |b|] == (a + b)[|a|..];
  }

  lemma AtOne(input: seq<Token>, i: nat, c: Token)
    requires At(input, i, [c])
    ensures i < |input| && input[i] == c
  {
    assert input[i] == input[i..i + 1][0];
  }

  /** A word of the head is pushed, with the code of its keyword. */
  lemma WordPushed(r: (nat, seq<Token>) -> seq<Token>, input: seq<Token>, i: nat, s: seq<Token>, c: Token, env: Env) returns (x: Token)
    requires IsRun(r, input, env) && SaneEnv(env) && At(input, i, [c]) && Scanned(c) && c.kind != Invalid && !IsLit(c)
    requires c.lit == Order || c.lit == Group || c.lit == By
    ensures r(i, s) == r(i + 1, s + [x]) && x.lit == c.lit && Unmarked(x.kind)
  {
    AtOne(input, i, c);
    x := Classified(c, Place(i, i + 1), env);
    PassRun(r, input, i, s, env, s + [x]);
  }

  lemma MarkPushed(r: (nat, seq<Token>) -> seq<Token>, input: seq<Token>, i: nat, s: seq<Token>, c: Token, env: Env)
    requires IsRun(r, input, env) && At(input, i, [c]) && (c == COMMA || c == OPEN)
    ensures r(i, s) == r(i + 1, s + [c])
  {
    AtOne(input, i, c);
    PassRun(r, input, i, s, env, s + [c]);
  }

  /** A stack on which an integer is kept. The trigger keeps the conditions out of proofs that only pass it on. */
  ghost predicate Keeps(u: seq<Token>) {
    forall w {:trigger Folds(w)} :: w == u ==>
      |u| >= 1 && u[|u| - 1].lit != Minus && u[|u| - 1].lit != Plus && !IndexHint(u[|u| - 1].lit) && !Folds(u) && OrderOrGroupFrom(u, 2)
  }

  lemma KeepsIf(u: seq<Token>)
    requires |u| >= 1 && u[|u| - 1].lit != Minus && u[|u| - 1].lit != Plus && !IndexHint(u[|u| - 1].lit)
    requires !Folds(u) && OrderOrGroupFrom(u, 2)
    ensures Keeps(u)
  {
  }

  lemma IntegerPushed(r: (nat, seq<Token>) -> seq<Token>, input: seq<Token>, i: nat, u: seq<Token>, n: Token, env: Env)
    requires IsRun(r, input, env) && At(input, i, [n]) && n.kind == IntLit && n.lit.Word? && Keeps(u)
    ensures r(i, u) == r(i + 1, u + [n])
  {
    AtOne(input, i, n);
    IntegerStep(u, n, Place(i, i + 1), env);
    PassRun(r, input, i, u, env, u + [n]);
  }

  lemma IntegerStep(u: seq<Token>, n: Token, p: Place, env: Env)
    requires n.kind == IntLit && n.lit.Word? && Keeps(u)
    ensures Step(u, Renamed(n), p, env) == u + [n] && !HintOpens(u, n)
  {
    assert Folds(u) || !Folds(u);
    assert Unsigned(u, IntLit) == u;
  }

  /** The stack after the head: nothing folds, and the walk finds the head. */
  lemma HeadKeeps(s: seq<Token>, k: Token, b: Token, open: seq<Token>)
    requires (k.lit == Order || k.lit == Group) && b.lit == By && Unmarked(k.kind) && Unmarked(b.kind)
    requires open == [] || open == [OPEN]
    ensures Keeps(s + [k, b] + open)
  {
    var u := s + [k, b] + open;
    assert u[|u| - 1] == if open == [] then b else OPEN;
    assert Back(u, 2) == if open == [] then [k, b] else [b, OPEN];
    if |u| >= 4 {
      assert Back(u, 4)[3] == u[|u| - 1] && Back(u, 4)[2] == if open == [] then k else b;
    }
    HeadWalks(s, k, b, open);
    KeepsIf(u);
  }

  lemma HeadWalks(s: seq<Token>, k: Token, b: Token, open: seq<Token>)
    requires (k.lit == Order || k.lit == Group) && b.lit == By && (open == [] || open == [OPEN])
    ensures OrderOrGroupFrom(s + [k, b] + open, 2)
  {
    SpelledOrder(k);
    SpelledBy(b);
    SpelledBy(OPEN);
    WalkAnswers(s, k, b, open, []);
    assert Stacked(s, k, b, open, []) == s + [k, b] + open;
  }

  /** One more integer and its comma. */
  lemma NextKeeps(u: seq<Token>, n: Token)
    requires Keeps(u) && n.kind == IntLit
    ensures Keeps(u + [n] + [COMMA])
  {
    var v := u + [n] + [COMMA];
    assert Folds(u) || !Folds(u);
    assert v[|v| - 1] == COMMA;
    assert Back(v, 2) == [n, COMMA];
    if |v| >= 4 { assert Back(v, 4)[3] == COMMA; }
    WalkOnward(u, n);
    KeepsIf(v);
  }

  lemma WalkOnward(u: seq<Token>, n: Token)
    requires OrderOrGroupFrom(u, 2)
    ensures OrderOrGroupFrom(u + [n] + [COMMA], 2)
  {
    var v := u + [n] + [COMMA];
    WalkShape(u);
    var p, k, b, open, items :| OrderList(p, k, b, open, items) && u == Stacked(p, k, b, open, items);
    var more := items + [n, COMMA];
    SpelledBy(COMMA);
    CommaBack(items, n);
    assert v == Stacked(p, k, b, open, more);
    WalkAnswers(p, k, b, open, more);
  }

  lemma CommaBack(items: seq<Token>, n: Token)
    requires CommaEnded(items)
    ensures CommaEnded(items + [n, COMMA])
  {
    SpelledBy(COMMA);
    var l := items + [n, COMMA];
    forall i | 0 <= i < |l| && i % 2 == 1 ensures Spelled(l[i], [","]) {
      if i < |items| { assert l[i] == items[i]; }
    }
  }

  lemma NextStays(r: (nat, seq<Token>) -> seq<Token>, input: seq<Token>, i: nat, v: seq<Token>, n: Token, env: Env)
    requires IsRun(r, input, env) && At(input, i, [COMMA] + [n]) && n.kind == IntLit && n.lit.Word? && Keeps(v + [COMMA])
    ensures r(i, v) == r(i + 2, v + [COMMA] + [n]) && Keeps(v + [COMMA] + [n] + [COMMA])
  {
    AtSplit(input, i, [COMMA], [n]);
    MarkPushed(r, input, i, v, COMMA, env);
    IntegerPushed(r, input, i + 1, v + [COMMA], n, env);
    NextKeeps(v + [COMMA], n);
  }

  lemma PairBehind(u: seq<Token>, w: seq<Token>, n: Token)
    ensures u + (w + ([COMMA] + [n])) == u + w + [COMMA] + [n]
  {
  }

  lemma {:induction false} ListStays(r: (nat, seq<Token>) -> seq<Token>, input: seq<Token>, i: nat, u: seq<Token>, ns: seq<Token>, env: Env)
    requires IsRun(r, input, env) && Integers(ns) && At(input, i, Listed(ns)) && Keeps(u)
    ensures r(i, u) == r(i + |Listed(ns)|, u + Listed(ns)) && Keeps(u + Listed(ns) + [COMMA])
    decreases |ns|
  {
    var front, n := ns[..|ns| - 1], ns[|ns| - 1];
    if |ns| == 1 {
      assert ns == [n];
      IntegerPushed(r, input, i, u, n, env);
      NextKeeps(u, n);
    } else {
      var w := Listed(front);
      PairBehind(u, w, n);
      AtSplit(input, i, w, [COMMA] + [n]);
      ListStays(r, input, i, u, front, env);
      NextStays(r, input, i + |w|, u + w, n, env);
    }
  }

  lemma HeadStays(r: (nat, seq<Token>) -> seq<Token>, input: seq<Token>, i: nat, s: seq<Token>, k: Token, b: Token, open: seq<Token>, env: Env)
    returns (k': Token, b': Token)
    requires IsRun(r, input, env) && SaneEnv(env) && Head(k, b) && (open == [] || open == [OPEN])
    requires At(input, i, [k]) && At(input, i + 1, [b]) && At(input, i + 2, open)
    ensures k'.lit == k.lit && b'.lit == b.lit && Keeps(s + [k', b'] + open)
    ensures r(i, s) == r(i + 2 + |open|, s + [k', b'] + open)
  {
    k' := WordPushed(r, input, i, s, k, env);
    b' := WordPushed(r, input, i + 1, s + [k'], b, env);
    var u := s + [k', b'];
    assert s + [k'] + [b'] == u;
    if open == [OPEN] { MarkPushed(r, input, i + 2, u, OPEN, env); } else { assert u + open == u; }
    HeadKeeps(s, k', b', open);
  }

  lemma ListRuns(r: (nat, seq<Token>) -> seq<Token>, input: seq<Token>, i: nat, s: seq<Token>, k: Token, b: Token, open: seq<Token>,
                 ns: seq<Token>, env: Env) returns (k': Token, b': Token)
    requires IsRun(r, input, env) && SaneEnv(env) && Head(k, b) && (open == [] || open == [OPEN]) && Integers(ns)
    requires At(input, i, [k] + ([b] + (open + Listed(ns))))
    ensures k'.lit == k.lit && b'.lit == b.lit
    ensures r(i, s) == r(i + 2 + |open| + |Listed(ns)|, s + [k', b'] + open + Listed(ns)) && i + 2 + |open| + |Listed(ns)| <= |input|
  {
    HeadParts(input, i, k, b, open, Listed(ns));
    k', b' := HeadStays(r, input, i, s, k, b, open, env);
    ListStays(r, input, i + 2 + |open|, s + [k', b'] + open, ns, env);
  }

  lemma HeadParts(input: seq<Token>, i: nat, k: Token, b: Token, open: seq<Token>, l: seq<Token>)
    requires At(input, i, [k] + ([b] + (open + l)))
    ensures At(input, i, [k]) && At(input, i + 1, [b]) && At(input, i + 2, open) && At(input, i + 2 + |open|, l)
  {
    AtSplit(input, i, [k], [b] + (open + l));
    AtSplit(input, i + 1, [b], open + l);
    AtSplit(input, i + 2, open, l);
  }

  /** A run from one place and stack goes on from another one. (Looked into only where Asked(0) is asserted.) */
  ghost predicate SameRun(input: seq<Token>, i: nat, s: seq<Token>, j: nat, t: seq<Token>, env: Env) {
    forall z {:trigger Asked(z)} :: Asked(z) ==> i <= |input| && j <= |input| && Run(input, i, s, env) == Run(input, j, t, env)
  }

  /** After ORDER BY or GROUP BY, bare or in an opening parenthesis, a list of integers stays as it is. */
  lemma IntegersStay(input: seq<Token>, i: nat, s: seq<Token>, k: Token, b: Token, open: seq<Token>, ns: seq<Token>, env: Env)
    returns (k': Token, b': Token, j: nat, t: seq<Token>)
    requires SaneEnv(env) && Head(k, b) && (open == [] || open == [OPEN]) && Integers(ns)
    requires At(input, i, [k] + ([b] + (open + Listed(ns))))
    ensures k'.lit == k.lit && b'.lit == b.lit
    ensures j == i + 2 + |open| + |Listed(ns)| && t == s + [k', b'] + open + Listed(ns)
    ensures SameRun(input, i, s, j, t, env)
  {
    var r := TheRun(input, env);
    k', b' := ListRuns(r, input, i, s, k, b, open, ns, env);
    j, t := i + 2 + |open| + |Listed(ns)|, s + [k', b'] + open + Listed(ns);
    BothRuns(r, input, i, s, j, t, env);
  }

  lemma TheRun(input: seq<Token>, env: Env) returns (r: (nat, seq<Token>) -> seq<Token>)
    ensures IsRun(r, input, env)
  {
    r := RunOf(input, env);
  }

  lemma BothRuns(r: (nat, seq<Token>) -> seq<Token>, input: seq<Token>, i: nat, s: seq<Token>, j: nat, t: seq<Token>, env: Env)
    requires IsRun(r, input, env) && i <= |input| && j <= |input| && r(i, s) == r(j, t)
    ensures SameRun(input, i, s, j, t, env)
  {
  }

  /** At the end of a statement the list is the end of its digest. */
  lemma DigestEndsInIntegers(input: seq<Token>, i: nat, s: seq<Token>, k: Token, b: Token, open: seq<Token>, ns: seq<Token>, env: Env)
    returns (k': Token, b': Token)
    requires SaneEnv(env) && Head(k, b) && (open == [] || open == [OPEN]) && Integers(ns)
    requires At(input, i, [k] + ([b] + (open + Listed(ns)))) && |input| == i + 2 + |open| + |Listed(ns)|
    requires SameRun(input, 0, [], i, s, env)
    ensures k'.lit == k.lit && b'.lit == b.lit && Normalized(input, env) == s + [k', b'] + open + Listed(ns)
  {
    var j, t;
    k', b', j, t := IntegersStay(input, i, s, k, b, open, ns, env);
    EndReached(input, i, s, t, env);
  }

  lemma EndReached(input: seq<Token>, i: nat, s: seq<Token>, t: seq<Token>, env: Env)
    requires SameRun(input, 0, [], i, s, env) && SameRun(input, i, s, |input|, t, env)
    ensures Normalized(input, env) == t
  {
    assert Asked(0);
    assert Run(input, |input|, t, env) == t;
  }

  // ----- signs and literals

  const CONTEXTS := ["(", ",", "+", "-", ">=", "is", "<=", "=", "<", ">", "select"]

  /** A sign before a number is dropped exactly at the bottom of the stack and behind one of the words that no
      operand can end with. */
  lemma SignDroppedExactly(p: seq<Token>, sign: Token, k: Kind)
    requires Spelled(sign, ["-", "+"]) && (k == IntLit || k == DecLit || k == FloatLit || k == HexLit)
    requires p != [] ==> p[|p| - 1].lit.Sym?
    ensures Unsigned(p + [sign], k) == if p == [] || Spelled(p[|p| - 1], CONTEXTS) then p else p + [sign]
  {
    var s := p + [sign];
    SignIs(sign);
    assert Drop(s, 1) == p;
    if p != [] {
      assert s[|s| - 2] == p[|p| - 1];
      ContextIs(p[|p| - 1]);
    }
  }

  lemma SignIs(t: Token)
    ensures Spelled(t, ["-", "+"]) <==> t.lit == Minus || t.lit == Plus
  {
    SymbolIs(t, Minus);
    SymbolIs(t, Plus);
    assert Spelled(t, ["-", "+"]) <==> Spelled(t, ["-"]) || Spelled(t, ["+"]);
  }

  lemma ContextIs(t: Token)
    requires t.lit.Sym?
    ensures Spelled(t, CONTEXTS) <==> UnaryContext(t.lit)
  {
    SymbolIs(t, Open);
    SymbolIs(t, Comma);
    SymbolIs(t, Plus);
    SymbolIs(t, Minus);
    SymbolIs(t, Ge);
    SymbolIs(t, Is);
    SymbolIs(t, Le);
    SymbolIs(t, Eq);
    SymbolIs(t, Lt);
    SymbolIs(t, Gt);
    SymbolIs(t, Select);
    var w := Spell(t.lit);
    assert w in CONTEXTS <==> w in ["("] || w in [","] || w in ["+"] || w in ["-"] || w in [">="] || w in ["is"] || w in ["<="]
                              || w in ["="] || w in ["<"] || w in [">"] || w in ["select"];
  }
}
