/**
 Two runs of the digester side by side, over streams that differ in literal text and under
 environments that differ in what they call a keyword: they push and pop alike, and every identifier
 that stays on the stack can be traced to the place where it was classified.
 */
module DigestTwins {
  import opened Basics
  import opened DigestTokens

  /** Literals whose text is to be hidden. */
  predicate Hideable(k: Kind) {
    IsNumLit(k) || k == StringLit || k == BitLit || k == ParamMarker
  }

  /** Spellings the digester looks at before it looks at the token code. */
  predicate Spelled(lit: Lit) { lit == Star || lit == Index || lit == Close }

  predicate Alike(a: Token, b: Token) {
    a == b || (Hideable(a.kind) && Hideable(b.kind) && !Spelled(a.lit) && !Spelled(b.lit)
               && IsNumLit(a.kind) == IsNumLit(b.kind) && (a.kind == IntLit <==> b.kind == IntLit))
  }

  /** Integer literals are digits, so none of the tested spellings. */
  predicate Digital(t: Token) {
    t.kind == IntLit ==> t.lit.Word?
  }

  predicate AlikeStreams(a: seq<Token>, b: seq<Token>) {
    |a| == |b| && forall i :: 0 <= i < |a| ==> Alike(a[i], b[i]) && Digital(a[i]) && Digital(b[i])
  }

  /** Equal tokens, or two integers that were kept. */
  predicate SameToken(x: Token, y: Token) {
    x == y || (x.kind == IntLit && y.kind == IntLit && Digital(x) && Digital(y))
  }

  predicate SameTokens(s: seq<Token>, t: seq<Token>) {
    |s| == |t| && forall i :: 0 <= i < |s| ==> SameToken(s[i], t[i])
  }

  /** Equal but for how the keyword tables classified them. */
  predicate Akin(x: Token, y: Token) {
    SameToken(x, y) || (x.lit == y.lit && Unmarked(x.kind) && Unmarked(y.kind))
  }

  predicate AkinTokens(s: seq<Token>, t: seq<Token>) {
    |s| == |t| && forall i :: 0 <= i < |s| ==> Akin(s[i], t[i])
  }

  /** Tests on a single stack entry tell neither kept integers nor codes of keywords apart. */
  lemma SameTests(x: Token, y: Token, lit: Lit)
    requires Akin(x, y) && !lit.Word?
    ensures IsGeneric(x) == IsGeneric(y) && (x.kind == UnderscoreCS <==> y.kind == UnderscoreCS)
    ensures x.lit == lit <==> y.lit == lit
  {
  }

  lemma SameContext(x: Token, y: Token)
    requires Akin(x, y)
    ensures UnaryContext(x.lit) == UnaryContext(y.lit)
  {
  }

  lemma SameUnsigned(s: seq<Token>, t: seq<Token>, j: Kind, k: Kind)
    requires AkinTokens(s, t) && IsNumLit(j) == IsNumLit(k)
    ensures IsPrefixByUnary(s, j) == IsPrefixByUnary(t, k)
    ensures AkinTokens(Unsigned(s, j), Unsigned(t, k))
  {
    if |s| >= 1 {
      SameTests(s[|s| - 1], t[|t| - 1], Minus);
      SameTests(s[|s| - 1], t[|t| - 1], Plus);
    }
    if |s| >= 2 { SameContext(s[|s| - 2], t[|t| - 2]); }
  }

  lemma SameBack(s: seq<Token>, t: seq<Token>, n: nat)
    requires AkinTokens(s, t)
    ensures AkinTokens(Back(s, n), Back(t, n)) && AkinTokens(Drop(s, n), Drop(t, n))
  {
  }

  lemma SameGenericList(s: seq<Token>, t: seq<Token>)
    requires AkinTokens(s, t)
    ensures IsGenericList(s) == IsGenericList(t)
  {
    if |s| >= 2 { SameTests(s[1], t[1], Comma); }
  }

  lemma SameWithCharset(s: seq<Token>, t: seq<Token>)
    requires AkinTokens(s, t) && (|s| == 0 || |s| == 4)
    ensures GenericListWithCharset(s) == GenericListWithCharset(t)
  {
    if |s| == 4 { SameGenericList(s[1..3], t[1..3]); }
  }

  lemma SameGenericLists(s: seq<Token>, t: seq<Token>)
    requires AkinTokens(s, t)
    ensures IsGenericLists(s) == IsGenericLists(t)
  {
    if |s| >= 4 {
      SameTests(s[1], t[1], Close);
      SameTests(s[2], t[2], Comma);
      SameTests(s[3], t[3], Open);
    }
  }

  lemma SameOrderBy(a: Token, b: Token, x: Token, y: Token)
    requires Akin(a, x) && Akin(b, y)
    ensures OrderBy(a, b) == OrderBy(x, y)
  {
    SameTests(a, x, Order);
    SameTests(a, x, Group);
    SameTests(b, y, By);
  }

  lemma {:induction false} SameOrder(s: seq<Token>, t: seq<Token>, n: nat)
    requires AkinTokens(s, t) && n >= 2
    ensures OrderOrGroupFrom(s, n) == OrderOrGroupFrom(t, n)
    decreases |s| - n
  {
    if |s| >= n {
      SameTests(s[|s| - n + 1], t[|s| - n + 1], Comma);
      SameTests(s[|s| - n + 1], t[|s| - n + 1], Open);
      if IsComma(s[|s| - n + 1]) {
        SameOrder(s, t, n + 2);
      } else {
        SameOrderBy(s[|s| - n], s[|s| - n + 1], t[|s| - n], t[|s| - n + 1]);
        if |s| >= n + 1 { SameOrderBy(s[|s| - n - 1], s[|s| - n], t[|s| - n - 1], t[|s| - n]); }
      }
    }
  }

  lemma SameFolds(s: seq<Token>, t: seq<Token>)
    requires AkinTokens(s, t)
    ensures IsGenericList(Back(s, 2)) == IsGenericList(Back(t, 2))
    ensures GenericListWithCharset(Back(s, 4)) == GenericListWithCharset(Back(t, 4))
    ensures IsGenericLists(Back(s, 4)) == IsGenericLists(Back(t, 4))
    ensures Folds(s) == Folds(t)
  {
    SameBack(s, t, 2);
    SameBack(s, t, 4);
    SameGenericList(Back(s, 2), Back(t, 2));
    SameWithCharset(Back(s, 4), Back(t, 4));
    SameGenericLists(Back(s, 4), Back(t, 4));
  }

  lemma SamePopped(s: seq<Token>, t: seq<Token>, a: Token, b: Token)
    requires AkinTokens(s, t) && Alike(a, b)
    ensures AkinTokens(Popped(s, a), Popped(t, b))
  {
    if IsLit(a) && a.lit != Star {
      SameUnsigned(s, t, a.kind, b.kind);
      var u, v := Unsigned(s, a.kind), Unsigned(t, b.kind);
      SameFolds(u, v);
      SameBack(u, v, 2);
      SameBack(u, v, 4);
      SameBack(u, v, GenericListWithCharset(Back(u, 4)));
    }
  }

  lemma SameReduced(s: seq<Token>, t: seq<Token>, a: Token, b: Token)
    requires AkinTokens(s, t) && Alike(a, b) && Digital(a) && Digital(b)
    ensures SameToken(Reduced(s, a), Reduced(t, b))
  {
    if IsLit(a) {
      if a.lit == Star {
        if |s| >= 1 { SameTests(s[|s| - 1], t[|t| - 1], Open); }
      } else {
        SameUnsigned(s, t, a.kind, b.kind);
        var u, v := Unsigned(s, a.kind), Unsigned(t, b.kind);
        SameFolds(u, v);
        SameOrder(u, v, 2);
      }
    }
  }

  lemma AlikeRenamed(a: Token, b: Token)
    requires Alike(a, b) && Digital(a) && Digital(b)
    ensures Alike(Renamed(a), Renamed(b)) && Digital(Renamed(a)) && Digital(Renamed(b))
  {
  }

  lemma {:induction false} AlikeHints(a: seq<Token>, b: seq<Token>, i: nat)
    requires AlikeStreams(a, b) && i <= |a|
    ensures HintEnd(a, i) == HintEnd(b, i) && HintCloses(a, i) == HintCloses(b, i) && HintCalls(a, i) == HintCalls(b, i)
    decreases |a| - i
  {
    if i < |a| {
      assert Alike(a[i], b[i]);
      AlikeHints(a, b, i + 1);
    }
  }

  lemma SameHintOpens(s: seq<Token>, t: seq<Token>, a: Token, b: Token)
    requires AkinTokens(s, t) && Alike(a, b)
    ensures HintOpens(s, a) == HintOpens(t, b)
  {
    if |s| >= 1 {
      SameTests(s[|s| - 1], t[|t| - 1], Force);
      SameTests(s[|s| - 1], t[|t| - 1], Use);
      SameTests(s[|s| - 1], t[|t| - 1], Ignore);
    }
  }

  // ----- where the entries of a stack were classified

  predicate LookedUp(c: Token, env: Env) { c.kind == Identifier && !IsIntroducer(c, env) }

  function OriginStep(s: seq<Token>, o: seq<Option<Place>>, c: Token, p: Place, env: Env): (q: seq<Option<Place>>)
    requires |o| == |s|
    ensures |q| == |Step(s, c, p, env)|
  {
    o[..|Popped(s, c)|] + [if LookedUp(Reduced(s, c), env) then Some(p) else None]
  }

  /** For every entry of the stack that a run leaves, the place where it was looked up as a keyword. */
  function Origins(input: seq<Token>, i: nat, s: seq<Token>, o: seq<Option<Place>>, env: Env): (q: seq<Option<Place>>)
    requires i <= |input| && |o| == |s|
    ensures |q| == |Run(input, i, s, env)|
    decreases |input| - i
  {
    if i == |input| || input[i].kind == Invalid then o
    else if HintOpens(s, input[i]) then
      if HintCloses(input, i + 1) then Origins(input, HintEnd(input, i + 1), Drop(s, 1), o[..|s| - 1], env)
      else
        var p := Place(i, HintCalls(input, i + 1));
        Origins(input, HintEnd(input, i + 1), Step(s, input[i], p, env), OriginStep(s, o, input[i], p, env), env)
    else
      var p := Place(i, i + 1);
      Origins(input, i + 1, Step(s, Renamed(input[i]), p, env), OriginStep(s, o, Renamed(input[i]), p, env), env)
  }

  /** An entry looked up at a place has the code found there; any other is the same in both runs. */
  predicate Twinned(x: Token, y: Token, o: Option<Place>, e: Env, f: Env) {
    match o
    case None => SameToken(x, y)
    case Some(p) => x.lit == y.lit && x.kind == KindAt(x.lit, p, e) && y.kind == KindAt(y.lit, p, f)
  }

  predicate Pairs(s: seq<Token>, t: seq<Token>, o: seq<Option<Place>>, e: Env, f: Env) {
    |s| == |t| == |o| && forall i :: 0 <= i < |s| ==> Twinned(s[i], t[i], o[i], e, f)
  }

  ghost predicate Twins(e: Env, f: Env) { SaneEnv(e) && SaneEnv(f) && e.knownCharset == f.knownCharset }

  lemma PairsAkin(s: seq<Token>, t: seq<Token>, o: seq<Option<Place>>, e: Env, f: Env)
    requires Pairs(s, t, o, e, f) && Twins(e, f)
    ensures AkinTokens(s, t)
  {
    forall i | 0 <= i < |s| ensures Akin(s[i], t[i]) { TwinnedAkin(s[i], t[i], o[i], e, f); }
  }

  lemma TwinnedAkin(x: Token, y: Token, o: Option<Place>, e: Env, f: Env)
    requires Twinned(x, y, o, e, f) && Twins(e, f)
    ensures Akin(x, y)
  {
  }

  lemma PoppedPrefix(s: seq<Token>, c: Token)
    ensures |Popped(s, c)| <= |s| && Popped(s, c) == s[..|Popped(s, c)|]
  {
  }

  lemma PairPushed(x: Token, y: Token, p: Place, e: Env, f: Env)
    requires SameToken(x, y) && Twins(e, f)
    ensures LookedUp(x, e) == LookedUp(y, f)
    ensures Twinned(Classified(x, p, e), Classified(y, p, f), if LookedUp(x, e) then Some(p) else None, e, f)
  {
  }

  lemma StepPairs(s: seq<Token>, t: seq<Token>, o: seq<Option<Place>>, a: Token, b: Token, p: Place, e: Env, f: Env)
    requires Pairs(s, t, o, e, f) && Twins(e, f) && Alike(a, b) && Digital(a) && Digital(b)
    ensures OriginStep(s, o, a, p, e) == OriginStep(t, o, b, p, f)
    ensures Pairs(Step(s, a, p, e), Step(t, b, p, f), OriginStep(s, o, a, p, e), e, f)
  {
    PairsAkin(s, t, o, e, f);
    SamePopped(s, t, a, b);
    SameReduced(s, t, a, b);
    PoppedPrefix(s, a);
    PoppedPrefix(t, b);
    PairPushed(Reduced(s, a), Reduced(t, b), p, e, f);
  }

  /** From token `i` both runs go on at token `j`. */
  predicate GoesOn(a: seq<Token>, i: nat, s: seq<Token>, o: seq<Option<Place>>, e: Env, j: nat, s': seq<Token>, o': seq<Option<Place>>) {
    && i < j <= |a| && |s| == |o| && |s'| == |o'|
    && Run(a, i, s, e) == Run(a, j, s', e) && Origins(a, i, s, o, e) == Origins(a, j, s', o', e)
  }

  lemma HintDropped(a: seq<Token>, i: nat, s: seq<Token>, o: seq<Option<Place>>, e: Env)
    requires i < |a| && a[i].kind != Invalid && |s| == |o| && HintOpens(s, a[i]) && HintCloses(a, i + 1)
    ensures GoesOn(a, i, s, o, e, HintEnd(a, i + 1), Drop(s, 1), o[..|s| - 1])
  {
  }

  lemma HintKept(a: seq<Token>, i: nat, s: seq<Token>, o: seq<Option<Place>>, e: Env, p: Place)
    requires i < |a| && a[i].kind != Invalid && |s| == |o| && HintOpens(s, a[i]) && !HintCloses(a, i + 1)
    requires p == Place(i, HintCalls(a, i + 1))
    ensures GoesOn(a, i, s, o, e, HintEnd(a, i + 1), Step(s, a[i], p, e), OriginStep(s, o, a[i], p, e))
  {
  }

  lemma TokenTaken(a: seq<Token>, i: nat, s: seq<Token>, o: seq<Option<Place>>, e: Env, s': seq<Token>, o': seq<Option<Place>>)
    requires i < |a| && a[i].kind != Invalid && |s| == |o| && !HintOpens(s, a[i])
    requires s' == Step(s, Renamed(a[i]), Place(i, i + 1), e) && o' == OriginStep(s, o, Renamed(a[i]), Place(i, i + 1), e)
    ensures GoesOn(a, i, s, o, e, i + 1, s', o')
  {
    Pass(a, i, s, e, s');
  }

  lemma {:induction false} RunPairs(a: seq<Token>, b: seq<Token>, i: nat, s: seq<Token>, t: seq<Token>, o: seq<Option<Place>>,
                                    e: Env, f: Env)
    requires AlikeStreams(a, b) && i <= |a| && Pairs(s, t, o, e, f) && Twins(e, f)
    ensures Origins(a, i, s, o, e) == Origins(b, i, t, o, f)
    ensures Pairs(Run(a, i, s, e), Run(b, i, t, f), Origins(a, i, s, o, e), e, f)
    decreases |a| - i
  {
    if i < |a| && a[i].kind != Invalid {
      var j, s', t', o' := PairsMove(a, b, i, s, t, o, e, f);
      RunPairs(a, b, j, s', t', o', e, f);
    }
  }

  lemma PairsMove(a: seq<Token>, b: seq<Token>, i: nat, s: seq<Token>, t: seq<Token>, o: seq<Option<Place>>, e: Env, f: Env)
      returns (j: nat, s': seq<Token>, t': seq<Token>, o': seq<Option<Place>>)
    requires AlikeStreams(a, b) && i < |a| && a[i].kind != Invalid && Pairs(s, t, o, e, f) && Twins(e, f)
    ensures Pairs(s', t', o', e, f) && GoesOn(a, i, s, o, e, j, s', o') && GoesOn(b, i, t, o, f, j, t', o')
  {
    assert Alike(a[i], b[i]) && Digital(a[i]) && Digital(b[i]);
    PairsAkin(s, t, o, e, f);
    SameHintOpens(s, t, a[i], b[i]);
    AlikeHints(a, b, i + 1);
    if HintOpens(s, a[i]) && HintCloses(a, i + 1) {
      j, s', t', o' := HintEnd(a, i + 1), Drop(s, 1), Drop(t, 1), o[..|s| - 1];
      HintDropped(a, i, s, o, e);
      HintDropped(b, i, t, o, f);
    } else if HintOpens(s, a[i]) {
      var p := Place(i, HintCalls(a, i + 1));
      StepPairs(s, t, o, a[i], b[i], p, e, f);
      j, s', t', o' := HintEnd(a, i + 1), Step(s, a[i], p, e), Step(t, b[i], p, f), OriginStep(s, o, a[i], p, e);
      HintKept(a, i, s, o, e, p);
      HintKept(b, i, t, o, f, p);
    } else {
      var p, c, d := Place(i, i + 1), Renamed(a[i]), Renamed(b[i]);
      AlikeRenamed(a[i], b[i]);
      StepPairs(s, t, o, c, d, p, e, f);
      j, s', t', o' := i + 1, Step(s, c, p, e), Step(t, d, p, f), OriginStep(s, o, c, p, e);
      TokenTaken(a, i, s, o, e, s', o');
      TokenTaken(b, i, t, o, f, t', o');
    }
  }
}
