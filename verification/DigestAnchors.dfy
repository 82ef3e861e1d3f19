/**
 The condition on the first token is exact: every token that can be popped from the bottom of the
 stack, or replaced there, has a continuation that leaves placeholder, comma, placeholder. So is the
 condition on what follows an introducer: every token that it excludes can bring about a gap.
 */
module DigestAnchors {
  import opened DigestTokens
  import opened DigestRuns
  import opened DigestGaps

  const COMMA := Token(Other(44), Comma)
  const CLOSE := Token(Other(41), Close)
  const INDEX := Token(Other(1), Index)
  const USE := Token(Other(3), Use)
  const SELECT := Token(Other(2), Select)
  const INTRO := Token(UnderscoreCS, Word("utf8"))
  const TEXT := Token(StringLit, Word("a"))
  const ONE := Token(IntLit, Word("1"))

  predicate At(input: seq<Token>, i: nat, c: Token) { i < |input| && input[i] == c }

  /** A token that is pushed as it is. */
  predicate Inert(c: Token) {
    !IsLit(c) && c.kind != Identifier && c.kind != Invalid && c.lit != Index && c.lit != StraightJoin
  }

  lemma Pushed(r: (nat, seq<Token>) -> seq<Token>, input: seq<Token>, i: nat, s: seq<Token>, c: Token, env: Env)
    requires IsRun(r, input, env) && At(input, i, c) && Inert(c)
    ensures r(i, s) == r(i + 1, s + [c])
  {
    PassRun(r, input, i, s, env, s + [c]);
  }

  /** A literal that folds nothing. */
  lemma Placed(r: (nat, seq<Token>) -> seq<Token>, input: seq<Token>, i: nat, s: seq<Token>, c: Token, env: Env)
    requires IsRun(r, input, env) && At(input, i, c) && IsLit(c) && c.lit != Star && c.kind != Invalid && !HintOpens(s, c)
    requires !Folds(Unsigned(s, c.kind)) && !KeptInt(Unsigned(s, c.kind), c)
    ensures r(i, s) == r(i + 1, Unsigned(s, c.kind) + [GENERIC])
  {
    PassRun(r, input, i, s, env, Unsigned(s, c.kind) + [GENERIC]);
  }

  lemma PlacedText(r: (nat, seq<Token>) -> seq<Token>, input: seq<Token>, i: nat, s: seq<Token>, env: Env)
    requires IsRun(r, input, env) && At(input, i, TEXT) && !Folds(s)
    ensures r(i, s) == r(i + 1, s + [GENERIC])
  {
    Placed(r, input, i, s, TEXT, env);
  }

  /** An introducer on the stack. */
  predicate IsIntro(t: Token) { IsCharset(t) && (t.lit.Word? || t.lit.Underscored?) }

  lemma TextAfterIntro(s: seq<Token>)
    requires |s| >= 1 && IsIntro(s[|s| - 1]) && (|s| < 4 || !IsGeneric(s[|s| - 3]) || !IsComma(s[|s| - 2]))
    ensures !Folds(s)
  {
    if |s| >= 2 { assert Back(s, 2)[1] == s[|s| - 1]; }
    if |s| >= 4 { assert Back(s, 4)[3] == s[|s| - 1] && Back(s, 4)[1..3] == [s[|s| - 3], s[|s| - 2]]; }
  }

  /** A string that folds a list with introducers. */
  lemma Folded(r: (nat, seq<Token>) -> seq<Token>, input: seq<Token>, i: nat, s: seq<Token>, env: Env)
    requires IsRun(r, input, env) && At(input, i, TEXT)
    requires !IsGenericList(Back(s, 2)) && GenericListWithCharset(Back(s, 4)) != 0
    ensures r(i, s) == r(i + 1, Drop(s, GenericListWithCharset(Back(s, 4))) + [LIST])
  {
    PassRun(r, input, i, s, env, Drop(s, GenericListWithCharset(Back(s, 4))) + [LIST]);
  }

  const TAIL := [COMMA, INTRO, TEXT, COMMA, INTRO, TEXT]

  predicate TailAt(input: seq<Token>, i: nat) {
    && i + 6 == |input| && At(input, i, COMMA) && At(input, i + 1, INTRO) && At(input, i + 2, TEXT)
    && At(input, i + 3, COMMA) && At(input, i + 4, INTRO) && At(input, i + 5, TEXT)
  }

  lemma CommaIntro(r: (nat, seq<Token>) -> seq<Token>, input: seq<Token>, i: nat, s: seq<Token>, env: Env)
    requires IsRun(r, input, env) && At(input, i, COMMA) && At(input, i + 1, INTRO)
    ensures r(i, s) == r(i + 2, s + [COMMA] + [INTRO])
  {
    Pushed(r, input, i, s, COMMA, env);
    Pushed(r, input, i + 1, s + [COMMA], INTRO, env);
  }

  /** Three entries are too few for the fold that needs them. */
  lemma ShortStack(r: (nat, seq<Token>) -> seq<Token>, input: seq<Token>, i: nat, g: Token, env: Env)
    requires IsRun(r, input, env) && TailAt(input, i)
    ensures r(i, [g]) == r(i + 3, [g, COMMA, INTRO, GENERIC])
  {
    CommaIntro(r, input, i, [g], env);
    var s := [g] + [COMMA] + [INTRO];
    TextAfterIntro(s);
    PlacedText(r, input, i + 2, s, env);
    assert s + [GENERIC] == [g, COMMA, INTRO, GENERIC];
  }

  lemma TallStack(r: (nat, seq<Token>) -> seq<Token>, input: seq<Token>, i: nat, g: Token, env: Env)
    requires IsRun(r, input, env) && TailAt(input, i)
    ensures r(i + 3, [g, COMMA, INTRO, GENERIC]) == r(i + 6, [g, COMMA, LIST])
  {
    var s := [g, COMMA, INTRO, GENERIC];
    Pushed(r, input, i + 3, s, COMMA, env);
    Pushed(r, input, i + 4, s + [COMMA], INTRO, env);
    var t := s + [COMMA] + [INTRO];
    assert Back(t, 2) == [COMMA, INTRO] && Back(t, 4) == [INTRO, GENERIC, COMMA, INTRO];
    assert Back(t, 4)[1..3] == [GENERIC, COMMA];
    Folded(r, input, i + 5, t, env);
    assert Drop(t, 4) + [LIST] == [g, COMMA, LIST];
  }

  /** From a placeholder alone on the stack, the tail leaves a gap. */
  lemma TailGap(r: (nat, seq<Token>) -> seq<Token>, input: seq<Token>, i: nat, g: Token, env: Env)
    requires IsRun(r, input, env) && TailAt(input, i) && IsGeneric(g)
    ensures !NoGap(r(i, [g]))
  {
    ShortStack(r, input, i, g, env);
    TallStack(r, input, i, g, env);
    RunStops(r, input, i + 6, [g, COMMA, LIST], env);
    var s := [g, COMMA, LIST];
    assert Gap(s[0], s[1], s[2]);
  }

  // ----- the four kinds of unanchored first token

  lemma FirstPushed(r: (nat, seq<Token>) -> seq<Token>, input: seq<Token>, env: Env) returns (x: Token)
    requires IsRun(r, input, env) && |input| >= 1 && input[0].kind != Invalid && !IsLit(input[0])
    ensures r(0, []) == r(1, [x]) && x.lit == Renamed(input[0]).lit
    ensures IsCharset(x) <== Introduces(input[0], env)
  {
    var c := Renamed(input[0]);
    x := Classified(Reduced([], c), Place(0, 1), env);
    PassRun(r, input, 0, [], env, [x]);
  }

  /** The continuation that shows what an unanchored first token can do. */
  function Continuation(c: Token, env: Env): seq<Token> {
    if IsLit(c) then TAIL
    else if Signs(c.lit) then [ONE] + TAIL
    else if IndexHint(c.lit) then [INDEX, CLOSE, TEXT] + TAIL
    else [TEXT, COMMA, INTRO, TEXT] + TAIL
  }

  lemma LiteralFirst(r: (nat, seq<Token>) -> seq<Token>, input: seq<Token>, env: Env)
    requires IsRun(r, input, env) && |input| >= 1 && IsLit(input[0]) && input[0].lit != Star && input[0].kind != Invalid
    requires TailAt(input, 1)
    ensures !NoGap(r(0, []))
  {
    var c := Renamed(input[0]);
    assert Back([], 2) == [] && Back([], 4) == [];
    assert Step([], c, Place(0, 1), env) == [GENERIC];
    PassRun(r, input, 0, [], env, [GENERIC]);
    TailGap(r, input, 1, GENERIC, env);
  }

  lemma SignFirst(r: (nat, seq<Token>) -> seq<Token>, input: seq<Token>, env: Env)
    requires IsRun(r, input, env) && |input| >= 1 && !IsLit(input[0]) && Signs(input[0].lit) && input[0].kind != Invalid
    requires At(input, 1, ONE) && TailAt(input, 2)
    ensures !NoGap(r(0, []))
  {
    var x := FirstPushed(r, input, env);
    assert Drop([x], 1) == [] && Unsigned([x], IntLit) == [];
    Placed(r, input, 1, [x], ONE, env);
    assert [] + [GENERIC] == [GENERIC];
    TailGap(r, input, 2, GENERIC, env);
  }

  lemma HintFirst(r: (nat, seq<Token>) -> seq<Token>, input: seq<Token>, env: Env)
    requires IsRun(r, input, env) && |input| >= 1 && !IsLit(input[0]) && IndexHint(input[0].lit) && input[0].kind != Invalid
    requires At(input, 1, INDEX) && At(input, 2, CLOSE) && At(input, 3, TEXT) && TailAt(input, 4)
    ensures !NoGap(r(0, []))
  {
    var x := FirstPushed(r, input, env);
    HintGone(r, input, x, env);
    assert Back([], 2) == [] && Back([], 4) == [];
    Placed(r, input, 3, [], TEXT, env);
    assert [] + [GENERIC] == [GENERIC];
    TailGap(r, input, 4, GENERIC, env);
  }

  lemma HintGone(r: (nat, seq<Token>) -> seq<Token>, input: seq<Token>, x: Token, env: Env)
    requires IsRun(r, input, env) && IndexHint(x.lit) && At(input, 1, INDEX) && At(input, 2, CLOSE)
    ensures r(1, [x]) == r(3, [])
  {
    assert HintEnd(input, 2) == 3 && HintCloses(input, 2);
    assert Drop([x], 1) == [];
    assert Run(input, 1, [x], env) == Run(input, 3, [], env);
  }

  lemma IntroFirst(r: (nat, seq<Token>) -> seq<Token>, input: seq<Token>, env: Env)
    requires IsRun(r, input, env) && |input| >= 1 && !IsLit(input[0]) && Introduces(input[0], env) && Scanned(input[0])
    requires input[0].kind != Invalid
    requires At(input, 1, TEXT) && At(input, 2, COMMA) && At(input, 3, INTRO) && At(input, 4, TEXT) && TailAt(input, 5)
    ensures !NoGap(r(0, []))
  {
    var x := FirstPushed(r, input, env);
    assert Back([x], 2) == [] && Back([x], 4) == [];
    Placed(r, input, 1, [x], TEXT, env);
    IntroFolds(r, input, x, env);
    TailGap(r, input, 5, LIST, env);
  }

  /** Comma, introducer and text on top of an introducer with its placeholder. */
  lemma FoldsBoth(r: (nat, seq<Token>) -> seq<Token>, input: seq<Token>, i: nat, s: seq<Token>, x: Token, g: Token, env: Env)
    requires IsRun(r, input, env) && IsGeneric(g) && IsCharset(x)
    requires At(input, i, COMMA) && At(input, i + 1, INTRO) && At(input, i + 2, TEXT)
    ensures r(i, s + [x] + [g]) == r(i + 3, s + [LIST])
  {
    var u := s + [x] + [g];
    CommaIntro(r, input, i, u, env);
    var t := u + [COMMA] + [INTRO];
    LastFour(s, x, g);
    Folded(r, input, i + 2, t, env);
  }

  lemma LastFour(s: seq<Token>, x: Token, g: Token)
    requires IsGeneric(g) && IsCharset(x)
    ensures var t := s + [x] + [g] + [COMMA] + [INTRO];
      !IsGenericList(Back(t, 2)) && GenericListWithCharset(Back(t, 4)) == 4 && Drop(t, 4) == s
  {
    var t := s + [x] + [g] + [COMMA] + [INTRO];
    assert Back(t, 2) == [COMMA, INTRO] && Back(t, 4) == [x, g, COMMA, INTRO];
    assert [x, g, COMMA, INTRO][1..3] == [g, COMMA];
  }

  lemma IntroFolds(r: (nat, seq<Token>) -> seq<Token>, input: seq<Token>, x: Token, env: Env)
    requires IsRun(r, input, env) && IsCharset(x) && At(input, 2, COMMA) && At(input, 3, INTRO) && At(input, 4, TEXT)
    ensures r(2, [x] + [GENERIC]) == r(5, [LIST])
  {
    FoldsBoth(r, input, 2, [], x, GENERIC, env);
    assert [] + [x] == [x] && [] + [LIST] == [LIST];
  }

  lemma ContinuationGap(c: Token, env: Env)
    requires Scanned(c) && Unanchored(c, env)
    ensures !NoGap(Normalized([c] + Continuation(c, env), env))
  {
    var input := [c] + Continuation(c, env);
    var r := RunOf(input, env);
    if IsLit(c) {
      LiteralFirst(r, input, env);
    } else if Signs(c.lit) {
      SignFirst(r, input, env);
    } else if IndexHint(c.lit) {
      HintFirst(r, input, env);
    } else {
      IntroFirst(r, input, env);
    }
  }

  lemma ContinuationSeparated(c: Token, env: Env)
    requires Scanned(c) && Unanchored(c, env)
    ensures AllScanned(Continuation(c, env)) && Separated([c] + Continuation(c, env), env)
  {
    var input := [c] + Continuation(c, env);
    forall i | 0 <= i < |input| - 1 ensures Apart(input[i], input[i + 1], env) {
      if Introduces(input[i], env) { assert i == 0 || input[i] == INTRO; }
    }
  }

  /** A first token keeps gaps out of every run exactly when it is anchored. */
  lemma AnchoredExactly(c: Token, env: Env)
    requires Scanned(c) && SaneEnv(env)
    ensures (forall rest :: AllScanned(rest) && Separated([c] + rest, env) ==> NoGap(Normalized([c] + rest, env)))
       <==> !Unanchored(c, env)
  {
    if Unanchored(c, env) {
      ContinuationSeparated(c, env);
      ContinuationGap(c, env);
    } else {
      forall rest | AllScanned(rest) && Separated([c] + rest, env) ensures NoGap(Normalized([c] + rest, env)) {
        assert ([c] + rest)[0] == c;
        NoGapsInRuns([c] + rest, env);
      }
    }
  }

  // ----- introducers that are not kept apart

  const LIST_REST := [TEXT, COMMA, INTRO, TEXT, COMMA, INTRO, TEXT]
  const START := [SELECT, ONE, COMMA]

  predicate RestAt(input: seq<Token>, i: nat) {
    && i + 7 == |input| && At(input, i, TEXT) && At(input, i + 1, COMMA) && At(input, i + 2, INTRO) && At(input, i + 3, TEXT)
    && At(input, i + 4, COMMA) && At(input, i + 5, INTRO) && At(input, i + 6, TEXT)
  }

  predicate StartAt(input: seq<Token>) { At(input, 0, SELECT) && At(input, 1, ONE) && At(input, 2, COMMA) }

  lemma Started(r: (nat, seq<Token>) -> seq<Token>, input: seq<Token>, env: Env)
    requires IsRun(r, input, env) && StartAt(input)
    ensures r(0, []) == r(3, [SELECT] + [GENERIC] + [COMMA])
  {
    var s := [SELECT];
    Pushed(r, input, 0, [], SELECT, env);
    assert [] + [SELECT] == s;
    assert Back(s, 2) == [] && Back(s, 4) == [];
    Placed(r, input, 1, s, ONE, env);
    Pushed(r, input, 2, s + [GENERIC], COMMA, env);
  }

  lemma IntroPushed(r: (nat, seq<Token>) -> seq<Token>, input: seq<Token>, i: nat, s: seq<Token>, a: Token, env: Env) returns (x: Token)
    requires IsRun(r, input, env) && At(input, i, a) && Scanned(a) && Introduces(a, env)
    ensures r(i, s) == r(i + 1, s + [x]) && IsIntro(x)
  {
    x := Token(UnderscoreCS, a.lit);
    PassRun(r, input, i, s, env, s + [x]);
  }

  lemma RestFolds(r: (nat, seq<Token>) -> seq<Token>, input: seq<Token>, i: nat, s: seq<Token>, x: Token, y: Token, env: Env)
    requires IsRun(r, input, env) && RestAt(input, i) && IsIntro(x) && IsIntro(y)
    ensures r(i, s + [x] + [y]) == s + [LIST]
  {
    TextAfterIntro(s + [x] + [y]);
    PlacedText(r, input, i, s + [x] + [y], env);
    FoldsBoth(r, input, i + 1, s + [x], y, GENERIC, env);
    FoldsBoth(r, input, i + 4, s, x, LIST, env);
    RunStops(r, input, i + 7, s + [LIST], env);
  }

  lemma HintPushed(r: (nat, seq<Token>) -> seq<Token>, input: seq<Token>, i: nat, s: seq<Token>, b: Token, env: Env) returns (y: Token)
    requires IsRun(r, input, env) && At(input, i, b) && b.kind != Invalid && IndexHint(b.lit) && !IsLit(b)
    ensures r(i, s) == r(i + 1, s + [y]) && IndexHint(y.lit)
  {
    y := Classified(b, Place(i, i + 1), env);
    PassRun(r, input, i, s, env, s + [y]);
  }

  lemma HintDropped(r: (nat, seq<Token>) -> seq<Token>, input: seq<Token>, i: nat, s: seq<Token>, y: Token, env: Env)
    requires IsRun(r, input, env) && At(input, i, INDEX) && At(input, i + 1, CLOSE) && IndexHint(y.lit)
    ensures r(i, s + [y]) == r(i + 2, s)
  {
    assert HintEnd(input, i + 1) == i + 2 && HintCloses(input, i + 1);
    assert Drop(s + [y], 1) == s;
    HintRun(r, input, i, s + [y], env, s);
  }

  /** A run in which `b` after the introducer `a` brings two introducers together. */
  function Joined(a: Token, b: Token, env: Env): seq<Token> {
    START + [a, b] + if Introduces(b, env) then LIST_REST else [INDEX, CLOSE, INTRO] + LIST_REST
  }

  lemma JoinedShape(a: Token, b: Token, env: Env)
    ensures StartAt(Joined(a, b, env)) && At(Joined(a, b, env), 3, a) && At(Joined(a, b, env), 4, b)
    ensures var l := Joined(a, b, env);
      if Introduces(b, env) then RestAt(l, 5) else At(l, 5, INDEX) && At(l, 6, CLOSE) && At(l, 7, INTRO) && RestAt(l, 8)
  {
  }

  lemma JoinedGap(a: Token, b: Token, env: Env)
    requires Scanned(a) && Scanned(b) && Introduces(a, env) && Rejoins(b, env)
    ensures !NoGap(Normalized(Joined(a, b, env), env))
  {
    var l := Joined(a, b, env);
    var r := RunOf(l, env);
    var s := [SELECT] + [GENERIC] + [COMMA];
    JoinedShape(a, b, env);
    Started(r, l, env);
    var x := IntroPushed(r, l, 3, s, a, env);
    if Introduces(b, env) {
      var y := IntroPushed(r, l, 4, s + [x], b, env);
      RestFolds(r, l, 5, s, x, y, env);
    } else {
      var hint := HintPushed(r, l, 4, s + [x], b, env);
      HintDropped(r, l, 5, s + [x], hint, env);
      var y := IntroPushed(r, l, 7, s + [x], INTRO, env);
      RestFolds(r, l, 8, s, x, y, env);
    }
    GapOnTop([SELECT]);
  }

  /** Introducers are kept apart everywhere but perhaps at token `k`. */
  predicate SeparatedBut(input: seq<Token>, k: nat, env: Env) {
    forall i :: 0 <= i < |input| - 1 && i != k ==> Apart(input[i], input[i + 1], env)
  }

  lemma JoinedScanned(a: Token, b: Token, env: Env)
    requires Scanned(a) && Scanned(b)
    ensures AllScanned(Joined(a, b, env))
  {
    var l := Joined(a, b, env);
    forall c | c in l ensures Scanned(c) {
      assert c in START + [a, b] || c in [INDEX, CLOSE, INTRO] || c in LIST_REST;
    }
  }

  lemma JoinedApart(a: Token, b: Token, env: Env, i: nat)
    requires Scanned(b) && i < |Joined(a, b, env)| - 1 && i != 3
    ensures Apart(Joined(a, b, env)[i], Joined(a, b, env)[i + 1], env)
  {
    if Introduces(Joined(a, b, env)[i], env) { TextFollows(a, b, env, i); }
  }

  lemma JoinedBut(a: Token, b: Token, env: Env)
    requires Scanned(b)
    ensures SeparatedBut(Joined(a, b, env), 3, env)
  {
    var l := Joined(a, b, env);
    forall i | 0 <= i < |l| - 1 && i != 3 ensures Apart(l[i], l[i + 1], env) { JoinedApart(a, b, env, i); }
  }

  lemma JoinedOnlyThere(a: Token, b: Token, env: Env)
    requires Scanned(a) && Scanned(b)
    ensures AllScanned(Joined(a, b, env)) && SeparatedBut(Joined(a, b, env), 3, env) && !Unanchored(Joined(a, b, env)[0], env)
  {
    JoinedScanned(a, b, env);
    JoinedBut(a, b, env);
    JoinedShape(a, b, env);
  }

  lemma TextFollows(a: Token, b: Token, env: Env, i: nat)
    requires Scanned(b) && i < |Joined(a, b, env)| - 1 && i != 3 && Introduces(Joined(a, b, env)[i], env)
    ensures Joined(a, b, env)[i + 1] == TEXT
  {
    var l := Joined(a, b, env);
    if i == 4 {
      assert l[4] == b;
    } else {
      assert l[i] == INTRO;
    }
  }

  /** An anchored run, separated everywhere but at token `k`, where `b` follows `a`. */
  predicate PairRun(input: seq<Token>, k: nat, a: Token, b: Token, env: Env) {
    AllScanned(input) && At(input, k, a) && At(input, k + 1, b) && SeparatedBut(input, k, env) && !Unanchored(input[0], env)
  }

  /** What may follow an introducer without bringing about a gap in any run is exactly what does not rejoin it to
      another one. */
  lemma PairsExactly(a: Token, b: Token, env: Env)
    requires Scanned(a) && Scanned(b) && SaneEnv(env) && Introduces(a, env)
    ensures (forall input, k :: PairRun(input, k, a, b, env) ==> NoGap(Normalized(input, env))) <==> !Rejoins(b, env)
  {
    if Rejoins(b, env) {
      JoinedGap(a, b, env);
      JoinedOnlyThere(a, b, env);
      JoinedShape(a, b, env);
      assert PairRun(Joined(a, b, env), 3, a, b, env);
    } else {
      forall input, k | PairRun(input, k, a, b, env) ensures NoGap(Normalized(input, env)) {
        assert Separated(input, env);
        NoGapsInRuns(input, env);
      }
    }
  }

  /** With two introducers in a row, even an anchored run leaves a gap. */
  lemma DoubledIntroducers(env: Env)
    ensures var l := Joined(INTRO, INTRO, env);
      l == START + [INTRO, INTRO] + LIST_REST && !Unanchored(l[0], env) && !NoGap(Normalized(l, env))
  {
    JoinedOnlyThere(INTRO, INTRO, env);
    JoinedGap(INTRO, INTRO, env);
  }

  /** An index hint between two introducers disappears and leaves them in a row. */
  lemma HintedIntroducers(env: Env)
    ensures var l := Joined(INTRO, USE, env);
      l == START + [INTRO, USE, INDEX, CLOSE, INTRO] + LIST_REST && !Unanchored(l[0], env) && !NoGap(Normalized(l, env))
  {
    JoinedOnlyThere(INTRO, USE, env);
    JoinedGap(INTRO, USE, env);
    assert START + [INTRO, USE] + ([INDEX, CLOSE, INTRO] + LIST_REST) == START + [INTRO, USE, INDEX, CLOSE, INTRO] + LIST_REST;
  }

  lemma GapOnTop(s: seq<Token>)
    ensures !NoGap(s + [GENERIC] + [COMMA] + [LIST])
  {
    var t := s + [GENERIC] + [COMMA] + [LIST];
    assert Gap(t[|s|], t[|s| + 1], t[|s| + 2]);
  }
}
