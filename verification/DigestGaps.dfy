/**
 Normal form of the token stack: no run leaves two placeholders separated by a comma, provided its
 first token can anchor the stack and charset introducers are kept apart. `DigestAnchors` shows both
 conditions to be exact: the first one for each first token, the second one for each pair of tokens.
 */
module DigestGaps {
  import opened DigestTokens
  import opened DigestRuns

  predicate IsCharset(t: Token) { t.kind == UnderscoreCS }

  predicate Gap(a: Token, b: Token, c: Token) { IsGeneric(a) && IsComma(b) && IsGeneric(c) }

  /** Never a placeholder, a comma and a placeholder in sequence. */
  predicate NoGap(s: seq<Token>) {
    forall i :: 0 <= i < |s| - 2 ==> !Gap(s[i], s[i + 1], s[i + 2])
  }

  // ----- what the scanner and the tables promise

  /** Placeholder codes come from the digester alone; N'...' is scanned as the introducer utf8. */
  predicate Scanned(c: Token) {
    c.kind != Generic && c.kind != GenericList && (IsCharset(c) ==> c.lit.Word?)
  }

  predicate Introduces(c: Token, env: Env) { IsCharset(c) || IsIntroducer(c, env) }

  /** A token after which an introducer may come to stand next to the one before: another introducer, or the
      keyword of an index hint. (An invalid token ends the run, and a literal spelled so becomes a placeholder.) */
  predicate Rejoins(c: Token, env: Env) {
    c.kind != Invalid && (Introduces(c, env) || (IndexHint(c.lit) && !IsLit(c)))
  }

  predicate Apart(a: Token, b: Token, env: Env) { Introduces(a, env) ==> !Rejoins(b, env) }

  /** After a charset introducer comes neither another one nor the keyword of an index hint. */
  predicate Separated(input: seq<Token>, env: Env) {
    forall i :: 0 <= i < |input| - 1 ==> Apart(input[i], input[i + 1], env)
  }

  predicate AllScanned(input: seq<Token>) { forall c :: c in input ==> Scanned(c) }

  predicate Signs(lit: Lit) { lit == Minus || lit == Plus }

  /** A first token that can be popped or replaced by a placeholder: a literal, a sign, a charset
      introducer or the keyword of an index hint. */
  predicate Unanchored(c: Token, env: Env) {
    c.kind != Invalid && ((IsLit(c) && c.lit != Star) || Signs(c.lit) || Introduces(c, env) || IndexHint(c.lit))
  }

  // ----- the invariant

  predicate Anchor(t: Token) {
    !IsGeneric(t) && !IsCharset(t) && !Signs(t.lit) && !IndexHint(t.lit)
  }

  predicate Spelling(t: Token) {
    && (IsGeneric(t) ==> t == GENERIC || t == LIST)
    && (IsCharset(t) ==> t.lit.Word? || t.lit.Underscored?)
  }

  predicate Pair(a: Token, b: Token) { IsCharset(a) ==> !IsCharset(b) && !IndexHint(b.lit) }

  predicate CharsetGap(a: Token, b: Token, c: Token, d: Token) {
    IsGeneric(a) && IsComma(b) && IsCharset(c) && IsGeneric(d)
  }

  /** No unwanted pattern ends at entry `i`. */
  predicate Fits(s: seq<Token>, i: nat)
    requires i < |s|
  {
    && Spelling(s[i])
    && (i >= 1 ==> Pair(s[i - 1], s[i]))
    && (i >= 2 ==> !Gap(s[i - 2], s[i - 1], s[i]))
    && (i >= 3 ==> !CharsetGap(s[i - 3], s[i - 2], s[i - 1], s[i]))
  }

  ghost predicate Tidy(s: seq<Token>) {
    && |s| >= 1 && Anchor(s[0])
    && forall i: nat {:trigger Fits(s, i)} :: i < |s| ==> Fits(s, i)
  }

  lemma PrefixTidy(s: seq<Token>, k: nat)
    requires Tidy(s) && 1 <= k <= |s|
    ensures Tidy(s[..k])
  {
    forall i: nat | i < k ensures Fits(s[..k], i) { assert Fits(s, i); }
  }

  lemma PushTidy(p: seq<Token>, x: Token)
    requires Tidy(p) && Fits(p + [x], |p|)
    ensures Tidy(p + [x])
  {
    var s := p + [x];
    forall i: nat | i < |s| ensures Fits(s, i) {
      if i < |p| { assert Fits(p, i); }
    }
  }

  lemma TidyNoGap(s: seq<Token>)
    requires Tidy(s)
    ensures NoGap(s)
  {
    forall i | 0 <= i < |s| - 2 ensures !Gap(s[i], s[i + 1], s[i + 2]) { assert Fits(s, i + 2); }
  }

  /** A placeholder may stand where one already stood. */
  lemma ReplaceGeneric(u: seq<Token>, k: nat)
    requires Tidy(u) && k < |u| && IsGeneric(u[k])
    ensures k >= 1 && Tidy(u[..k] + [LIST])
  {
    PrefixTidy(u, k);
    assert Fits(u, k);
    PushTidy(u[..k], LIST);
  }

  /** It may also stand where an introducer with its placeholder stood. */
  lemma ReplaceCharset(u: seq<Token>, k: nat)
    requires Tidy(u) && k + 1 < |u| && IsCharset(u[k]) && IsGeneric(u[k + 1])
    ensures k >= 1 && Tidy(u[..k] + [LIST])
  {
    PrefixTidy(u, k);
    assert Fits(u, k) && Fits(u, k + 1);
    PushTidy(u[..k], LIST);
  }

  lemma UnsignedTidy(s: seq<Token>, k: Kind)
    requires Tidy(s)
    ensures Tidy(Unsigned(s, k))
  {
    if IsPrefixByUnary(s, k) {
      assert |s| >= 2;
      PrefixTidy(s, |s| - 1);
    }
  }

  lemma FoldTidy(u: seq<Token>)
    requires Tidy(u) && Folds(u)
    ensures Tidy(Popped(u, Token(StringLit, Dots)) + [LIST])
  {
    assert Unsigned(u, StringLit) == u;
    var n := |u|;
    if IsGenericList(Back(u, 2)) {
      ReplaceGeneric(u, n - 2);
    } else if GenericListWithCharset(Back(u, 4)) != 0 {
      CharsetFold(u);
    } else {
      ReplaceGeneric(u, n - 4);
    }
  }

  lemma CharsetFold(u: seq<Token>)
    requires Tidy(u) && GenericListWithCharset(Back(u, 4)) != 0
    ensures Tidy(Drop(u, GenericListWithCharset(Back(u, 4))) + [LIST])
  {
    var n, b := |u|, Back(u, 4);
    assert b[1..3][0] == u[n - 3];
    if GenericListWithCharset(b) == 4 {
      ReplaceCharset(u, n - 4);
    } else {
      ReplaceGeneric(u, n - 3);
    }
  }

  lemma NoFoldTidy(u: seq<Token>)
    requires Tidy(u) && !Folds(u)
    ensures Tidy(u + [GENERIC])
  {
    ListEnds(u);
    CharsetEnds(u);
    PushPlaceholder(u);
  }

  lemma PushPlaceholder(u: seq<Token>)
    requires Tidy(u)
    requires |u| >= 2 ==> !(IsGeneric(u[|u| - 2]) && IsComma(u[|u| - 1]))
    requires |u| >= 3 ==> !(IsGeneric(u[|u| - 3]) && IsComma(u[|u| - 2]) && IsCharset(u[|u| - 1]))
    ensures Tidy(u + [GENERIC])
  {
    assert Fits(u + [GENERIC], |u|);
    PushTidy(u, GENERIC);
  }

  lemma ListEnds(u: seq<Token>)
    ensures (|u| >= 2 && IsGeneric(u[|u| - 2]) && IsComma(u[|u| - 1])) ==> Folds(u)
  {
    if |u| >= 2 { assert Back(u, 2) == [u[|u| - 2], u[|u| - 1]]; }
  }

  lemma CharsetEnds(u: seq<Token>)
    requires |u| >= 1 && !IsGeneric(u[0])
    ensures (|u| >= 3 && IsGeneric(u[|u| - 3]) && IsComma(u[|u| - 2]) && IsCharset(u[|u| - 1])) ==> Folds(u)
  {
    if |u| >= 4 {
      var b := Back(u, 4);
      assert b[3] == u[|u| - 1];
      assert b[1..3] == [u[|u| - 3], u[|u| - 2]];
    }
  }

  /** `t` is `s` after one pass. The trigger keeps the definition of the pass out of proofs that do
      not mention it. */
  ghost predicate IsStep(t: seq<Token>, s: seq<Token>, c: Token, p: Place, env: Env) {
    forall w {:trigger Reduced(w, c)} :: w == s ==> t == Step(w, c, p, env)
  }

  /** A literal keeps the stack tidy, whatever it folds. */
  lemma LiteralTidy(s: seq<Token>, c: Token, p: Place, env: Env, t: seq<Token>)
    requires Tidy(s) && Scanned(c) && IsLit(c) && c.lit != Star && IsStep(t, s, c, p, env)
    ensures Tidy(t) && !IsCharset(t[|t| - 1])
  {
    var u := Unsigned(s, c.kind);
    UnsignedTidy(s, c.kind);
    LiteralShape(s, c, u, p, env, t);
    if Folds(u) {
      FoldTidy(u);
    } else if KeptInt(u, c) {
      KeptTidy(u, c);
    } else {
      NoFoldTidy(u);
    }
  }

  predicate KeptInt(u: seq<Token>, c: Token) { c.kind == IntLit && OrderOrGroupFrom(u, 2) }

  lemma KeptTidy(u: seq<Token>, c: Token)
    requires Tidy(u) && KeptInt(u, c)
    ensures Tidy(u + [c])
  {
    // the entry before a kept integer is a comma, a parenthesis or `by`, so no introducer
    assert Fits(u, |u| - 1);
    assert Fits(u + [c], |u|);
    PushTidy(u, c);
  }

  lemma LiteralShape(s: seq<Token>, c: Token, u: seq<Token>, p: Place, env: Env, t: seq<Token>)
    requires IsLit(c) && c.lit != Star && u == Unsigned(s, c.kind) && IsStep(t, s, c, p, env)
    ensures Folds(u) ==> t == Popped(u, Token(StringLit, Dots)) + [LIST]
    ensures !Folds(u) ==> t == u + [if KeptInt(u, c) then c else GENERIC]
  {
    PoppedShape(s, c, u);
    var x := Reduced(s, c);
    assert x == if Folds(u) then LIST else if KeptInt(u, c) then c else GENERIC;
    assert x.kind != Identifier;
  }

  lemma PoppedShape(s: seq<Token>, c: Token, u: seq<Token>)
    requires IsLit(c) && c.lit != Star && u == Unsigned(s, c.kind)
    ensures Popped(s, c) == Popped(u, Token(StringLit, Dots))
    ensures !Folds(u) ==> Popped(s, c) == u
  {
    assert Unsigned(u, StringLit) == u;
  }

  /** Pushing anything but a placed literal. */
  lemma PlainTidy(s: seq<Token>, c: Token, p: Place, env: Env, t: seq<Token>)
    requires Tidy(s) && Scanned(c) && SaneEnv(env) && (!IsLit(c) || c.lit == Star) && IsStep(t, s, c, p, env)
    requires IsCharset(s[|s| - 1]) ==> !Introduces(c, env) && !IndexHint(c.lit)
    ensures Tidy(t) && (IsCharset(t[|t| - 1]) ==> Introduces(c, env))
  {
    var x := PlainToken(s, c, p, env, t);
    PushPlain(s, x);
  }

  lemma PlainToken(s: seq<Token>, c: Token, p: Place, env: Env, t: seq<Token>) returns (x: Token)
    requires |s| >= 1 && Scanned(c) && SaneEnv(env) && (!IsLit(c) || c.lit == Star) && IsStep(t, s, c, p, env)
    ensures t == s + [x] && Spelling(x)
    ensures x == GENERIC ==> s[|s| - 1].lit == Open
    ensures x != GENERIC ==> !IsGeneric(x) && x.lit == c.lit && (IsCharset(x) ==> Introduces(c, env))
  {
    x := Classified(Reduced(s, c), p, env);
  }

  lemma PushPlain(s: seq<Token>, x: Token)
    requires Tidy(s) && Spelling(x) && (IsGeneric(x) ==> s[|s| - 1].lit == Open)
    requires IsCharset(s[|s| - 1]) ==> !IsCharset(x) && !IndexHint(x.lit)
    ensures Tidy(s + [x])
  {
    assert Fits(s, |s| - 1);
    assert Fits(s + [x], |s|);
    PushTidy(s, x);
  }

  lemma StepTidy(s: seq<Token>, c: Token, p: Place, env: Env, t: seq<Token>)
    requires Tidy(s) && Scanned(c) && SaneEnv(env) && IsStep(t, s, c, p, env) && c.kind != Invalid
    requires IsCharset(s[|s| - 1]) ==> !Rejoins(c, env)
    ensures Tidy(t) && (IsCharset(t[|t| - 1]) ==> Introduces(c, env))
  {
    if IsLit(c) && c.lit != Star {
      LiteralTidy(s, c, p, env, t);
    } else {
      PlainTidy(s, c, p, env, t);
    }
  }

  lemma RenamedSame(c: Token, env: Env)
    requires Scanned(c)
    ensures Scanned(Renamed(c)) && Introduces(Renamed(c), env) == Introduces(c, env)
    ensures Renamed(c).kind == c.kind && Rejoins(Renamed(c), env) == Rejoins(c, env)
  {
  }

  /** Dropping the keyword of an index hint uncovers no introducer. */
  lemma HintTidy(s: seq<Token>)
    requires Tidy(s) && IndexHint(s[|s| - 1].lit)
    ensures Tidy(Drop(s, 1)) && !IsCharset(Drop(s, 1)[|s| - 2])
  {
    assert |s| >= 2 && Fits(s, |s| - 1);
    PrefixTidy(s, |s| - 1);
  }

  /** One pass of the main loop leads from token `i` with stack `s` to token `j` with stack `t`. */
  ghost predicate Moves(input: seq<Token>, i: nat, s: seq<Token>, j: nat, t: seq<Token>, env: Env)
    requires i < |input|
  {
    || (HintOpens(s, input[i]) && HintCloses(input, i + 1) && j == HintEnd(input, i + 1) && t == Drop(s, 1))
    || (HintOpens(s, input[i]) && !HintCloses(input, i + 1) && j == HintEnd(input, i + 1)
        && IsStep(t, s, input[i], Place(i, HintCalls(input, i + 1)), env))
    || (!HintOpens(s, input[i]) && j == i + 1 && IsStep(t, s, Renamed(input[i]), Place(i, i + 1), env))
  }

  lemma RunMoves(input: seq<Token>, i: nat, s: seq<Token>, env: Env) returns (j: nat, t: seq<Token>)
    requires i < |input| && input[i].kind != Invalid
    ensures Moves(input, i, s, j, t, env) && i < j <= |input| && Run(input, i, s, env) == Run(input, j, t, env)
  {
    if HintOpens(s, input[i]) {
      j := HintEnd(input, i + 1);
      t := if HintCloses(input, i + 1) then Drop(s, 1) else Step(s, input[i], Place(i, HintCalls(input, i + 1)), env);
    } else {
      j, t := i + 1, Step(s, Renamed(input[i]), Place(i, i + 1), env);
    }
  }

  lemma MovesTidy(input: seq<Token>, i: nat, s: seq<Token>, j: nat, t: seq<Token>, env: Env)
    requires i < |input| && Scanned(input[i]) && SaneEnv(env) && Tidy(s) && Moves(input, i, s, j, t, env)
    requires input[i].kind != Invalid && (IsCharset(s[|s| - 1]) ==> !Rejoins(input[i], env))
    ensures Tidy(t) && (IsCharset(t[|t| - 1]) ==> j == i + 1 && Introduces(input[i], env))
  {
    var c := input[i];
    if HintOpens(s, c) {
      assert !Introduces(c, env);
      if HintCloses(input, i + 1) { HintTidy(s); } else { StepTidy(s, c, Place(i, HintCalls(input, i + 1)), env, t); }
    } else {
      RenamedSame(c, env);
      StepTidy(s, Renamed(c), Place(i, i + 1), env, t);
    }
  }

  lemma ApartHere(input: seq<Token>, i: nat, env: Env)
    requires Separated(input, env) && i + 1 < |input| && Introduces(input[i], env)
    ensures !Rejoins(input[i + 1], env)
  {
    assert Apart(input[i], input[i + 1], env);
  }

  /** A tidy stack stays tidy to the end of the run, whatever the tokens that follow. */
  lemma {:induction false} RunTidy(r: (nat, seq<Token>) -> seq<Token>, input: seq<Token>, i: nat, s: seq<Token>, env: Env)
    requires IsRun(r, input, env)
    requires i <= |input| && AllScanned(input) && SaneEnv(env) && Separated(input, env)
    requires Tidy(s)
    requires IsCharset(s[|s| - 1]) ==> i >= 1 && Introduces(input[i - 1], env)
    ensures Tidy(r(i, s))
    decreases |input| - i
  {
    if i == |input| || input[i].kind == Invalid {
      RunStops(r, input, i, s, env);
    } else {
      if i >= 1 && Introduces(input[i - 1], env) { ApartHere(input, i - 1, env); }
      assert Scanned(input[i]);
      var j, t := RunGoes(r, input, i, s, env);
      MovesTidy(input, i, s, j, t, env);
      RunTidy(r, input, j, t, env);
    }
  }

  lemma RunStops(r: (nat, seq<Token>) -> seq<Token>, input: seq<Token>, i: nat, s: seq<Token>, env: Env)
    requires IsRun(r, input, env) && i <= |input| && (i == |input| || input[i].kind == Invalid)
    ensures r(i, s) == s
  {
    assert Run(input, i, s, env) == s;
  }

  lemma RunGoes(r: (nat, seq<Token>) -> seq<Token>, input: seq<Token>, i: nat, s: seq<Token>, env: Env) returns (j: nat, t: seq<Token>)
    requires IsRun(r, input, env) && i < |input| && input[i].kind != Invalid
    ensures Moves(input, i, s, j, t, env) && i < j <= |input| && r(i, s) == r(j, t)
  {
    j, t := RunMoves(input, i, s, env);
  }

  lemma FirstStep(c: Token, env: Env, t: seq<Token>)
    requires Scanned(c) && SaneEnv(env) && c.kind != Invalid && !Unanchored(c, env) && IsStep(t, [], c, Place(0, 1), env)
    ensures Tidy(t) && !IsCharset(t[|t| - 1])
  {
    var x := Classified(Reduced([], c), Place(0, 1), env);
    assert t == [x];
    assert Fits(t, 0);
  }

  /** With an anchored first token and separated introducers, no run leaves a gap: placeholder,
      comma, placeholder never stand in sequence on the stack. */
  lemma NoGapsInRuns(input: seq<Token>, env: Env)
    requires AllScanned(input) && SaneEnv(env) && Separated(input, env)
    requires |input| >= 1 ==> !Unanchored(input[0], env)
    ensures NoGap(Normalized(input, env))
  {
    if |input| >= 1 && input[0].kind != Invalid {
      var r := RunOf(input, env);
      assert Scanned(input[0]);
      var j, t := RunGoes(r, input, 0, [], env);
      RenamedSame(input[0], env);
      FirstStep(Renamed(input[0]), env, t);
      RunTidy(r, input, j, t, env);
      TidyNoGap(r(0, []));
    }
  }
}
