/**
 One call of the scanner, told by the character that the token starts with, and the literals and names that
 the renderer writes, scanned back (internal/parser/tidb/lexer.go:401-480, 618-947,
 internal/parser/tidb/misc.go:97-148, internal/render/render.go:1078-1080, 1259-1267).
 */
module ScanOne {
  import opened Basics
  import opened Strings
  import Numerals
  import opened ScanText
  import opened ScanLiterals
  import opened ScanTokens
  import opened Scanner

  // ----- operators

  /** The operators of the language, but for those that start with a slash, a star, a dash, a dot or an at sign. */
  const OPERATORS := [
    "+", ">", "<", "(", ")", "[", "]", ";", ",", "&", "%", ":", "|", "!", "^", "~", "\\", "?", "=", "{", "}",
    "||", "&&", "&^", ":=", "<=>", ">=", "<=", "!=", "<>", "<<", ">>", "\\N"]

  /** The operator stands here. */
  predicate Stands(s: string, i: nat, w: string) { i + |w| <= |s| && s[i..i + |w|] == w }

  /** The list is looked into only where Asked(0) is asserted. */
  ghost predicate IsOperator(w: string) {
    forall z {:trigger Asked(z)} :: Asked(z) ==> w in OPERATORS
  }

  lemma ShortOperators(c: char)
    ensures IsOperator([c]) <==> StartsOperator(c)
  {
    assert Asked(0);
  }

  lemma PairOperators(c: char, d: char)
    ensures IsOperator([c, d]) <==> Pair(c, d)
  {
    assert Asked(0);
  }

  lemma TripleOperators(c: char, d: char, e: char)
    ensures IsOperator([c, d, e]) <==> c == '<' && d == '=' && e == '>'
  {
    assert Asked(0);
  }

  lemma OperatorsAre(w: string)
    requires 1 <= |w| <= 3
    ensures |w| == 1 ==> (IsOperator(w) <==> StartsOperator(w[0]))
    ensures |w| == 2 ==> (IsOperator(w) <==> Pair(w[0], w[1]))
    ensures |w| == 3 ==> (IsOperator(w) <==> w[0] == '<' && w[1] == '=' && w[2] == '>')
  {
    Letters(w);
    if |w| == 1 {
      ShortOperators(w[0]);
    } else if |w| == 2 {
      PairOperators(w[0], w[1]);
    } else {
      TripleOperators(w[0], w[1], w[2]);
    }
  }

  lemma OperatorLengths(w: string)
    requires IsOperator(w)
    ensures 1 <= |w| <= 3
  {
    assert Asked(0);
  }

  lemma Letters(w: string)
    ensures |w| == 1 ==> w == [w[0]]
    ensures |w| == 2 ==> w == [w[0], w[1]]
    ensures |w| == 3 ==> w == [w[0], w[1], w[2]]
  {
  }

  /** What the walk down the trie takes. */
  lemma WalkIs(s: string, i: nat)
    requires i < |s|
    ensures var n := Walk(Root, s, i);
      && n <= 3
      && (n >= 1 <==> StartsOperator(s[i]))
      && (n >= 2 <==> StartsOperator(s[i]) && i + 1 < |s| && Pair(s[i], s[i + 1]))
      && (n == 3 <==> i + 2 < |s| && s[i] == '<' && s[i + 1] == '=' && s[i + 2] == '>')
  {
    var a := Walk(Root, s, i);
    if StartsOperator(s[i]) {
      assert a == 1 + Walk(One(s[i]), s, i + 1);
      if i + 1 < |s| && Pair(s[i], s[i + 1]) {
        assert Walk(One(s[i]), s, i + 1) == 1 + Walk(Two(s[i], s[i + 1]), s, i + 2);
        assert Walk(Two(s[i], s[i + 1]), s, i + 2) <= 1;
      }
    }
  }

  lemma StandsLetters(s: string, i: nat, w: string)
    requires Stands(s, i, w)
    ensures forall j :: 0 <= j < |w| ==> w[j] == s[i + j]
  {
    forall j | 0 <= j < |w| ensures w[j] == s[i + j] { assert s[i..i + |w|][j] == s[i + j]; }
  }

  /** No operator of length k stands at i when the walk takes less than k. */
  lemma NoLonger(s: string, i: nat, k: nat)
    requires i < |s| && Walk(Root, s, i) < k && i + k <= |s|
    ensures !IsOperator(s[i..i + k])
  {
    var w := s[i..i + k];
    if IsOperator(w) {
      OperatorLengths(w);
      StandsLetters(s, i, w);
      WalkIs(s, i);
      OperatorsAre(w);
      if |w| == 2 { PairStarts(w[0], w[1]); }
    }
  }

  lemma PairStarts(c: char, d: char)
    requires Pair(c, d)
    ensures StartsOperator(c)
  {
  }

  lemma TakenIs(s: string, i: nat, n: nat)
    requires i < |s| && Walk(Root, s, i) == n >= 1
    ensures i + n <= |s| && IsOperator(s[i..i + n])
  {
    WalkIs(s, i);
    if n == 1 {
      OneTaken(s, i);
    } else if n == 2 {
      TwoTaken(s, i);
    } else {
      ThreeTaken(s, i);
    }
  }

  lemma OneTaken(s: string, i: nat)
    requires i < |s| && StartsOperator(s[i])
    ensures IsOperator(s[i..i + 1])
  {
    ShortOperators(s[i]);
    assert s[i..i + 1] == [s[i]];
  }

  lemma TwoTaken(s: string, i: nat)
    requires i + 1 < |s| && Pair(s[i], s[i + 1])
    ensures IsOperator(s[i..i + 2])
  {
    PairOperators(s[i], s[i + 1]);
    assert s[i..i + 2] == [s[i], s[i + 1]];
  }

  lemma ThreeTaken(s: string, i: nat)
    requires i + 2 < |s| && s[i] == '<' && s[i + 1] == '=' && s[i + 2] == '>'
    ensures IsOperator(s[i..i + 3])
  {
    TripleOperators(s[i], s[i + 1], s[i + 2]);
    assert s[i..i + 3] == [s[i], s[i + 1], s[i + 2]];
  }

  /** An operator of k characters stands at i. */
  ghost predicate OperatorOf(s: string, i: nat, k: nat) { i + k <= |s| && IsOperator(s[i..i + k]) }

  /** No operator longer than n characters stands at i. */
  ghost predicate NoneLonger(s: string, i: nat, n: nat) { forall k: nat :: n < k ==> !OperatorOf(s, i, k) }

  ghost predicate NoOperator(s: string, i: nat) { NoneLonger(s, i, 0) }

  ghost predicate Longest(s: string, i: nat, w: string) { IsOperator(w) && Stands(s, i, w) && NoneLonger(s, i, |w|) }

  lemma NothingLonger(s: string, i: nat)
    requires i < |s|
    ensures NoneLonger(s, i, Walk(Root, s, i))
  {
    forall k: nat | Walk(Root, s, i) < k ensures !OperatorOf(s, i, k) {
      if i + k <= |s| { NoLonger(s, i, k); }
    }
  }

  lemma IsLongest(s: string, i: nat, w: string)
    requires w != "" && Stands(s, i, w) && IsOperator(w) && NoneLonger(s, i, |w|)
    ensures Longest(s, i, w)
  {
  }

  lemma SomeOperator(s: string, i: nat, n: nat)
    requires 0 < n <= |s| - i && IsOperator(s[i..i + n])
    ensures !NoOperator(s, i)
  {
    assert OperatorOf(s, i, n);
  }

  lemma TakenIsLongest(s: string, i: nat, n: nat)
    requires i < |s| && Walk(Root, s, i) == n >= 1
    ensures i + n <= |s| && Longest(s, i, s[i..i + n]) && !NoOperator(s, i)
  {
    TakenIs(s, i, n);
    NothingLonger(s, i);
    IsLongest(s, i, s[i..i + n]);
    SomeOperator(s, i, n);
  }

  lemma OperatorParts(s: string, i: nat, n: nat)
    requires i < |s| && Walk(Root, s, i) == n
    ensures n <= |s| - i && OperatorAt(s, i) == if n == 0 then Leaf(Invalid, "", i) else Leaf(Operator, s[i..i + n], i + n)
  {
  }

  /** The longest operator is taken, and nothing when no operator stands there. */
  lemma OperatorIsLongest(s: string, i: nat)
    requires i < |s|
    ensures var r := OperatorAt(s, i);
      if NoOperator(s, i) then r == Leaf(Invalid, "", i) else r.tok == Operator && Longest(s, i, r.lit) && r.end == i + |r.lit|
  {
    var n := Walk(Root, s, i);
    OperatorParts(s, i, n);
    if n >= 1 { TakenIsLongest(s, i, n); } else { NothingLonger(s, i); }
  }

  // ----- one call

  /** White space, a slash, a star, a dash and a sharp may open a gap. */
  predicate MayOpenGap(c: char) { IsBlank(c) || c == '/' || c == '*' || c == '-' || c == '#' }

  /** The token starts where the reader stands. */
  lemma NoGapHere(s: string, i: nat, j: nat, bang: bool, after: bool)
    requires i < |s| && !MayOpenGap(s[i]) && Gap(s, i, j, bang, after)
    ensures i == j
  {
  }

  /** A quoted text as a token. */
  predicate QuoteGives(q: Quote, kind: Token, length: nat, tok: Token, lit: string, end: nat) {
    match q
    case Closed(content, e) => tok == kind && lit == content && end == e
    case Unclosed => tok == Invalid && lit == "" && end == length
  }

  /** x'...' or b'...' stands at i, with digits up to the closing quote. */
  predicate QuotedNumber(s: string, i: nat, end: nat, hex: bool) {
    && i + 3 <= end <= |s| && s[i + 1] == '\'' && s[end - 1] == '\''
    && forall j :: i + 2 <= j < end - 1 ==> if hex then IsHex(s[j]) else IsBit(s[j])
  }

  /** What the next call returns, by the character it finds: the quoted texts. */
  ghost predicate QuotesTold(s: string, plain: bool, i: nat, tok: Token, lit: string, end: nat)
    requires i < |s|
  {
    && (s[i] == '\'' || s[i] == '"' ==> QuoteGives(ReadQuoted(s, i + 1, s[i], plain, ""), StringLit, |s|, tok, lit, end))
    && (s[i] == '`' ==> QuoteGives(ReadQuoted(s, i + 1, '`', true, ""), QuotedIdentifier, |s|, tok, lit, end))
  }

  /** Numbers: integers, hexadecimal and bit literals by the longest word and the character after it. */
  ghost predicate NumbersTold(s: string, i: nat, tok: Token, lit: string, end: nat)
    requires i < |s|
  {
    Numerals.IsDigit(s[i]) ==>
      var w, dot := WordAt(s, i), DotFollows(s, i);
      && (tok == IntLit <==> AllDigits(w) && !dot) && (tok == HexLit <==> HexWord(w) && !dot) && (tok == BitLit <==> BitWord(w) && !dot)
      && (tok == IntLit || tok == HexLit || tok == BitLit || tok == FloatLit || tok == DecLit || tok == Identifier)
      && i < end <= |s| && lit == s[i..end] && (tok == IntLit || tok == HexLit || tok == BitLit ==> lit == w)
  }

  /** Words: quoted numbers, the national introducer and identifiers. */
  ghost predicate WordsTold(s: string, i: nat, tok: Token, lit: string, end: nat)
    requires i < |s|
  {
    IsIdentChar(s[i]) && !Numerals.IsDigit(s[i]) ==>
      var w, quote := WordAt(s, i), i + 1 < |s| && s[i + 1] == '\'';
      if quote && (s[i] == 'x' || s[i] == 'X' || s[i] == 'b' || s[i] == 'B') then
        var hex := s[i] == 'x' || s[i] == 'X';
        if QuotedNumber(s, i, end, hex) then tok == (if hex then HexLit else BitLit) && lit == s[i..end]
        else tok == Invalid && forall e :: !QuotedNumber(s, i, e, hex)
      else if quote && (s[i] == 'n' || s[i] == 'N') then tok == UnderscoreCS && lit == "utf8" && end == i + 1
      else tok == Identifier && lit == w && end == i + |w|
  }

  /** Dots: one before a digit starts a number, any other stands alone. */
  ghost predicate DotTold(s: string, i: nat, tok: Token, lit: string, end: nat)
    requires i < |s|
  {
    s[i] == '.' ==>
      if i + 1 < |s| && Numerals.IsDigit(s[i + 1]) then (tok == Invalid && lit == "" && end == i) || ((tok == DecLit || tok == FloatLit) && i < end <= |s| && lit == s[i..end])
      else tok == Plain('.') && lit == "." && end == i + 1
  }

  /** A name behind at signs: between quotes, or a stretch of identifier characters and dots. */
  ghost predicate NameTold(s: string, plain: bool, k: nat, kind: Token, head: string, start: nat, tok: Token, lit: string, end: nat)
    requires k < |s| && start <= k
  {
    var c := s[k];
    && (c == '\'' || c == '"' ==> NameGives(ReadQuoted(s, k + 1, c, plain, ""), kind, head, |s|, tok, lit, end))
    && (c == '`' ==> NameGives(ReadQuoted(s, k + 1, '`', true, ""), kind, head, |s|, tok, lit, end))
    && (IsIdentChar(c) || c == '.' ==>
          tok == kind && k < end <= |s| && lit == s[start..end]
          && (forall j :: k <= j < end ==> IsIdentChar(s[j]) || s[j] == '.')
          && (end < |s| ==> !IsIdentChar(s[end]) && s[end] != '.'))
  }

  predicate NameGives(q: Quote, kind: Token, head: string, length: nat, tok: Token, lit: string, end: nat) {
    match q
    case Closed(content, e) => tok == kind && lit == head + content && end == e
    case Unclosed => tok == Invalid && lit == "" && end == length
  }

  predicate NoName(c: char) { c !in "'\"`." && !IsIdentChar(c) }

  /** The word of a scope stands at j, in any case of letters. */
  predicate ScopeAt(s: string, j: nat, v: string) { j + |v| <= |s| && Alike(s[j..j + |v|], v) }

  function TheScope(s: string, j: nat): (v: string)
    requires j <= |s|
    ensures j + |v| <= |s|
  {
    if ScopeAt(s, j, "global.") then "global."
    else if ScopeAt(s, j, "session.") then "session."
    else if ScopeAt(s, j, "local.") then "local."
    else ""
  }

  /** At signs: a user variable, perhaps without a name, or a system variable after two of them, perhaps with a scope. */
  ghost predicate AtTold(s: string, plain: bool, i: nat, tok: Token, lit: string, end: nat)
    requires i < |s|
  {
    s[i] == '@' ==>
      if i + 1 < |s| && s[i + 1] == '@' then SystemTold(s, plain, i, i + 2 + |TheScope(s, i + 2)|, TheScope(s, i + 2), tok, lit, end)
      else if i + 1 < |s| && !NoName(s[i + 1]) then NameTold(s, plain, i + 1, SingleAt, "", i + 1, tok, lit, end)
      else tok == SingleAt && lit == "" && end == i + 1
  }

  ghost predicate SystemTold(s: string, plain: bool, i: nat, k: nat, scope: string, tok: Token, lit: string, end: nat)
    requires i <= k <= |s|
  {
    if k < |s| && !NoName(s[k]) then NameTold(s, plain, k, DoubleAt, "@@" + scope, i, tok, lit, end)
    else lit == "" && end == k && tok == if k == |s| || s[k] as int == 0 then Eof else Plain(s[k])
  }

  /** Everything else: the longest operator. */
  ghost predicate OperatorTold(s: string, i: nat, tok: Token, lit: string, end: nat)
    requires i < |s|
  {
    !IsIdentChar(s[i]) && s[i] !in "'\"`.@/*-#" && !IsBlank(s[i]) ==>
      if NoOperator(s, i) then tok == Invalid && lit == "" && end == i
      else tok == Operator && Longest(s, i, lit) && end == i + |lit|
  }

  lemma NumbersAre(s: string, i: nat)
    requires i < |s|
    ensures Numerals.IsDigit(s[i]) ==> var r := NumberAt(s, i); NumbersTold(s, i, r.tok, r.lit, r.end)
  {
    if Numerals.IsDigit(s[i]) {
      NumberKinds(s, i);
      NumberMoves(s, i);
      NumberIs(s, i);
    }
  }

  lemma NumberIs(s: string, i: nat)
    requires i < |s| && Numerals.IsDigit(s[i])
    ensures var t := NumberAt(s, i).tok;
      t == IntLit || t == HexLit || t == BitLit || t == FloatLit || t == DecLit || t == Identifier
  {
    FloatKinds(s, i);
  }

  lemma QuotedNumberIs(s: string, i: nat, hex: bool)
    requires i + 1 < |s| && s[i + 1] == '\''
    ensures var e := Past(s, i + 2, if hex then IsHex else IsBit);
      if Peeked(s, e) == '\'' then QuotedNumber(s, i, e + 1, hex) else forall k :: !QuotedNumber(s, i, k, hex)
  {
    var fn := if hex then IsHex else IsBit;
    var e := Past(s, i + 2, fn);
    forall k: nat | QuotedNumber(s, i, k, hex) ensures e + 1 == k {
      var close: nat := k - 1;
      assert !fn(s[close]);
      PastUnique(s, i + 2, fn, close);
    }
  }

  lemma QuotedWordsAre(s: string, i: nat)
    requires i + 1 < |s| && IsIdentChar(s[i]) && !Numerals.IsDigit(s[i]) && s[i + 1] == '\''
    ensures var r := WordAtChar(s, i); WordsTold(s, i, r.tok, r.lit, r.end)
  {
    PastUnique(s, i, IsIdentChar, i + 1);
    if s[i] == 'x' || s[i] == 'X' {
      QuotedNumberIs(s, i, true);
    } else if s[i] == 'b' || s[i] == 'B' {
      QuotedNumberIs(s, i, false);
    }
  }

  lemma WordsAre(s: string, i: nat)
    requires i < |s|
    ensures IsIdentChar(s[i]) && !Numerals.IsDigit(s[i]) ==> var r := WordAtChar(s, i); WordsTold(s, i, r.tok, r.lit, r.end)
  {
    if IsIdentChar(s[i]) && !Numerals.IsDigit(s[i]) {
      if i + 1 < |s| && s[i + 1] == '\'' { QuotedWordsAre(s, i); } else { NationalIs(s, i); }
    }
  }

  /** Without a quote behind it, N starts a name like any letter. */
  lemma NationalIs(s: string, i: nat)
    requires i < |s| && !(i + 1 < |s| && s[i + 1] == '\'') && IsIdentChar(s[i])
    ensures NationalAt(s, i) == NameAt(s, i, i)
  {
    var r := NameAt(s, i, i);
    assert r.lit == s[i..r.end];
  }

  /** What is no number after a dot takes nothing up. */
  lemma FloatNamed(s: string, i: nat)
    requires i < |s| && s[i] == '.' && Numerals.IsDigit(Peeked(s, i + 1))
    ensures FloatAt(s, i).tok == Identifier ==> FloatAt(s, i) == Leaf(Identifier, "", i)
  {
    PastUnique(s, i, IsIdentChar, i);
    assert s[i..i] == "";
  }

  lemma DotIs(s: string, i: nat)
    requires i < |s|
    ensures s[i] == '.' ==> var r := DotAt(s, i); DotTold(s, i, r.tok, r.lit, r.end)
  {
    if s[i] == '.' {
      DotMoves(s, i);
      if Numerals.IsDigit(Peeked(s, i + 1)) {
        FloatMoves(s, i);
        FloatNamed(s, i);
      }
    }
  }

  lemma SmallLetters(v: string)
    requires forall i :: 0 <= i < |v| ==> v[i] == '.' || 'a' <= v[i] <= 'z'
    ensures Lower(v) == v
  {
  }

  lemma ScopeStep(s: string, j: nat, n: nat, v: string)
    requires j <= |s| && n < |SCOPES| && SCOPES[n] == v && Lower(v) == v
    ensures Scope(s, j, n) == if ScopeAt(s, j, v) then v else Scope(s, j, n + 1)
  {
    if j + |v| <= |s| { AlikeExactly(s[j..j + |v|], v); }
  }

  lemma OneScope(s: string, j: nat, n: nat, v: string)
    requires j <= |s| && n < |SCOPES| && SCOPES[n] == v && forall i :: 0 <= i < |v| ==> v[i] == '.' || 'a' <= v[i] <= 'z'
    ensures Scope(s, j, n) == if ScopeAt(s, j, v) then v else Scope(s, j, n + 1)
  {
    SmallLetters(v);
    ScopeStep(s, j, n, v);
  }

  lemma FirstScope(s: string, j: nat)
    requires j <= |s|
    ensures Scope(s, j, 0) == if ScopeAt(s, j, "global.") then "global." else Scope(s, j, 1)
  {
    OneScope(s, j, 0, "global.");
  }

  lemma SecondScope(s: string, j: nat)
    requires j <= |s|
    ensures Scope(s, j, 1) == if ScopeAt(s, j, "session.") then "session." else Scope(s, j, 2)
  {
    OneScope(s, j, 1, "session.");
  }

  lemma ThirdScope(s: string, j: nat)
    requires j <= |s|
    ensures Scope(s, j, 2) == if ScopeAt(s, j, "local.") then "local." else ""
  {
    OneScope(s, j, 2, "local.");
  }

  lemma ScopeIs(s: string, j: nat)
    requires j <= |s|
    ensures Scope(s, j, 0) == TheScope(s, j)
  {
    FirstScope(s, j);
    SecondScope(s, j);
    ThirdScope(s, j);
  }

  lemma NamedIs(s: string, plain: bool, k: nat, kind: Token, head: string, start: nat)
    requires k < |s| && start <= k && !NoName(s[k])
    ensures var r := NamedAt(s, k, plain);
      NameTold(s, plain, k, kind, head, start, if r.tok == Invalid then Invalid else kind,
               if r.tok == Identifier then s[start..r.end] else if r.tok == Invalid then r.lit else head + r.lit, r.end)
  {
    var e := Past(s, k, IsUserVarChar);
    assert IsUserVarChar(s[k]) ==> e > k;
  }

  lemma NoNameIs(s: string, plain: bool, k: nat)
    requires k <= |s| && (k < |s| ==> NoName(s[k]))
    ensures NamedAt(s, k, plain) == Leaf(if k == |s| || s[k] as int == 0 then Eof else Plain(s[k]), "", k)
  {
  }

  lemma SystemIs(s: string, plain: bool, i: nat, scope: string)
    requires i + 2 + |scope| <= |s|
    ensures var r := SystemAt(s, i, scope, plain); SystemTold(s, plain, i, i + 2 + |scope|, scope, r.tok, r.lit, r.end)
  {
    var k := i + 2 + |scope|;
    if k < |s| && !NoName(s[k]) {
      NamedIs(s, plain, k, DoubleAt, "@@" + scope, i);
    } else {
      NoNameIs(s, plain, k);
    }
  }

  lemma UserIs(s: string, plain: bool, i: nat)
    requires i < |s| && s[i] == '@' && Peeked(s, i + 1) != '@'
    ensures var r := AtAt(s, i, plain); AtTold(s, plain, i, r.tok, r.lit, r.end)
  {
    NamedStays(s, i + 1, plain);
    AtUser(s, i, plain);
    if i + 1 < |s| && !NoName(s[i + 1]) {
      NamedIs(s, plain, i + 1, SingleAt, "", i + 1);
      assert "" + NamedAt(s, i + 1, plain).lit == NamedAt(s, i + 1, plain).lit;
    } else {
      NoNameIs(s, plain, i + 1);
    }
  }

  lemma ToldAsSystem(s: string, plain: bool, i: nat, v: string, tok: Token, lit: string, end: nat)
    requires i + 1 < |s| && s[i] == s[i + 1] == '@' && v == TheScope(s, i + 2) && SystemTold(s, plain, i, i + 2 + |v|, v, tok, lit, end)
    ensures AtTold(s, plain, i, tok, lit, end)
  {
  }

  lemma TwoAre(s: string, plain: bool, i: nat, v: string)
    requires i + 1 < |s| && s[i] == s[i + 1] == '@' && v == Scope(s, i + 2, 0)
    ensures var r := AtAt(s, i, plain); SystemTold(s, plain, i, i + 2 + |v|, v, r.tok, r.lit, r.end)
  {
    AtSplits(s, i, plain);
    SystemIs(s, plain, i, v);
  }

  lemma AtIs(s: string, plain: bool, i: nat)
    requires i < |s|
    ensures s[i] == '@' ==> var r := AtAt(s, i, plain); AtTold(s, plain, i, r.tok, r.lit, r.end)
  {
    if s[i] == '@' {
      if i + 1 < |s| && s[i + 1] == '@' {
        ScopeIs(s, i + 2);
        var v := TheScope(s, i + 2);
        TwoAre(s, plain, i, v);
        var r := AtAt(s, i, plain);
        ToldAsSystem(s, plain, i, v, r.tok, r.lit, r.end);
      } else {
        UserIs(s, plain, i);
      }
    }
  }

  lemma OperatorIs(s: string, i: nat)
    requires i < |s|
    ensures !IsIdentChar(s[i]) ==> var r := OperatorAt(s, i); OperatorTold(s, i, r.tok, r.lit, r.end)
  {
    OperatorIsLongest(s, i);
  }

  /** The next token, told by the character at its start. */
  method NextToken(sc: SqlScanner) returns (tok: Token, pos: Pos, lit: string)
    requires sc.Valid()
    modifies sc
    ensures sc.Valid() && old(sc.p.offset) <= pos.offset <= sc.p.offset <= |sc.text|
    ensures Gap(sc.text, old(sc.p.offset), pos.offset, old(sc.inBangComment), sc.inBangComment)
    ensures old(sc.p.offset) < |sc.text| && !MayOpenGap(sc.text[old(sc.p.offset)]) ==> pos.offset == old(sc.p.offset)
    ensures pos.offset == |sc.text| ==> tok == Eof
    ensures pos.offset < |sc.text| ==> Known(sc.text, sc.backslashIsPlain, sc.identifierDot, pos.offset, tok, lit, sc.p.offset)
  {
    tok, pos, lit := sc.Scan();
    if old(sc.p.offset) < |sc.text| && !MayOpenGap(sc.text[old(sc.p.offset)]) {
      NoGapHere(sc.text, old(sc.p.offset), pos.offset, old(sc.inBangComment), sc.inBangComment);
    }
    if pos.offset < |sc.text| {
      ToldInFull(sc, tok, pos, lit);
    }
  }

  /** All that is told about a token inside the text; `dot` says that an identifier and a dot came before. */
  ghost predicate Known(s: string, plain: bool, dot: bool, i: nat, tok: Token, lit: string, end: nat)
    requires i < |s|
  {
    && QuotesTold(s, plain, i, tok, lit, end)
    && (!dot ==> NumbersTold(s, i, tok, lit, end) && DotTold(s, i, tok, lit, end))
    && (dot && Numerals.IsDigit(s[i]) ==> tok == Identifier && lit == WordAt(s, i) && end == i + |lit|)
    && (dot && s[i] == '.' ==> tok == Plain('.') && lit == "." && end == i + 1)
    && WordsTold(s, i, tok, lit, end) && AtTold(s, plain, i, tok, lit, end) && OperatorTold(s, i, tok, lit, end)
  }

  lemma ToldInFull(sc: SqlScanner, tok: Token, pos: Pos, lit: string)
    requires pos.offset < |sc.text| && sc.Told(tok, pos, lit)
    ensures Known(sc.text, sc.backslashIsPlain, sc.identifierDot, pos.offset, tok, lit, sc.p.offset)
  {
    assert sc.Looked(0);
    var c := sc.text[pos.offset];
    if !MayOpenGap(c) {
      TokenKnown(sc.text, sc.backslashIsPlain, sc.identifierDot, pos.offset);
    } else {
      GapKnown(sc.text, sc.backslashIsPlain, sc.identifierDot, pos.offset, tok, lit, sc.p.offset);
    }
  }

  lemma GapKnown(s: string, plain: bool, dot: bool, i: nat, tok: Token, lit: string, end: nat)
    requires i < |s| && MayOpenGap(s[i]) && !IsBlank(s[i])
    ensures Known(s, plain, dot, i, tok, lit, end)
  {
  }

  lemma AtKnown(s: string, plain: bool, dot: bool, i: nat)
    requires i < |s| && s[i] == '@'
    ensures var r := AtAt(s, i, plain); Known(s, plain, dot, i, r.tok, r.lit, r.end)
  {
    AtIs(s, plain, i);
  }

  lemma QuoteKnown(s: string, plain: bool, dot: bool, i: nat)
    requires i < |s|
    ensures s[i] == '`' ==>
      var r := QuoteLeaf(ReadQuoted(s, i + 1, '`', true, ""), QuotedIdentifier, |s|); Known(s, plain, dot, i, r.tok, r.lit, r.end)
    ensures s[i] == '\'' || s[i] == '"' ==>
      var r := QuoteLeaf(ReadQuoted(s, i + 1, s[i], plain, ""), StringLit, |s|); Known(s, plain, dot, i, r.tok, r.lit, r.end)
  {
  }

  lemma DigitKnown(s: string, plain: bool, dot: bool, i: nat)
    requires i < |s| && Numerals.IsDigit(s[i])
    ensures var r := if dot then NameAt(s, i, i) else NumberAt(s, i); Known(s, plain, dot, i, r.tok, r.lit, r.end)
  {
    NumbersAre(s, i);
  }

  lemma DotKnown(s: string, plain: bool, dot: bool, i: nat)
    requires i < |s| && s[i] == '.'
    ensures var r := if dot then Leaf(Plain('.'), ".", i + 1) else DotAt(s, i); Known(s, plain, dot, i, r.tok, r.lit, r.end)
  {
    DotIs(s, i);
  }

  lemma WordKnown(s: string, plain: bool, dot: bool, i: nat)
    requires i < |s| && IsIdentChar(s[i]) && !Numerals.IsDigit(s[i])
    ensures var r := WordAtChar(s, i); Known(s, plain, dot, i, r.tok, r.lit, r.end)
  {
    WordsAre(s, i);
  }

  lemma OperatorKnown(s: string, plain: bool, dot: bool, i: nat)
    requires i < |s| && !IsIdentChar(s[i]) && s[i] !in "'\"`.@"
    ensures var r := OperatorAt(s, i); Known(s, plain, dot, i, r.tok, r.lit, r.end)
  {
    OperatorIs(s, i);
  }

  lemma TokenKnown(s: string, plain: bool, dot: bool, i: nat)
    requires i < |s| && !MayOpenGap(s[i])
    ensures var r := TokenAt(s, i, dot, plain); Known(s, plain, dot, i, r.tok, r.lit, r.end)
  {
    var c := s[i];
    if c == '@' {
      AtKnown(s, plain, dot, i);
    } else if c == '\'' || c == '"' || c == '`' {
      QuoteKnown(s, plain, dot, i);
    } else if Numerals.IsDigit(c) {
      DigitKnown(s, plain, dot, i);
    } else if c == '.' {
      DotKnown(s, plain, dot, i);
    } else if IsIdentChar(c) {
      WordKnown(s, plain, dot, i);
    } else {
      OperatorKnown(s, plain, dot, i);
    }
  }

  // ----- what the renderer writes, scanned

  /** A text literal is scanned back exactly when the scanner takes backslashes as they are, or every backslash in
      the text is one that reading keeps. */
  method ScanWrittenLiteral(sc: SqlScanner, ghost before: string, ghost x: string, ghost after: string)
    returns (tok: Token, pos: Pos, lit: string)
    requires sc.Valid() && sc.text == before + (Literal(x) + after) && sc.p.offset == |before| && (after == "" || after[0] != '\'')
    modifies sc
    ensures pos.offset == |before|
    ensures tok == StringLit && lit == x && sc.p.offset == |before| + |Literal(x)| <==> sc.backslashIsPlain || Kept(x)
  {
    LiteralUndoneExactly(before, x, after, sc.backslashIsPlain);
    assert sc.text[|before|] == Literal(x)[0] == '\'';
    tok, pos, lit := NextToken(sc);
  }

  /** A name between back quotes is scanned back exactly when there is none in it. */
  method ScanWrittenName(sc: SqlScanner, ghost before: string, ghost name: string, ghost after: string)
    returns (tok: Token, pos: Pos, lit: string)
    requires sc.Valid() && sc.text == before + (BackQuoted(name) + after) && sc.p.offset == |before| && (after == "" || after[0] != '`')
    modifies sc
    ensures pos.offset == |before|
    ensures tok == QuotedIdentifier && lit == name && sc.p.offset == |before| + |BackQuoted(name)| <==> '`' !in name
  {
    NameUndoneExactly(before, name, after);
    assert sc.text[|before|] == BackQuoted(name)[0] == '`';
    tok, pos, lit := NextToken(sc);
  }
}
