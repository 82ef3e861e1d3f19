/**
 What a literal takes from the stack, written as shapes of the stack, and how the tokens are written at the end
 (internal/parser/tidb/digester.go:262-277, 285-317, 347-427, 512-570, 616-641).
 */
module DigestShapes {
  import opened Basics
  import opened DigestTokens
  import opened DigestOrder

  // ----- literals

  /** The kinds of literal, the star and NULL. */
  lemma LiteralExactly(t: Token)
    ensures IsLit(t) <==>
      || t.kind in {IntLit, DecLit, FloatLit, HexLit, StringLit, BitLit, ParamMarker, NullKeyword}
      || Spelled(t, ["*"]) || (t.kind == Identifier && Spelled(t, ["null"]))
  {
    SymbolIs(t, Star);
    SymbolIs(t, Null);
  }

  predicate Placeholder(t: Token) { t.kind in {Generic, GenericList} }

  /** The stack ends in a placeholder and a comma. */
  predicate BehindItem(u: seq<Token>) {
    var n := |u|; n >= 2 && Placeholder(u[n - 2]) && Spelled(u[n - 1], [","])
  }

  /** It ends in a placeholder, a comma and a charset introducer, and there is a token before them. */
  predicate BehindIntroducer(u: seq<Token>) {
    var n := |u|; n >= 4 && Placeholder(u[n - 3]) && Spelled(u[n - 2], [","]) && u[n - 1].kind == UnderscoreCS
  }

  /** It ends in a placeholder, a closing parenthesis, a comma and an opening one. */
  predicate BehindRow(u: seq<Token>) {
    var n := |u|; n >= 4 && Placeholder(u[n - 4]) && Spelled(u[n - 3], [")"]) && Spelled(u[n - 2], [","]) && Spelled(u[n - 1], ["("])
  }

  /** What a literal leaves of the stack: the list it goes on with is taken off, with the introducers of its last two
      texts and, at the start of a row, with the parentheses between the rows. */
  function Left(u: seq<Token>): seq<Token> {
    var n := |u|;
    if BehindItem(u) then u[..n - 2]
    else if BehindIntroducer(u) then u[..if u[n - 4].kind == UnderscoreCS then n - 4 else n - 3]
    else if BehindRow(u) then u[..n - 4]
    else u
  }

  lemma CloseIs(t: Token)
    ensures Spelled(t, [")"]) <==> t.lit == Close
  {
    SymbolIs(t, Close);
  }

  lemma ItemIs(u: seq<Token>)
    ensures IsGenericList(Back(u, 2)) <==> BehindItem(u)
  {
    if |u| >= 2 {
      SpelledBy(u[|u| - 1]);
      assert Back(u, 2)[0] == u[|u| - 2] && Back(u, 2)[1] == u[|u| - 1];
    }
  }

  lemma LastFour(u: seq<Token>)
    requires |u| >= 4
    ensures var b, n := Back(u, 4), |u|; |b| == 4 && b[0] == u[n - 4] && b[1] == u[n - 3] && b[2] == u[n - 2] && b[3] == u[n - 1]
  {
  }

  lemma IntroducerIs(u: seq<Token>)
    ensures GenericListWithCharset(Back(u, 4)) == if !BehindIntroducer(u) then 0 else if u[|u| - 4].kind == UnderscoreCS then 4 else 3
  {
    if |u| >= 4 {
      LastFour(u);
      SpelledBy(u[|u| - 2]);
      var b := Back(u, 4);
      assert b[1..3] == [b[1], b[2]];
    }
  }

  lemma RowIs(u: seq<Token>)
    ensures IsGenericLists(Back(u, 4)) <==> BehindRow(u)
  {
    if |u| >= 4 {
      LastFour(u);
      CloseIs(u[|u| - 3]);
      SpelledBy(u[|u| - 2]);
      SpelledBy(u[|u| - 1]);
    }
  }

  lemma FoldsIs(u: seq<Token>)
    ensures Folds(u) <==> BehindItem(u) || BehindIntroducer(u) || BehindRow(u)
  {
    ItemIs(u);
    IntroducerIs(u);
    RowIs(u);
  }

  /** The stack behind the pops of a literal other than a star. */
  lemma StackLeft(s: seq<Token>, c: Token)
    requires IsLit(c) && c.lit != Star
    ensures Popped(s, c) == Left(Unsigned(s, c.kind))
  {
    var u := Unsigned(s, c.kind);
    ItemIs(u);
    IntroducerIs(u);
    RowIs(u);
  }

  /** The token that is left: the list, an integer of an ORDER BY or GROUP BY list, or the placeholder. */
  lemma TokenLeft(s: seq<Token>, c: Token)
    requires IsLit(c) && c.lit != Star
    ensures var u := Unsigned(s, c.kind);
      Reduced(s, c) == if BehindItem(u) || BehindIntroducer(u) || BehindRow(u) then Token(GenericList, Dots)
                       else if c.kind == IntLit && EndsInOrderList(u) then c
                       else Token(Generic, Question)
  {
    var u := Unsigned(s, c.kind);
    FoldsIs(u);
    KeptExactly(u);
  }

  /** A star is a literal behind an opening parenthesis only. */
  lemma StarLeft(s: seq<Token>, c: Token)
    requires c.lit == Star
    ensures Popped(s, c) == s
    ensures Reduced(s, c) == if s != [] && Spelled(s[|s| - 1], ["("]) then Token(Generic, Question) else c
  {
    if s != [] { SpelledBy(s[|s| - 1]); }
  }

  /** Other tokens are pushed as they are. */
  lemma OthersLeft(s: seq<Token>, c: Token)
    requires !IsLit(c)
    ensures Popped(s, c) == s && Reduced(s, c) == c
  {
  }

  // ----- hints

  /** An index hint starts at the word INDEX behind FORCE, USE or IGNORE. */
  lemma HintExactly(s: seq<Token>, c: Token)
    ensures HintOpens(s, c) <==>
      c.kind != HintComment && Spelled(c, ["index"]) && s != [] && Spelled(s[|s| - 1], ["force", "use", "ignore"])
  {
    SymbolIs(c, Index);
    if s != [] {
      var t := s[|s| - 1];
      SymbolIs(t, Force);
      SymbolIs(t, Use);
      SymbolIs(t, Ignore);
      assert Spelled(t, ["force", "use", "ignore"]) <==> Spelled(t, ["force"]) || Spelled(t, ["use"]) || Spelled(t, ["ignore"]);
    }
  }

  /** The scan of a hint ends behind the first closing parenthesis or invalid token, or at the end. */
  predicate EndsHint(t: Token) { t.kind == Invalid || Spelled(t, [")"]) }

  lemma {:induction false} HintEndExactly(input: seq<Token>, i: nat, j: nat)
    requires i <= j < |input|
    ensures HintEnd(input, i) == j + 1 && (HintCloses(input, i) <==> input[j].kind != Invalid)
       <==> EndsHint(input[j]) && forall k :: i <= k < j ==> !EndsHint(input[k])
    decreases |input| - i
  {
    CloseIs(input[i]);
    if EndsHint(input[i]) {
      assert HintEnd(input, i) == i + 1;
    } else if i == j {
      HintEndLater(input, i);
    } else {
      HintEndExactly(input, i + 1, j);
    }
  }

  lemma HintEndLater(input: seq<Token>, i: nat)
    requires i < |input| && !EndsHint(input[i])
    ensures HintEnd(input, i) != i + 1 || i + 1 == |input|
    ensures i + 1 == |input| ==> !HintCloses(input, i)
  {
    CloseIs(input[i]);
  }

  /** STRAIGHT_JOIN is digested as JOIN. */
  lemma JoinExactly(c: Token)
    ensures Renamed(c) == if c.kind != HintComment && Spelled(c, ["straight_join"]) then Token(c.kind, Join) else c
    ensures Spell(Join) == "join"
  {
    SymbolIs(c, StraightJoin);
  }

  /** The digest ends with the input, or before its first invalid token. */
  lemma DigestStops(input: seq<Token>, i: nat, s: seq<Token>, env: Env)
    requires i <= |input| && (i < |input| ==> input[i].kind == Invalid)
    ensures Run(input, i, s, env) == s
  {
  }

  // ----- codes

  /** Only identifiers get another code: an underscore with the name of a charset behind it is an introducer, and a
      keyword gets its own code; the text stays. */
  lemma ClassifiedExactly(c: Token, p: Place, env: Env)
    ensures Classified(c, p, env).lit == c.lit
    ensures c.kind != Identifier ==> Classified(c, p, env) == c
    ensures c.kind == Identifier && c.lit.Underscored? && env.knownCharset(c.lit.rest) ==> Classified(c, p, env).kind == UnderscoreCS
    ensures c.kind == Identifier && !(c.lit.Underscored? && env.knownCharset(c.lit.rest)) ==>
      Classified(c, p, env).kind == match env.keywordAt(c.lit, p) case Some(k) => k case None => Identifier
  {
  }

  // ----- the text

  /** Names stand between back quotes, variables behind an at sign, and every charset is written alike. */
  lemma WrittenExactly(t: Token)
    ensures t.kind == Identifier || t.kind == QuotedIdentifier ==> Written(t) == "`" + Spell(t.lit) + "`"
    ensures t.kind == SingleAtIdentifier ==> Written(t) == "@" + Spell(t.lit)
    ensures t.kind == UnderscoreCS ==> Written(t) == "(_charset)"
    ensures t.kind !in {Identifier, QuotedIdentifier, SingleAtIdentifier, UnderscoreCS} ==> Written(t) == Spell(t.lit)
    ensures Written(GENERIC) == "?" && Written(LIST) == "..."
  {
  }

  /** The texts of two stretches of tokens stand behind each other with one blank between them. */
  lemma {:induction false} TextJoins(a: seq<Token>, b: seq<Token>)
    requires a != [] && b != []
    ensures Text(a + b) == Text(a) + " " + Text(b)
  {
    var n := |b| - 1;
    assert (a + b)[..|a + b| - 1] == a + b[..n];
    if n > 0 {
      TextJoins(a, b[..n]);
      Assoc(Text(a) + " ", Text(b[..n]), " " + Written(b[n]));
      Assoc(Text(b[..n]), " ", Written(b[n]));
    } else {
      assert a + b[..n] == a;
    }
  }

  lemma TextOne(t: Token)
    ensures Text([t]) == Written(t) && Text([]) == ""
  {
  }
}
