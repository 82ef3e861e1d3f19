/**
 What the conditions of non-interference leave out does show: each spelling the digester tests before
 it looks at the token code, and a dot at the end of a number.
 */
module DigestShows {
  import opened Basics
  import opened DigestSource
  import opened DigestTokens
  import opened DigestRuns
  import opened DigestTwins
  import opened DigestGaps
  import opened DigestAnchors
  import opened DigestPrivacy

  const PLAIN_ENV := Env((_, _) => None, _ => false)

  function Quoted(lit: Lit): Token { Token(StringLit, lit) }

  /** A first token that is no literal, then a literal that folds nothing. */
  lemma FirstThen(r: (nat, seq<Token>) -> seq<Token>, input: seq<Token>, first: Token, c: Token, env: Env)
    requires IsRun(r, input, env) && At(input, 0, first) && At(input, 1, c) && Inert(first) && !Signs(first.lit)
    requires IsLit(c) && c.lit.Word? && c.kind != Invalid && c.kind != IntLit && c.kind != Identifier
    ensures r(0, []) == r(2, [first, GENERIC])
  {
    Pushed(r, input, 0, [], first, env);
    assert [] + [first] == [first] && [first] + [GENERIC] == [first, GENERIC];
    assert Back([first], 2) == [] && Back([first], 4) == [];
    Placed(r, input, 1, [first], c, env);
  }

  lemma SelectThen(r: (nat, seq<Token>) -> seq<Token>, input: seq<Token>, c: Token, env: Env)
    requires IsRun(r, input, env) && At(input, 0, SELECT) && At(input, 1, c)
    requires IsLit(c) && c.lit.Word? && c.kind != Invalid && c.kind != IntLit && c.kind != Identifier
    ensures r(0, []) == r(2, [SELECT, GENERIC])
  {
    FirstThen(r, input, SELECT, c, env);
  }

  /** `select '*'` keeps its literal, `select 'a'` does not. */
  lemma StarShows()
    ensures Normalized([SELECT, Quoted(Star)], PLAIN_ENV) == [SELECT, Quoted(Star)]
    ensures Normalized([SELECT, TEXT], PLAIN_ENV) == [SELECT, GENERIC]
  {
    StarStays([SELECT, Quoted(Star)]);
    var a := [SELECT, TEXT];
    var r := RunOf(a, PLAIN_ENV);
    SelectThen(r, a, TEXT, PLAIN_ENV);
    RunStops(r, a, 2, [SELECT, GENERIC], PLAIN_ENV);
  }

  lemma StarStays(a: seq<Token>)
    requires |a| == 2 && At(a, 0, SELECT) && At(a, 1, Quoted(Star))
    ensures Normalized(a, PLAIN_ENV) == [SELECT, Quoted(Star)]
  {
    var r := RunOf(a, PLAIN_ENV);
    Pushed(r, a, 0, [], SELECT, PLAIN_ENV);
    assert [] + [SELECT] == [SELECT] && [SELECT] + [Quoted(Star)] == [SELECT, Quoted(Star)];
    PassRun(r, a, 1, [SELECT], PLAIN_ENV, [SELECT] + [Quoted(Star)]);
    RunStops(r, a, 2, [SELECT, Quoted(Star)], PLAIN_ENV);
  }

  /** A hint that opens with the second token and is closed. */
  lemma UseDropped(r: (nat, seq<Token>) -> seq<Token>, input: seq<Token>, c: Token, env: Env)
    requires IsRun(r, input, env) && At(input, 0, USE) && At(input, 1, c) && HintCloses(input, 2)
    requires c.lit == Index && c.kind != HintComment && c.kind != Invalid
    ensures r(0, []) == r(HintEnd(input, 2), [])
  {
    var s := [] + [USE];
    Pushed(r, input, 0, [], USE, env);
    HintRun(r, input, 1, s, env, Drop(s, 1));
    assert Drop(s, 1) == [];
  }

  /** A string literal spelled `index` after `use` swallows the tokens up to the next parenthesis. */
  lemma IndexShows()
    ensures Normalized([USE, Quoted(Index), CLOSE], PLAIN_ENV) == []
    ensures Normalized([USE, TEXT, CLOSE], PLAIN_ENV) == [USE, GENERIC, CLOSE]
  {
    IndexSwallows([USE, Quoted(Index), CLOSE]);
    OtherStays([USE, TEXT, CLOSE]);
  }

  lemma IndexSwallows(a: seq<Token>)
    requires |a| == 3 && At(a, 0, USE) && At(a, 1, Quoted(Index)) && At(a, 2, CLOSE)
    ensures Normalized(a, PLAIN_ENV) == []
  {
    var r := RunOf(a, PLAIN_ENV);
    assert HintEnd(a, 2) == 3 && HintCloses(a, 2);
    UseDropped(r, a, Quoted(Index), PLAIN_ENV);
    RunStops(r, a, 3, [], PLAIN_ENV);
  }

  lemma OtherStays(a: seq<Token>)
    requires |a| == 3 && At(a, 0, USE) && At(a, 1, TEXT) && At(a, 2, CLOSE)
    ensures Normalized(a, PLAIN_ENV) == [USE, GENERIC, CLOSE]
  {
    var r := RunOf(a, PLAIN_ENV);
    FirstThen(r, a, USE, TEXT, PLAIN_ENV);
    CloseLast(r, a, [USE, GENERIC], PLAIN_ENV);
    assert [USE, GENERIC] + [CLOSE] == [USE, GENERIC, CLOSE];
  }

  lemma CloseLast(r: (nat, seq<Token>) -> seq<Token>, a: seq<Token>, s: seq<Token>, env: Env)
    requires IsRun(r, a, env) && |a| == 3 && At(a, 2, CLOSE)
    ensures r(2, s) == s + [CLOSE]
  {
    Pushed(r, a, 2, s, CLOSE, env);
    RunStops(r, a, 3, s + [CLOSE], env);
  }

  /** Inside an index hint a string literal spelled `)` ends the hint. */
  lemma ParenShows()
    ensures Normalized([USE, INDEX, Quoted(Close)], PLAIN_ENV) == []
    ensures Normalized([USE, INDEX, TEXT], PLAIN_ENV) == [USE, INDEX]
  {
    ParenEnds([USE, INDEX, Quoted(Close)]);
    WordStays([USE, INDEX, TEXT]);
  }

  lemma ParenEnds(a: seq<Token>)
    requires |a| == 3 && At(a, 0, USE) && At(a, 1, INDEX) && At(a, 2, Quoted(Close))
    ensures Normalized(a, PLAIN_ENV) == []
  {
    var r := RunOf(a, PLAIN_ENV);
    assert HintEnd(a, 2) == 3 && HintCloses(a, 2);
    UseDropped(r, a, INDEX, PLAIN_ENV);
    RunStops(r, a, 3, [], PLAIN_ENV);
  }

  lemma WordStays(a: seq<Token>)
    requires |a| == 3 && At(a, 0, USE) && At(a, 1, INDEX) && At(a, 2, TEXT)
    ensures Normalized(a, PLAIN_ENV) == [USE, INDEX]
  {
    var r := RunOf(a, PLAIN_ENV);
    assert HintEnd(a, 3) == 3 && HintEnd(a, 2) == 3 && !HintCloses(a, 3) && !HintCloses(a, 2);
    Pushed(r, a, 0, [], USE, PLAIN_ENV);
    assert [] + [USE] == [USE];
    IndexPushed(Place(1, HintCalls(a, 2)));
    HintRun(r, a, 1, [USE], PLAIN_ENV, [USE, INDEX]);
    RunStops(r, a, 3, [USE, INDEX], PLAIN_ENV);
  }

  lemma IndexPushed(p: Place)
    ensures Step([USE], INDEX, p, PLAIN_ENV) == [USE, INDEX]
  {
  }

  // ----- so does a dot at the end of a number

  const FROM := Lit.Word("from")
  const FROM_KIND := Other(5)
  const FROM_TABLES := Tables((lit, _) => if lit == FROM then Some(FROM_KIND) else None, _ => false, false)

  function Number(text: string): Source {
    Source("select " + text + " from", [SELECT, Token(DecLit, Lit.Word(text)), Token(Identifier, FROM)],
           [Span(0, 6), Span(7, 7 + |text|), Span(8 + |text|, 12 + |text|)])
  }

  lemma NumberDigest(text: string)
    requires text != "" && text[|text| - 1] != ' '
    ensures Valid(Number(text))
    ensures Digest(Number(text), FROM_TABLES)
         == [SELECT, GENERIC, Token(if text[|text| - 1] == '.' then Identifier else FROM_KIND, FROM)]
  {
    var src := Number(text);
    NumberDot(text);
    NumberRun(src.tokens, EnvOf(src, FROM_TABLES));
    assert EnvOf(src, FROM_TABLES).keywordAt(FROM, Place(2, 3))
        == if text[|text| - 1] == '.' then None else Some(FROM_KIND);
  }

  lemma NumberRun(a: seq<Token>, env: Env)
    requires |a| == 3 && At(a, 0, SELECT) && a[1].kind == DecLit && a[1].lit.Word? && At(a, 2, Token(Identifier, FROM))
    ensures Normalized(a, env) == [SELECT, GENERIC, Token(KindAt(FROM, Place(2, 3), env), FROM)]
  {
    var r := RunOf(a, env);
    SelectThen(r, a, a[1], env);
    FromTaken(r, a, env);
  }

  lemma FromTaken(r: (nat, seq<Token>) -> seq<Token>, a: seq<Token>, env: Env)
    requires IsRun(r, a, env) && |a| == 3 && At(a, 2, Token(Identifier, FROM))
    ensures r(2, [SELECT, GENERIC]) == [SELECT, GENERIC, Token(KindAt(FROM, Place(2, 3), env), FROM)]
  {
    var next := [SELECT, GENERIC] + [Token(KindAt(FROM, Place(2, 3), env), FROM)];
    assert Step([SELECT, GENERIC], a[2], Place(2, 3), env) == next;
    PassRun(r, a, 2, [SELECT, GENERIC], env, next);
    RunStops(r, a, 3, next, env);
  }

  lemma NumberDot(text: string)
    requires text != "" && text[|text| - 1] != ' '
    ensures Valid(Number(text))
    ensures ShownAt(Number(text), Place(2, 3), false) == if text[|text| - 1] == '.' then Qualified else Plain
  {
    var sql, n := Number(text).sql, 8 + |text|;
    assert sql[n - 1] == ' ' && sql[n - 2] == text[|text| - 1];
    assert DotBefore(sql, n - 1) == (text[|text| - 1] == '.');
  }

  lemma NumbersAlike(v: string, w: string)
    requires Valid(Number(v)) && Valid(Number(w))
    ensures AlikeSources(Number(v), Number(w))
  {
    var a, b := Number(v).tokens, Number(w).tokens;
    assert Alike(a[0], b[0]) && Alike(a[1], b[1]) && Alike(a[2], b[2]);
  }

  /** `select 1. from` keeps `from` an identifier, `select 1.0 from` makes it the keyword, although the
      two differ in the text of one literal only: why surroundings must be alike. */
  lemma DotShows()
    ensures AlikeSources(Number("1."), Number("1.0"))
    ensures !SameTokens(Digest(Number("1."), FROM_TABLES), Digest(Number("1.0"), FROM_TABLES))
  {
    NumberDigest("1.");
    NumberDigest("1.0");
    NumbersAlike("1.", "1.0");
    KindsDiffer(Digest(Number("1."), FROM_TABLES), Digest(Number("1.0"), FROM_TABLES));
  }

  lemma KindsDiffer(x: seq<Token>, y: seq<Token>)
    requires |x| == |y| == 3 && x[2].kind == Identifier && y[2].kind == FROM_KIND
    ensures !SameTokens(x, y)
  {
    assert !SameToken(x[2], y[2]);
  }
}
