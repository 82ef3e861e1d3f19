/**
 The SQL digester as a rewriting system over a token stack, in redact-ON mode without binding
 rules (internal/parser/tidb/digester.go). The scanner is the sequence of tokens its successive
 calls return; the last one is the token before end of input or before a final semicolon.
 */
module DigestTokens {
  import opened Basics

  /** Token codes the digester tells apart; every other code is an Other. */
  datatype Kind =
    | Generic      // genericSymbol, written ?
    | GenericList  // genericSymbolList, written ...
    | IntLit | DecLit | FloatLit | HexLit
    | StringLit | BitLit | ParamMarker | NullKeyword
    | Identifier | QuotedIdentifier | SingleAtIdentifier | UnderscoreCS
    | HintComment | Invalid
    | Other(code: int)

  /** Lower-cased token text. The spellings that the digester compares with are numbered symbols,
      so equality of symbols is equality of texts; any other text is a Word. */
  datatype Lit = Sym(code: nat) | Underscored(rest: string) | Word(text: string)

  const Star := Sym(0)
  const Comma := Sym(1)
  const Open := Sym(2)
  const Close := Sym(3)
  const Minus := Sym(4)
  const Plus := Sym(5)
  const Ge := Sym(6)
  const Le := Sym(7)
  const Eq := Sym(8)
  const Lt := Sym(9)
  const Gt := Sym(10)
  const Question := Sym(11)
  const Dots := Sym(12)
  const Is := Sym(13)
  const Select := Sym(14)
  const Order := Sym(15)
  const Group := Sym(16)
  const By := Sym(17)
  const Force := Sym(18)
  const Use := Sym(19)
  const Ignore := Sym(20)
  const Index := Sym(21)
  const StraightJoin := Sym(22)
  const Join := Sym(23)
  const Null := Sym(24)

  datatype Token = Token(kind: Kind, lit: Lit)

  /** Where a token is classified: which token it is, and how many tokens were asked for by then. */
  datatype Place = Place(token: nat, calls: nat)

  /** What the digester asks of the lexer and of the charset tables. */
  datatype Env = Env(keywordAt: (Lit, Place) -> Option<Kind>, knownCharset: string -> bool)

  /** The codes of placeholders and introducers are none of the codes of keywords. */
  ghost predicate SaneEnv(env: Env) {
    forall lit, p :: env.keywordAt(lit, p).Some? ==> Unmarked(env.keywordAt(lit, p).value)
  }

  predicate Unmarked(k: Kind) { k != Generic && k != GenericList && k != UnderscoreCS }

  const GENERIC := Token(Generic, Question)
  const LIST := Token(GenericList, Dots)

  function Back(s: seq<Token>, n: nat): seq<Token> {
    if |s| < n then [] else s[|s| - n..]
  }

  function Drop(s: seq<Token>, n: nat): seq<Token> {
    if |s| < n then s else s[..|s| - n]
  }

  predicate IsGeneric(t: Token) { t.kind == Generic || t.kind == GenericList }

  predicate IsNumLit(k: Kind) { k == IntLit || k == DecLit || k == FloatLit || k == HexLit }

  predicate IsLit(t: Token) {
    || IsNumLit(t.kind) || t.kind == StringLit || t.kind == BitLit || t.kind == ParamMarker
    || t.lit == Star
    || t.kind == NullKeyword || (t.kind == Identifier && t.lit == Null)
  }

  predicate IsComma(t: Token) { t.lit == Comma }

  predicate UnaryContext(lit: Lit) {
    || lit == Open || lit == Comma || lit == Plus || lit == Minus || lit == Ge || lit == Is || lit == Le
    || lit == Eq || lit == Lt || lit == Gt || lit == Select
  }

  predicate IsPrefixByUnary(s: seq<Token>, k: Kind) {
    && IsNumLit(k)
    && |s| >= 1 && (s[|s| - 1].lit == Minus || s[|s| - 1].lit == Plus)
    && (|s| == 1 || UnaryContext(s[|s| - 2].lit))
  }

  predicate IsGenericList(last2: seq<Token>) {
    |last2| >= 2 && IsComma(last2[1]) && IsGeneric(last2[0])
  }

  function GenericListWithCharset(last4: seq<Token>): nat
    requires |last4| == 0 || |last4| == 4
  {
    if |last4| < 3 then 0
    else if last4[3].kind != UnderscoreCS || !IsGenericList(last4[1..3]) then 0
    else if last4[0].kind == UnderscoreCS then 4 else 3
  }

  predicate IsGenericLists(last4: seq<Token>) {
    |last4| >= 4 && IsGeneric(last4[0]) && last4[1].lit == Close && IsComma(last4[2]) && last4[3].lit == Open
  }

  /** Looks left past the items of a number list for the last pair that does not end in a comma. */
  predicate OrderOrGroupFrom(s: seq<Token>, n: nat)
    requires n >= 2
    decreases |s| - n
  {
    if |s| < n then false
    else if IsComma(s[|s| - n + 1]) then OrderOrGroupFrom(s, n + 2)
    else if s[|s| - n + 1].lit == Open then |s| >= n + 1 && OrderBy(s[|s| - n - 1], s[|s| - n])
    else OrderBy(s[|s| - n], s[|s| - n + 1])
  }

  predicate OrderBy(a: Token, b: Token) {
    (a.lit == Order || a.lit == Group) && b.lit == By
  }

  predicate IsStarParam(s: seq<Token>) {
    |s| >= 1 && s[|s| - 1].lit == Open
  }

  function Unsigned(s: seq<Token>, k: Kind): seq<Token> {
    if IsPrefixByUnary(s, k) then Drop(s, 1) else s
  }

  /** The stack after the pops of `reduceLit`. */
  function Popped(s: seq<Token>, c: Token): seq<Token> {
    if !IsLit(c) || c.lit == Star then s else
      var u := Unsigned(s, c.kind);
      if IsGenericList(Back(u, 2)) then Drop(u, 2)
      else if GenericListWithCharset(Back(u, 4)) != 0 then Drop(u, GenericListWithCharset(Back(u, 4)))
      else if IsGenericLists(Back(u, 4)) then Drop(u, 4)
      else u
  }

  predicate Folds(u: seq<Token>) {
    IsGenericList(Back(u, 2)) || GenericListWithCharset(Back(u, 4)) != 0 || IsGenericLists(Back(u, 4))
  }

  /** The current token as `reduceLit` leaves it. */
  function Reduced(s: seq<Token>, c: Token): Token {
    if !IsLit(c) then c
    else if c.lit == Star then if IsStarParam(s) then GENERIC else c
    else
      var u := Unsigned(s, c.kind);
      if Folds(u) then LIST
      else if c.kind == IntLit && OrderOrGroupFrom(u, 2) then c
      else GENERIC
  }

  predicate IsIntroducer(c: Token, env: Env) {
    c.kind == Identifier && c.lit.Underscored? && env.knownCharset(c.lit.rest)
  }

  /** Charset introducers and keywords get their own token code. */
  function Classified(c: Token, p: Place, env: Env): Token {
    if c.kind != Identifier then c
    else if IsIntroducer(c, env) then Token(UnderscoreCS, c.lit)
    else Token(KindAt(c.lit, p, env), c.lit)
  }

  function KindAt(lit: Lit, p: Place, env: Env): Kind {
    match env.keywordAt(lit, p)
    case Some(k) => k
    case None => Identifier
  }

  predicate IndexHint(lit: Lit) { lit == Force || lit == Use || lit == Ignore }

  predicate HintOpens(s: seq<Token>, c: Token) {
    c.kind != HintComment && c.lit == Index && |s| >= 1 && IndexHint(s[|s| - 1].lit)
  }

  function Renamed(c: Token): Token {
    if c.kind != HintComment && c.lit == StraightJoin then Token(c.kind, Join) else c
  }

  /** One pass of the main loop that pushes a token. */
  function Step(s: seq<Token>, c: Token, p: Place, env: Env): seq<Token> {
    Popped(s, c) + [Classified(Reduced(s, c), p, env)]
  }

  /** Where the scan for the closing parenthesis of an index hint stops: just past the first Close,
      or past the invalid token or the end of input that comes before it. */
  function HintEnd(input: seq<Token>, i: nat): (j: nat)
    requires i <= |input|
    ensures i <= j <= |input|
    decreases |input| - i
  {
    if i == |input| then i
    else if input[i].kind == Invalid || input[i].lit == Close then i + 1
    else HintEnd(input, i + 1)
  }

  /** How many tokens were asked for when that scan ends; the end of input is one call more. */
  function HintCalls(input: seq<Token>, i: nat): (j: nat)
    requires i <= |input|
    ensures HintEnd(input, i) == if j <= |input| then j else |input|
    decreases |input| - i
  {
    if i == |input| || input[i].kind == Invalid || input[i].lit == Close then i + 1 else HintCalls(input, i + 1)
  }

  predicate HintCloses(input: seq<Token>, i: nat)
    requires i <= |input|
    decreases |input| - i
  {
    i < |input| && input[i].kind != Invalid && (input[i].lit == Close || HintCloses(input, i + 1))
  }

  /** The stack when the main loop ends, from stack `s` with the scanner at token `i`. */
  function Run(input: seq<Token>, i: nat, s: seq<Token>, env: Env): seq<Token>
    requires i <= |input|
    decreases |input| - i
  {
    if i == |input| || input[i].kind == Invalid then s
    else if HintOpens(s, input[i]) then
      if HintCloses(input, i + 1) then Run(input, HintEnd(input, i + 1), Drop(s, 1), env)
      else Run(input, HintEnd(input, i + 1), Step(s, input[i], Place(i, HintCalls(input, i + 1)), env), env)
    else Run(input, i + 1, Step(s, Renamed(input[i]), Place(i, i + 1), env), env)
  }

  /** An ordinary pass of the main loop. */
  lemma Pass(input: seq<Token>, i: nat, s: seq<Token>, env: Env, next: seq<Token>)
    requires i < |input| && input[i].kind != Invalid && !HintOpens(s, input[i])
    requires next == Step(s, Renamed(input[i]), Place(i, i + 1), env)
    ensures Run(input, i, s, env) == Run(input, i + 1, next, env)
  {
  }

  /** A pass that drops an index hint, or keeps its keyword because it does not close. */
  lemma PassHint(input: seq<Token>, i: nat, s: seq<Token>, env: Env, next: seq<Token>)
    requires i < |input| && input[i].kind != Invalid && HintOpens(s, input[i])
    requires next == if HintCloses(input, i + 1) then Drop(s, 1) else Step(s, input[i], Place(i, HintCalls(input, i + 1)), env)
    ensures Run(input, i, s, env) == Run(input, HintEnd(input, i + 1), next, env)
  {
  }

  /** What one pass leaves on the stack, and the token it goes on with. */
  function PassStack(input: seq<Token>, i: nat, s: seq<Token>, env: Env): seq<Token>
    requires i < |input|
  {
    if !HintOpens(s, input[i]) then Step(s, Renamed(input[i]), Place(i, i + 1), env)
    else if HintCloses(input, i + 1) then Drop(s, 1)
    else Step(s, input[i], Place(i, HintCalls(input, i + 1)), env)
  }

  function PassEnd(input: seq<Token>, i: nat, s: seq<Token>): (j: nat)
    requires i < |input|
    ensures i < j <= |input|
  {
    if HintOpens(s, input[i]) then HintEnd(input, i + 1) else i + 1
  }

  lemma PassAny(input: seq<Token>, i: nat, s: seq<Token>, env: Env)
    requires i < |input| && input[i].kind != Invalid
    ensures Run(input, i, s, env) == Run(input, PassEnd(input, i, s), PassStack(input, i, s, env), env)
  {
    if HintOpens(s, input[i]) {
      PassHint(input, i, s, env, PassStack(input, i, s, env));
    } else {
      Pass(input, i, s, env, PassStack(input, i, s, env));
    }
  }

  function Normalized(input: seq<Token>, env: Env): seq<Token> {
    Run(input, 0, [], env)
  }

  // ----- the text written to the buffer

  const SPELLINGS := [
    "*", ",", "(", ")", "-", "+", ">=", "<=", "=", "<", ">", "?", "...", "is", "select", "order", "group", "by",
    "force", "use", "ignore", "index", "straight_join", "join", "null"]

  function Spell(l: Lit): string {
    match l
    case Sym(code) => if code < |SPELLINGS| then SPELLINGS[code] else ""
    case Underscored(rest) => "_" + rest
    case Word(text) => text
  }

  function Written(t: Token): string {
    match t.kind
    case SingleAtIdentifier => "@" + Spell(t.lit)
    case UnderscoreCS => "(_charset)"
    case Identifier => "`" + Spell(t.lit) + "`"
    case QuotedIdentifier => "`" + Spell(t.lit) + "`"
    case _ => Spell(t.lit)
  }

  function Text(s: seq<Token>): string {
    if s == [] then ""
    else if |s| == 1 then Written(s[0])
    else Text(s[..|s| - 1]) + " " + Written(s[|s| - 1])
  }
}
