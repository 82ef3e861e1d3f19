/**
 What the tokens are that are scanned where they start: numbers, dots, names after at signs; and when the
 end of the input is reported (internal/parser/tidb/lexer.go:618-685, 819-947).
 */
module ScanTokens {
  import opened Numerals
  import opened Strings
  import opened ScanText
  import opened ScanLiterals
  import opened ScanFeatures

  datatype Token =
    | Eof | Invalid | Identifier | QuotedIdentifier | StringLit | HexLit | BitLit | IntLit | FloatLit | DecLit
    | HintComment | UnderscoreCS | SingleAt | DoubleAt | Operator | JsonArrow | JsonTextArrow | Plain(c: char)

  /** The tokens whose literal is the scanned text itself. */
  predicate Verbatim(t: Token) {
    t.Identifier? || t.HexLit? || t.BitLit? || t.IntLit? || t.FloatLit? || t.DecLit? || t.HintComment? || t.Operator?
  }

  predicate Moves(t: Token) { !t.Eof? && !t.Invalid? }

  /** A token with its literal, and where it ends. */
  datatype Leaf = Leaf(tok: Token, lit: string, end: nat)

  predicate IsOctal(c: char) { '0' <= c <= '7' }

  predicate IsBit(c: char) { c == '0' || c == '1' }

  // ----- numbers

  /** The literal is the scanned text, from the start of the token to its end. */
  predicate Covers(r: Leaf, s: string, i: nat) { i <= r.end <= |s| && r.lit == s[i..r.end] }

  function Fraction(s: string, i: nat): (k: nat)
    requires i <= |s|
    ensures i <= k <= |s|
  {
    var a := Past(s, i, IsDigit);
    if Peeked(s, a) == '.' then Past(s, a + 1, IsDigit) else a
  }

  predicate IsExponent(c: char) { c == 'e' || c == 'E' }

  /** Past the letter and the sign of an exponent. */
  function ExponentDigits(s: string, k: nat): (d: nat)
    requires k < |s|
    ensures k < d <= |s|
  {
    if Peeked(s, k + 1) == '-' || Peeked(s, k + 1) == '+' then k + 2 else k + 1
  }

  /** A number from its start: an exponent without digits makes it an identifier, or nothing. */
  function FloatAt(s: string, i: nat): (r: Leaf)
    requires i <= |s|
    ensures Covers(r, s, i)
  {
    var k := Fraction(s, i);
    if !IsExponent(Peeked(s, k)) then Leaf(DecLit, s[i..k], k)
    else if IsDigit(Peeked(s, ExponentDigits(s, k))) then
      var e := Past(s, ExponentDigits(s, k), IsDigit);
      Leaf(FloatLit, s[i..e], e)
    else NameAt(s, i, i)
  }

  /** An identifier that starts at i, read on from k. */
  function NameAt(s: string, i: nat, k: nat): (r: Leaf)
    requires i <= k <= |s|
    ensures k <= r.end && Covers(r, s, i)
  {
    var e := Past(s, k, IsIdentChar);
    Leaf(Identifier, s[i..e], e)
  }

  /** A number after its prefix. */
  function NumberEnd(s: string, kind: Token, i: nat, k: nat): (r: Leaf)
    requires i <= k <= |s|
    ensures Covers(r, s, i)
  {
    var d := Past(s, k, IsDigit);
    var c := Peeked(s, d);
    if c == '.' || IsExponent(c) then FloatAt(s, i)
    else if d < |s| && IsIdentChar(c) then NameAt(s, i, d)
    else Leaf(kind, s[i..d], d)
  }

  /** A number with a prefix of two characters. */
  function PrefixedAt(s: string, kind: Token, i: nat, fn: char -> bool): (r: Leaf)
    requires i + 2 <= |s|
    ensures Covers(r, s, i)
  {
    var d := Past(s, i + 2, fn);
    if d == i + 2 || IsDigit(Peeked(s, d)) then NameAt(s, i, d) else NumberEnd(s, kind, i, d)
  }

  /** The token that starts with a digit here. */
  function NumberAt(s: string, i: nat): (r: Leaf)
    requires i < |s|
    ensures Covers(r, s, i)
  {
    var c := Peeked(s, i + 1);
    if s[i] != '0' then NumberEnd(s, IntLit, i, i + 1)
    else if IsOctal(c) then NumberEnd(s, IntLit, i, Past(s, i + 2, IsOctal))
    else if c == 'x' || c == 'X' then PrefixedAt(s, HexLit, i, IsHex)
    else if c == 'b' then PrefixedAt(s, BitLit, i, IsBit)
    else if c == '.' then FloatAt(s, i)
    else if c == 'B' then NameAt(s, i, i + 1)
    else NumberEnd(s, IntLit, i, i + 1)
  }

  /** The token that starts with a dot here. */
  function DotAt(s: string, i: nat): (r: Leaf)
    requires i < |s|
    ensures i <= r.end <= |s|
  {
    if !IsDigit(Peeked(s, i + 1)) then Leaf(Plain('.'), ".", i + 1)
    else
      var r := FloatAt(s, i);
      if r.tok == Identifier then Leaf(Invalid, r.lit, r.end) else r
  }

  /** The token that starts with a dash here, when no comment does. */
  function DashAt(s: string, i: nat): (r: Leaf)
    requires i < |s|
    ensures i < r.end <= |s|
  {
    if i + 3 <= |s| && s[i..i + 3] == "->>" then Leaf(JsonTextArrow, "", i + 3)
    else if i + 2 <= |s| && s[i..i + 2] == "->" then Leaf(JsonArrow, "", i + 2)
    else Leaf(Plain('-'), "-", i + 1)
  }

  // ----- what the numbers look like

  predicate AllDigits(w: string) { forall j :: 0 <= j < |w| ==> IsDigit(w[j]) }

  predicate HexWord(w: string) {
    |w| > 2 && w[0] == '0' && (w[1] == 'x' || w[1] == 'X') && forall j :: 2 <= j < |w| ==> IsHex(w[j])
  }

  predicate BitWord(w: string) {
    |w| > 2 && w[0] == '0' && w[1] == 'b' && forall j :: 2 <= j < |w| ==> IsBit(w[j])
  }

  /** The longest stretch of identifier characters from here. */
  function WordAt(s: string, i: nat): string
    requires i <= |s|
  {
    s[i..Past(s, i, IsIdentChar)]
  }

  predicate DotFollows(s: string, i: nat)
    requires i <= |s|
  {
    Peeked(s, Past(s, i, IsIdentChar)) == '.'
  }

  lemma PastUnique(s: string, i: nat, fn: char -> bool, k: nat)
    requires i <= k <= |s| && (forall j :: i <= j < k ==> fn(s[j])) && (k < |s| ==> !fn(s[k]))
    ensures Past(s, i, fn) == k
  {
  }

  lemma {:induction false} PastReaches(s: string, i: nat, fn: char -> bool, k: nat)
    requires i <= k <= |s| && forall j :: i <= j < k ==> fn(s[j])
    ensures k <= Past(s, i, fn) && Past(s, k, fn) == Past(s, i, fn)
    decreases k - i
  {
    if i < k { PastReaches(s, i + 1, fn, k); }
  }

  /** A narrower stretch inside a wider one. */
  lemma PastInside(s: string, i: nat, fn: char -> bool, wide: char -> bool)
    requires i <= |s| && forall c :: fn(c) ==> wide(c)
    ensures Past(s, i, fn) <= Past(s, i, wide)
    ensures Past(s, Past(s, i, fn), wide) == Past(s, i, wide)
  {
    PastReaches(s, i, wide, Past(s, i, fn));
  }

  /** A kind is given to a number exactly when nothing that could belong to it follows. */
  lemma EndKind(s: string, kind: Token, i: nat, k: nat)
    requires i <= k <= |s| && (kind == IntLit || kind == HexLit || kind == BitLit) && (forall j :: i <= j < k ==> IsIdentChar(s[j]))
    ensures var r, d := NumberEnd(s, kind, i, k), Past(s, k, IsDigit);
      (r.tok == kind <==> d == Past(s, i, IsIdentChar) && !DotFollows(s, i))
      && (r.tok == kind || (r.tok != IntLit && r.tok != HexLit && r.tok != BitLit))
      && (r.tok == kind ==> r.lit == WordAt(s, i) && r.end == d)
  {
    var d, e := Past(s, k, IsDigit), Past(s, i, IsIdentChar);
    PastReaches(s, i, IsIdentChar, k);
    PastInside(s, k, IsDigit, IsIdentChar);
    FloatKinds(s, i);
  }

  lemma FloatKinds(s: string, i: nat)
    requires i <= |s|
    ensures var t := FloatAt(s, i).tok; t == FloatLit || t == DecLit || t == Identifier
  {
  }

  lemma DigitRun(s: string, i: nat, k: nat)
    requires i <= k <= |s| && forall j :: i <= j < k ==> IsDigit(s[j])
    ensures Past(s, k, IsDigit) == Past(s, i, IsIdentChar) <==> AllDigits(WordAt(s, i))
  {
    var d, e, w := Past(s, k, IsDigit), Past(s, i, IsIdentChar), WordAt(s, i);
    PastReaches(s, i, IsIdentChar, k);
    PastInside(s, k, IsDigit, IsIdentChar);
    assert forall j :: i <= j < e ==> s[j] == w[j - i];
    if d < e { assert !IsDigit(w[d - i]); }
  }

  lemma PrefixRun(s: string, i: nat, fn: char -> bool)
    requires i + 2 <= |s| && IsIdentChar(s[i]) && IsIdentChar(s[i + 1]) && forall c :: fn(c) ==> IsIdentChar(c)
    ensures var d, e := Past(s, i + 2, fn), Past(s, i, IsIdentChar);
      && i + 2 <= e && d <= e && Past(s, d, IsIdentChar) == e
      && (d == e <==> forall j :: 2 <= j < e - i ==> fn(WordAt(s, i)[j]))
  {
    var d, e, w := Past(s, i + 2, fn), Past(s, i, IsIdentChar), WordAt(s, i);
    PastReaches(s, i, IsIdentChar, i + 2);
    PastInside(s, i + 2, fn, IsIdentChar);
    assert forall j :: i <= j < e ==> s[j] == w[j - i];
    if d < e { assert !fn(w[d - i]); }
  }

  /** A prefixed number is what its word says, unless a dot follows. */
  lemma PrefixKind(s: string, kind: Token, i: nat, fn: char -> bool)
    requires i + 2 <= |s| && IsIdentChar(s[i]) && IsIdentChar(s[i + 1]) && (forall c :: fn(c) ==> IsIdentChar(c))
    requires kind == HexLit || kind == BitLit
    ensures var r, w := PrefixedAt(s, kind, i, fn), WordAt(s, i);
      (r.tok == kind <==> |w| > 2 && (forall j :: 2 <= j < |w| ==> fn(w[j])) && !DotFollows(s, i))
      && (r.tok == kind || (r.tok != IntLit && r.tok != HexLit && r.tok != BitLit))
      && (r.tok == kind ==> r.lit == w)
  {
    var d, e := Past(s, i + 2, fn), Past(s, i, IsIdentChar);
    PrefixRun(s, i, fn);
    if d > i + 2 && !IsDigit(Peeked(s, d)) {
      assert forall j :: i <= j < d ==> IsIdentChar(s[j]);
      EndKind(s, kind, i, d);
      PastUnique(s, d, IsDigit, d);
    }
  }

  /** Which prefix a word has. */
  lemma WordStarts(s: string, i: nat)
    requires i < |s| && IsDigit(s[i])
    ensures var w := WordAt(s, i); w != "" && w[0] == s[i] && (|w| > 1 <==> IsIdentChar(Peeked(s, i + 1)) && i + 1 < |s|)
    ensures var w := WordAt(s, i); |w| > 1 ==> w[1] == s[i + 1]
  {
    var e := Past(s, i, IsIdentChar);
    assert e == i ==> IsIdentChar(s[e]);
    assert e == i + 1 && e < |s| ==> !IsIdentChar(s[e]);
  }

  /** A number without a prefix that counts. */
  lemma PlainKind(s: string, i: nat, k: nat)
    requires i < k <= |s| && forall j :: i <= j < k ==> IsDigit(s[j])
    ensures var r, w := NumberEnd(s, IntLit, i, k), WordAt(s, i);
      && (r.tok == IntLit <==> AllDigits(w) && !DotFollows(s, i))
      && r.tok != HexLit && r.tok != BitLit
      && (r.tok == IntLit ==> r.lit == w)
  {
    EndKind(s, IntLit, i, k);
    DigitRun(s, i, k);
  }

  /** The kind of a number can be told from its word and the character after it: it is an integer, a
      hexadecimal or a bit literal exactly when the word looks like one and no dot follows. */
  lemma NumberKinds(s: string, i: nat)
    requires i < |s| && IsDigit(s[i])
    ensures var r, w, dot := NumberAt(s, i), WordAt(s, i), DotFollows(s, i);
      && (r.tok == IntLit <==> AllDigits(w) && !dot)
      && (r.tok == HexLit <==> HexWord(w) && !dot)
      && (r.tok == BitLit <==> BitWord(w) && !dot)
      && (r.tok == IntLit || r.tok == HexLit || r.tok == BitLit ==> r.lit == w)
  {
    var c := Peeked(s, i + 1);
    WordStarts(s, i);
    if s[i] == '0' && (c == 'x' || c == 'X') {
      PrefixKind(s, HexLit, i, IsHex);
    } else if s[i] == '0' && c == 'b' {
      PrefixKind(s, BitLit, i, IsBit);
    } else if s[i] == '0' && c == '.' {
      FloatKinds(s, i);
      PastUnique(s, i, IsIdentChar, i + 1);
    } else if !(s[i] == '0' && c == 'B') {
      var k := if s[i] == '0' && IsOctal(c) then Past(s, i + 2, IsOctal) else i + 1;
      assert forall j :: i <= j < k ==> IsDigit(s[j]);
      PlainKind(s, i, k);
    }
  }

  /** A prefixed number with a dot after it is cut back to its first digit. */
  lemma PrefixIsCut(s: string, i: nat)
    requires i < |s| && HexWord(WordAt(s, i)) && DotFollows(s, i)
    ensures NumberAt(s, i) == Leaf(DecLit, "0", i + 1)
  {
    var e := Past(s, i, IsIdentChar);
    assert s[i] == WordAt(s, i)[0] && s[i + 1] == WordAt(s, i)[1];
    PrefixRun(s, i, IsHex);
    assert Past(s, i + 2, IsHex) == e && Peeked(s, e) == '.';
    PastUnique(s, e, IsDigit, e);
    PastUnique(s, i, IsDigit, i + 1);
  }

  predicate Progresses(r: Leaf, i: nat) { r.end > i && Moves(r.tok) && Verbatim(r.tok) }

  lemma EndMoves(s: string, kind: Token, i: nat, k: nat)
    requires i <= k <= |s| && i < |s| && IsDigit(s[i]) && Verbatim(kind) && Moves(kind)
    ensures Progresses(NumberEnd(s, kind, i, k), i)
  {
    FloatMoves(s, i);
    PastReaches(s, i, IsIdentChar, i);
  }

  lemma NumberMoves(s: string, i: nat)
    requires i < |s| && IsDigit(s[i])
    ensures Progresses(NumberAt(s, i), i)
  {
    var c := Peeked(s, i + 1);
    FloatMoves(s, i);
    if s[i] == '0' && (c == 'x' || c == 'X') {
      EndMoves(s, HexLit, i, Past(s, i + 2, IsHex));
    } else if s[i] == '0' && c == 'b' {
      EndMoves(s, BitLit, i, Past(s, i + 2, IsBit));
    } else {
      EndMoves(s, IntLit, i, if s[i] == '0' && IsOctal(c) then Past(s, i + 2, IsOctal) else i + 1);
    }
  }

  lemma FloatMoves(s: string, i: nat)
    requires i < |s| && (IsDigit(s[i]) || (s[i] == '.' && IsDigit(Peeked(s, i + 1))))
    ensures var r := FloatAt(s, i);
      (r.tok == FloatLit || r.tok == DecLit || r.tok == Identifier) && (IsDigit(s[i]) || r.tok != Identifier ==> r.end > i)
  {
  }

  lemma DotMoves(s: string, i: nat)
    requires i < |s| && s[i] == '.'
    ensures var r := DotAt(s, i); !r.tok.Eof? && (r.tok.Invalid? || r.end > i) && (Verbatim(r.tok) ==> r.lit == s[i..r.end])
  {
    if IsDigit(Peeked(s, i + 1)) { FloatMoves(s, i); }
  }

  // ----- names and quoted texts after an at sign

  /** A name or a quoted text, or the next character, which stays unread; a zero byte reads as the end. */
  function NamedAt(s: string, i: nat, plain: bool): (r: Leaf)
    requires i <= |s|
    ensures i <= r.end <= |s|
  {
    var c := Peeked(s, i);
    if i < |s| && (c == '\'' || c == '"') then QuoteLeaf(ReadQuoted(s, i + 1, c, plain, ""), StringLit, |s|)
    else if i < |s| && c == '`' then QuoteLeaf(ReadQuoted(s, i + 1, '`', true, ""), QuotedIdentifier, |s|)
    else if IsUserVarChar(c) then Leaf(Identifier, s[i..Past(s, i, IsUserVarChar)], Past(s, i, IsUserVarChar))
    else Leaf(if c == 0 as char then Eof else Plain(c), "", i)
  }

  function QuoteLeaf(q: Quote, tok: Token, end: nat): Leaf {
    match q case Closed(content, e) => Leaf(tok, content, e) case Unclosed => Leaf(Invalid, "", end)
  }

  const SCOPES := ["global.", "session.", "local."]

  /** The scope that stands here in any case of letters, the first n in the list not asked for. */
  function Scope(s: string, i: nat, n: nat): (v: string)
    requires i <= |s| && n <= |SCOPES|
    ensures i + |v| <= |s|
    decreases |SCOPES| - n
  {
    if n == |SCOPES| then ""
    else if |SCOPES[n]| <= |s| - i && Lower(s[i..i + |SCOPES[n]|]) == SCOPES[n] then SCOPES[n]
    else Scope(s, i, n + 1)
  }

  /** The token that starts with an at sign here: a user variable, or a system variable after two of them. */
  function AtAt(s: string, i: nat, plain: bool): (r: Leaf)
    requires i < |s|
    ensures i < r.end <= |s|
  {
    var first := NamedAt(s, i + 1, plain);
    if first.tok == Plain('@') && i + 2 <= |s| then SystemAt(s, i, Scope(s, i + 2, 0), plain)
    else if first.tok == Invalid then first
    else Leaf(SingleAt, first.lit, first.end)
  }

  function SystemAt(s: string, i: nat, scope: string, plain: bool): (r: Leaf)
    requires i + 2 + |scope| <= |s|
    ensures i < r.end <= |s|
  {
    var name := NamedAt(s, i + 2 + |scope|, plain);
    if name.tok == StringLit || name.tok == QuotedIdentifier then Leaf(DoubleAt, "@@" + scope + name.lit, name.end)
    else if name.tok == Identifier then Leaf(DoubleAt, s[i..name.end], name.end)
    else name
  }

  // ----- the token that a character starts

  /** x'...' and b'...' with digits of their kind only, or an identifier. */
  function QuotedDigitsAt(s: string, i: nat, hex: bool): Leaf
    requires i < |s|
  {
    if Peeked(s, i + 1) != '\'' then NameAt(s, i, i)
    else
      var e := Past(s, i + 2, if hex then IsHex else IsBit);
      if Peeked(s, e) == '\'' then Leaf(if hex then HexLit else BitLit, s[i..e + 1], e + 1) else Leaf(Invalid, "", e)
  }

  /** An identifier, or the introducer that N before a quote is. */
  function NationalAt(s: string, i: nat): Leaf
    requires i < |s|
  {
    var r := NameAt(s, i, i);
    if (r.lit == "N" || r.lit == "n") && Peeked(s, r.end) == '\'' then Leaf(UnderscoreCS, "utf8", r.end) else r
  }

  /** The longest operator, or nothing. */
  function OperatorAt(s: string, i: nat): Leaf
    requires i < |s|
  {
    var e := i + Walk(Root, s, i);
    Leaf(if e == i then Invalid else Operator, s[i..e], e)
  }

  /** A letter, an underscore or another character that words start with. */
  function WordAtChar(s: string, i: nat): Leaf
    requires i < |s|
  {
    if s[i] == 'X' || s[i] == 'x' then QuotedDigitsAt(s, i, true)
    else if s[i] == 'B' || s[i] == 'b' then QuotedDigitsAt(s, i, false)
    else if s[i] == 'N' || s[i] == 'n' then NationalAt(s, i)
    else if IsIdentChar(s[i]) then NameAt(s, i, i)
    else OperatorAt(s, i)
  }

  /** The token that starts here, where neither white space nor a comment, a slash, a star or a dash does; after an
      identifier and a dot (`dot`), digits are a name and a dot stands alone. */
  function TokenAt(s: string, i: nat, dot: bool, plain: bool): Leaf
    requires i < |s|
  {
    if s[i] == '@' then AtAt(s, i, plain)
    else if s[i] == '`' then QuoteLeaf(ReadQuoted(s, i + 1, '`', true, ""), QuotedIdentifier, |s|)
    else if s[i] == '\'' || s[i] == '"' then QuoteLeaf(ReadQuoted(s, i + 1, s[i], plain, ""), StringLit, |s|)
    else if IsDigit(s[i]) then (if dot then NameAt(s, i, i) else NumberAt(s, i))
    else if s[i] == '.' then (if dot then Leaf(Plain('.'), ".", i + 1) else DotAt(s, i))
    else WordAtChar(s, i)
  }

  // ----- comments

  /** What a slash opens: nothing, a comment whose text is scanned from k on, one that is skipped, or a hint. */
  datatype Opening = Division | Opened(k: nat) | Skipped | Hint

  function VersionEnd(s: string, i: nat): nat { i + 3 + if FiveDigits(s, i + 3) then 5 else 0 }

  function FeatureComment(f: Features, i: nat, known: set<string>): Opening {
    match f
    case Accepts(ids, end) => if AllKnown(ids, known) then Opened(end) else Skipped
    case Rejects => Opened(i + 4)
  }

  predicate AllKnown(ids: seq<string>, known: set<string>) { forall n :: 0 <= n < |ids| ==> ids[n] in known }

  /** Features are all known when there are none; `hint` says whether a hint may stand here. */
  function OpeningAt(s: string, i: nat, hint: bool, known: set<string>): Opening {
    if !CommentOpens(s, i) then Division
    else if Peeked(s, i + 2) == '!' then Opened(VersionEnd(s, i))
    else if Peeked(s, i + 2) == 'T' && Peeked(s, i + 3) == '!' then
      FeatureComment(if i + 4 <= |s| then Automaton(s, i + 4, Init, "", []) else Rejects, i, known)
    else if Peeked(s, i + 2) == '+' && hint then Hint
    else Skipped
  }

  lemma ClosedDoesNotEnd(s: string, i: nat, k: nat)
    requires BlockComment(s, i, k)
    ensures !NeverCloses(s, i)
  {
  }

  // ----- the end of the input

  /** Two at signs, perhaps a scope, and then a zero byte or the end of the text. */
  predicate NamelessVariable(s: string, i: nat) {
    && i + 2 <= |s| && s[i] == '@' && s[i + 1] == '@'
    && Peeked(s, i + 2 + |Scope(s, i + 2, 0)|) == 0 as char
  }

  /** Where the end of the input is reported: at the end, at a comment that is not closed, and at a
      system variable without a name that stands before a zero byte. */
  predicate Ends(s: string, i: nat) {
    i == |s| || (CommentOpens(s, i) && NeverCloses(s, i)) || NamelessVariable(s, i)
  }

  lemma NamedKinds(s: string, i: nat, plain: bool)
    requires i <= |s|
    ensures var t := NamedAt(s, i, plain).tok;
      (t == Eof <==> Peeked(s, i) == 0 as char) && (t == Plain('@') <==> Peeked(s, i) == '@')
  {
  }

  lemma AtEnds(s: string, i: nat, plain: bool)
    requires i < |s| && s[i] == '@'
    ensures AtAt(s, i, plain).tok == Eof <==> Ends(s, i)
  {
    AtSplits(s, i, plain);
    if Peeked(s, i + 1) == '@' { SystemEnds(s, i, Scope(s, i + 2, 0), plain); }
  }

  lemma AtSplits(s: string, i: nat, plain: bool)
    requires i < |s|
    ensures if Peeked(s, i + 1) == '@' then i + 2 <= |s| && AtAt(s, i, plain) == SystemAt(s, i, Scope(s, i + 2, 0), plain)
            else AtAt(s, i, plain).tok == Invalid || AtAt(s, i, plain).tok == SingleAt
  {
    NamedKinds(s, i + 1, plain);
  }

  lemma SystemEnds(s: string, i: nat, scope: string, plain: bool)
    requires i + 2 + |scope| <= |s|
    ensures SystemAt(s, i, scope, plain).tok == Eof <==> Peeked(s, i + 2 + |scope|) == 0 as char
  {
    NamedKinds(s, i + 2 + |scope|, plain);
  }

  /** A character that is no name stays unread. */
  lemma NamedStays(s: string, i: nat, plain: bool)
    requires i <= |s|
    ensures var r := NamedAt(s, i, plain); r.tok == Plain('@') ==> r.end == i && i < |s| && s[i] == '@'
  {
  }

  lemma AtUser(s: string, i: nat, plain: bool)
    requires i < |s| && NamedAt(s, i + 1, plain).tok != Plain('@')
    ensures var r := NamedAt(s, i + 1, plain);
      AtAt(s, i, plain) == if r.tok == Invalid then r else Leaf(SingleAt, r.lit, r.end)
  {
  }

  lemma AtSystem(s: string, i: nat, plain: bool)
    requires i + 2 <= |s| && NamedAt(s, i + 1, plain).tok == Plain('@')
    ensures AtAt(s, i, plain) == SystemAt(s, i, Scope(s, i + 2, 0), plain)
  {
  }

  lemma NamedPlain(s: string, i: nat, plain: bool)
    requires i <= |s|
    ensures var t := NamedAt(s, i, plain).tok; Verbatim(t) ==> t == Identifier
  {
  }

  lemma SystemPlain(s: string, i: nat, scope: string, plain: bool)
    requires i + 2 + |scope| <= |s|
    ensures !Verbatim(SystemAt(s, i, scope, plain).tok)
  {
    NamedPlain(s, i + 2 + |scope|, plain);
  }

  lemma AtPlain(s: string, i: nat, plain: bool)
    requires i < |s|
    ensures !Verbatim(AtAt(s, i, plain).tok)
  {
    AtSplits(s, i, plain);
    if Peeked(s, i + 1) == '@' { SystemPlain(s, i, Scope(s, i + 2, 0), plain); }
  }
}
