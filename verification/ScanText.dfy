/**
 Texts as a scanner sees them: positions, white space, comments and operators
 (internal/parser/tidb/lexer.go:32-37, 395-430, 482-616, 1026-1097,
 internal/parser/tidb/misc.go:16-135).
 A character stands for one byte.
 */
module ScanText {
  import opened Basics
  import opened Numerals
  import opened Strings

  // ----- characters

  /** White space as unicode.IsSpace sees it in a byte. */
  predicate IsBlank(c: char) { IsSpace(c) || c as int == 0x85 || c as int == 0xA0 }

  predicate IsLetter(c: char) { 'a' <= c <= 'z' || 'A' <= c <= 'Z' }

  predicate IsIdentExtend(c: char) { c as int >= 0x80 }

  predicate IsIdentChar(c: char) { IsLetter(c) || IsDigit(c) || c == '_' || c == '$' || IsIdentExtend(c) }

  predicate IsUserVarChar(c: char) { IsIdentChar(c) || c == '.' }

  predicate IsHex(c: char) { IsDigit(c) || 'a' <= c <= 'f' || 'A' <= c <= 'F' }

  // ----- positions

  datatype Pos = Pos(line: int, col: int, offset: nat)

  /** The position after one more character. */
  function Moved(p: Pos, c: char): Pos {
    if c == '\n' then Pos(p.line + 1, 1, p.offset + 1) else Pos(p.line, p.col + 1, p.offset + 1)
  }

  /** The position a reader has when it stands at an offset, however it got there. */
  function PosAt(s: string, n: nat): (p: Pos)
    requires n <= |s|
    ensures p.offset == n
  {
    if n == 0 then Pos(1, 0, 0) else Moved(PosAt(s, n - 1), s[n - 1])
  }

  function Newlines(s: string): nat {
    if s == "" then 0 else Newlines(s[..|s| - 1]) + if s[|s| - 1] == '\n' then 1 else 0
  }

  /** How far the end of a text is from its last newline, or from its start if there is none. */
  function SinceNewline(s: string): nat {
    if s == "" then 0 else if s[|s| - 1] == '\n' then 1 else SinceNewline(s[..|s| - 1]) + 1
  }

  /** The last newline stands so far from the end; without one, so far is the whole text. */
  predicate Since(s: string, d: nat) {
    && d <= |s| && (forall i :: |s| - d < i < |s| ==> s[i] != '\n')
    && if '\n' in s then 0 < d && s[|s| - d] == '\n' else d == |s|
  }

  lemma {:induction false} SinceNewlineMeans(s: string)
    ensures Since(s, SinceNewline(s))
  {
    if s != "" && s[|s| - 1] != '\n' {
      SinceNewlineMeans(s[..|s| - 1]);
      assert '\n' in s <==> '\n' in s[..|s| - 1];
    }
  }

  /** The line counts the newlines before a position, the column measures the distance to the last one. */
  lemma PosMeans(s: string, n: nat)
    requires n <= |s|
    ensures var p := PosAt(s, n); p.line == 1 + Newlines(s[..n]) && p.col >= 0 && Since(s[..n], p.col)
  {
    Counted(s, n);
    SinceNewlineMeans(s[..n]);
  }

  lemma {:induction false} Counted(s: string, n: nat)
    requires n <= |s|
    ensures PosAt(s, n).line == 1 + Newlines(s[..n]) && PosAt(s, n).col == SinceNewline(s[..n])
  {
    if n > 0 {
      Counted(s, n - 1);
      assert s[..n][..n - 1] == s[..n - 1];
    }
  }

  // ----- stretches of characters

  /** Where a stretch of characters that pass ends. */
  function Past(s: string, i: nat, fn: char -> bool): (k: nat)
    requires i <= |s|
    ensures i <= k <= |s| && (forall j :: i <= j < k ==> fn(s[j])) && (k < |s| ==> !fn(s[k]))
    decreases |s| - i
  {
    if i < |s| && fn(s[i]) then Past(s, i + 1, fn) else i
  }

  /** The character here, or a zero byte at the end. */
  function Peeked(s: string, i: nat): char { if i < |s| then s[i] else 0 as char }

  // ----- what lies between tokens

  /** From i to the end of the line, or of the text. */
  predicate RestOfLine(s: string, i: nat, k: nat) {
    i <= k <= |s| && (forall j :: i <= j < k ==> s[j] != '\n') && (k == |s| || s[k] == '\n')
  }

  predicate OpensLine(s: string, i: nat) {
    i < |s| && (s[i] == '#' ||
                (i + 2 <= |s| && s[i] == '-' && s[i + 1] == '-' && (i + 2 == |s| || IsBlank(s[i + 2]))))
  }

  predicate LineComment(s: string, i: nat, k: nat) { OpensLine(s, i) && RestOfLine(s, i, k) && i < k }

  predicate CommentOpens(s: string, i: nat) { i + 2 <= |s| && s[i] == '/' && s[i + 1] == '*' }

  predicate StarSlash(s: string, j: nat) { j + 2 <= |s| && s[j] == '*' && s[j + 1] == '/' }

  /** A comment that ends with the first star and slash after its opening. */
  predicate BlockComment(s: string, i: nat, k: nat) {
    CommentOpens(s, i) && i + 4 <= k <= |s| && StarSlash(s, k - 2) && forall j :: i + 2 <= j < k - 2 ==> !StarSlash(s, j)
  }

  predicate NeverCloses(s: string, i: nat) { forall j :: i + 2 <= j < |s| ==> !StarSlash(s, j) }

  predicate FiveDigits(s: string, i: nat) { i + 5 <= |s| && forall j :: i <= j < i + 5 ==> IsDigit(s[j]) }

  /** The opening of a comment whose text is scanned: with a version, or with features. */
  predicate BangOpen(s: string, i: nat, k: nat) {
    CommentOpens(s, i) && k <= |s| && i + 3 <= k &&
    ((s[i + 2] == '!' && k == i + 3 + if FiveDigits(s, i + 3) then 5 else 0)
     || (i + 4 <= k && s[i + 2] == 'T' && s[i + 3] == '!' && FeatureText(s[i + 4..k])))
  }

  /** Nothing, or a bracketed list of names. */
  predicate FeatureText(t: string) {
    t == "" || (|t| >= 3 && t[0] == '[' && t[|t| - 1] == ']' && forall j :: 0 < j < |t| - 1 ==> IsIdentChar(t[j]) || t[j] == ',')
  }

  /** One piece of text between tokens; `bang` says whether a scanned comment is open before and after it. */
  predicate Trivium(s: string, i: nat, k: nat, bang: bool, after: bool) {
    || (i < |s| && k == i + 1 && IsBlank(s[i]) && after == bang)
    || (LineComment(s, i, k) && after == bang)
    || (BlockComment(s, i, k) && after == bang)
    || (BangOpen(s, i, k) && after)
    || (bang && StarSlash(s, i) && k == i + 2 && !after)
  }

  /** White space and comments only. */
  ghost predicate Gap(s: string, i: nat, j: nat, bang: bool, after: bool)
    decreases j - i
  {
    i <= j && ((i == j && bang == after) || exists k, b :: i < k <= j && Trivium(s, i, k, bang, b) && Gap(s, k, j, b, after))
  }

  lemma GapNone(s: string, i: nat, bang: bool)
    ensures Gap(s, i, i, bang, bang)
  {
  }

  lemma GapMore(s: string, i: nat, k: nat, j: nat, bang: bool, b: bool, after: bool)
    requires i < k <= j && Trivium(s, i, k, bang, b) && Gap(s, k, j, b, after)
    ensures Gap(s, i, j, bang, after)
  {
  }

  /** A stretch of blanks before a gap. */
  lemma {:induction false} GapBlanks(s: string, i: nat, k: nat, j: nat, bang: bool, after: bool)
    requires i <= k <= j <= |s| && (forall x :: i <= x < k ==> IsBlank(s[x])) && Gap(s, k, j, bang, after)
    ensures Gap(s, i, j, bang, after)
    decreases k - i
  {
    if i < k {
      GapBlanks(s, i + 1, k, j, bang, after);
      assert Trivium(s, i, i + 1, bang, bang);
      GapMore(s, i, i + 1, j, bang, bang, after);
    }
  }

  // ----- operators

  /** A node of the operator trie, by the path to it. */
  datatype Node = Root | One(first: char) | Two(first: char, second: char) | NullEq

  predicate StartsOperator(c: char) {
    || c == '+' || c == '>' || c == '<' || c == '(' || c == ')' || c == '[' || c == ']' || c == ';' || c == ','
    || c == '&' || c == '%' || c == ':' || c == '|' || c == '!' || c == '^' || c == '~' || c == '\\' || c == '?'
    || c == '=' || c == '{' || c == '}'
  }

  predicate Pair(c: char, d: char) {
    || (c == '|' && d == '|') || (c == '&' && (d == '&' || d == '^')) || (c == ':' && d == '=') || (c == '!' && d == '=')
    || (c == '<' && (d == '=' || d == '>' || d == '<')) || (c == '>' && (d == '=' || d == '>')) || (c == '\\' && d == 'N')
  }

  function Child(n: Node, c: char): Option<Node> {
    match n
    case Root => if StartsOperator(c) then Some(One(c)) else None
    case One(b) => if Pair(b, c) then Some(Two(b, c)) else None
    case Two(a, b) => if a == '<' && b == '=' && c == '>' then Some(NullEq) else None
    case NullEq => None
  }

  /** How many characters lead further down from a node. */
  function Walk(n: Node, s: string, i: nat): (r: nat)
    requires i <= |s|
    ensures i + r <= |s|
    decreases |s| - i
  {
    if i < |s| && Child(n, s[i]).Some? then 1 + Walk(Child(n, s[i]).value, s, i + 1) else 0
  }
}
