/**
 What a dash, a sharp or a slash starts, character by character (internal/parser/tidb/lexer.go:482-601).
 */
module ScanComments {
  import opened ScanText
  import opened ScanFeatures
  import opened ScanTokens

  /** The character stands at i. */
  predicate Is(s: string, i: nat, c: char) { i < |s| && s[i] == c }

  /** White space of the Latin characters. */
  predicate White(c: char) {
    c == ' ' || c == '\t' || c == '\n' || c == '\r' || c as int == 11 || c as int == 12 || c as int == 0x85 || c as int == 0xA0
  }

  /** A line comment starts at a sharp, or at two dashes with white space or nothing behind them. */
  lemma LineExactly(s: string, i: nat)
    ensures OpensLine(s, i) <==>
      || Is(s, i, '#')
      || (Is(s, i, '-') && Is(s, i + 1, '-') && (i + 2 == |s| || White(s[i + 2])))
  {
  }

  /** Another dash is an arrow of the JSON operators, the longer one first, or a minus sign. */
  lemma DashExactly(s: string, i: nat)
    requires Is(s, i, '-')
    ensures var r := DashAt(s, i);
      if Is(s, i + 1, '>') && Is(s, i + 2, '>') then r.tok == JsonTextArrow && r.end == i + 3 && r.lit == ""
      else if Is(s, i + 1, '>') then r.tok == JsonArrow && r.end == i + 2 && r.lit == ""
      else r.tok == Plain('-') && r.end == i + 1 && r.lit == "-"
  {
    if i + 2 <= |s| {
      var t := s[i..i + 2];
      assert t[0] == s[i] && t[1] == s[i + 1];
      if i + 3 <= |s| {
        var u := s[i..i + 3];
        assert u[0] == s[i] && u[1] == s[i + 1] && u[2] == s[i + 2];
      }
    }
  }

  /** A comment opens. */
  predicate Comment(s: string, i: nat) { Is(s, i, '/') && Is(s, i + 1, '*') }

  /** A slash without a star is a division. */
  lemma DivisionExactly(s: string, i: nat, hint: bool, known: set<string>)
    ensures OpeningAt(s, i, hint, known) == Division <==> !Comment(s, i)
  {
  }

  /** A comment with an exclamation mark is scanned: from behind five digits, if there are so many, else from behind the
      mark. */
  lemma BangExactly(s: string, i: nat, hint: bool, known: set<string>)
    requires Comment(s, i) && Is(s, i + 2, '!')
    ensures OpeningAt(s, i, hint, known)
         == if i + 8 <= |s| && forall j :: i + 3 <= j < i + 8 ==> '0' <= s[j] <= '9' then Opened(i + 8) else Opened(i + 3)
  {
    assert FiveDigits(s, i + 3) <==> i + 8 <= |s| && forall j :: i + 3 <= j < i + 8 ==> '0' <= s[j] <= '9';
  }

  ghost predicate HasList(s: string, i: nat) { exists e: nat, names {:trigger IsList(s, i, e, names)} :: IsList(s, i, e, names) }

  /** A comment with a T and an exclamation mark is scanned from behind its list of features, if they are all known, and
      skipped otherwise; without a list it is scanned from behind the mark. */
  lemma FeatureExactly(s: string, i: nat, ids: seq<string>, end: nat, hint: bool, known: set<string>)
    requires Comment(s, i) && Is(s, i + 2, 'T') && Is(s, i + 3, '!')
    ensures IsList(s, i + 4, end, ids) ==>
      OpeningAt(s, i, hint, known) == if forall n :: 0 <= n < |ids| ==> ids[n] in known then Opened(end) else Skipped
    ensures !HasList(s, i + 4) ==> OpeningAt(s, i, hint, known) == Opened(i + 4)
  {
    FeaturesExactly(s, i + 4, ids, end);
    match Automaton(s, i + 4, Init, "", [])
    case Rejects =>
    case Accepts(names, e) => FeaturesExactly(s, i + 4, names, e);
  }

  /** A plus sign makes a hint where one may stand. */
  lemma HintExactly(s: string, i: nat, hint: bool, known: set<string>)
    requires Comment(s, i) && Is(s, i + 2, '+')
    ensures OpeningAt(s, i, hint, known) == if hint then Hint else Skipped
  {
  }

  /** Any other comment is skipped. */
  lemma OthersSkipped(s: string, i: nat, hint: bool, known: set<string>)
    requires Comment(s, i) && !Is(s, i + 2, '!') && !(Is(s, i + 2, 'T') && Is(s, i + 3, '!')) && !Is(s, i + 2, '+')
    ensures OpeningAt(s, i, hint, known) == Skipped
  {
  }
}
