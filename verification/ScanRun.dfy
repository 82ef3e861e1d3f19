/**
 A whole run of the scanner tiles the text: the tokens follow one another, with white space and comments
 between them (internal/parser/tidb/lexer.go:401-616).
 */
module ScanRun {
  import opened Strings
  import opened ScanText
  import opened ScanTokens
  import opened Scanner

  /** A token's place; `bang` says whether it is inside a scanned comment. */
  datatype Span = Span(tok: Token, from: nat, to: nat, bang: bool)

  function EndOf(spans: seq<Span>): nat { if spans == [] then 0 else spans[|spans| - 1].to }

  function BangAfter(spans: seq<Span>): bool { spans != [] && spans[|spans| - 1].bang }

  ghost predicate Next(s: string, end: nat, bang: bool, x: Span) {
    Moves(x.tok) && Gap(s, end, x.from, bang, x.bang) && x.from < x.to <= |s|
  }

  /** Every token takes up some text, and only a gap separates it from the one before it. */
  ghost predicate Tiled(s: string, spans: seq<Span>) {
    if spans == [] then true
    else
      var before := spans[..|spans| - 1];
      Tiled(s, before) && Next(s, EndOf(before), BangAfter(before), spans[|spans| - 1])
  }

  /** The tokens are disjoint and in the order of the text. */
  lemma {:induction false} TilesInOrder(s: string, spans: seq<Span>, i: nat, j: nat)
    requires Tiled(s, spans) && i < j < |spans|
    ensures spans[i].from < spans[i].to <= spans[j].from < spans[j].to
    decreases |spans|
  {
    var before := spans[..|spans| - 1];
    if j < |spans| - 1 {
      TilesInOrder(s, before, i, j);
    } else if i < j - 1 {
      TilesInOrder(s, before, i, j - 1);
    } else if i > 0 {
      TilesInOrder(s, before, i - 1, i);
    } else {
      assert before[..0] == [];
    }
  }

  /** Scans until the end of the input is reported, or to the first invalid token. The text from `end` on is
      left: nothing, a comment that is not closed or a system variable without a name when the end is
      reported, and an invalid token otherwise. */
  method ScanAll(sc: SqlScanner) returns (spans: seq<Span>, last: Token, end: nat)
    requires sc.Valid() && sc.p.offset == 0 && !sc.inBangComment
    modifies sc
    ensures sc.Valid() && Tiled(sc.text, spans) && (last.Eof? || last.Invalid?)
    ensures EndOf(spans) <= end <= |sc.text| && Gap(sc.text, EndOf(spans), end, BangAfter(spans), sc.inBangComment)
    ensures last.Eof? <==> Ends(sc.text, end)
  {
    spans := [];
    while true
      invariant sc.Valid() && Tiled(sc.text, spans)
      invariant sc.p.offset == EndOf(spans) && sc.inBangComment == BangAfter(spans)
      decreases |sc.text| - sc.p.offset
    {
      var tok, pos, lit := sc.Scan();
      if tok.Eof? || tok.Invalid? {
        return spans, tok, pos.offset;
      }
      var x := Span(tok, pos.offset, sc.p.offset, sc.inBangComment);
      assert (spans + [x])[..|spans|] == spans;
      spans := spans + [x];
    }
  }

  // ----- the end that is none

  const NAMELESS := "@@" + [0 as char] + " from t"

  lemma NoScope(n: nat)
    requires n <= |SCOPES|
    ensures Scope(NAMELESS, 2, n) == ""
    decreases |SCOPES| - n
  {
    if n < |SCOPES| {
      NoScope(n + 1);
      var v := SCOPES[n];
      if |v| <= |NAMELESS| - 2 { assert Lower(NAMELESS[2..2 + |v|])[0] == LowerChar(NAMELESS[2]) != v[0]; }
    }
  }

  /** No gap starts with an at sign. */
  lemma NoGapAtSign(s: string, i: nat, j: nat, bang: bool, after: bool)
    requires i < |s| && s[i] == '@' && Gap(s, i, j, bang, after)
    ensures i == j
  {
  }

  /** Two at signs before a zero byte are reported as the end of the input, where the text begins. */
  method EndsAtTheStart() returns (tok: Token, at: nat)
    ensures tok == Eof && at == 0
  {
    var sc := new SqlScanner(NAMELESS, {}, false);
    var pos, lit;
    tok, pos, lit := sc.Scan();
    at := pos.offset;
    NoGapAtSign(NAMELESS, 0, at, false, sc.inBangComment);
    NoScope(0);
    assert NamelessVariable(NAMELESS, 0);
  }
}
