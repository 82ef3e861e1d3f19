/**
 Searching a text outside its quotes and parentheses (internal/syntax/syntax.go:98-226).
 */
module TopLevel {
  import opened Strings

  const NO_QUOTE: char := '-'

  /** Which quote is open, and how many parentheses. */
  datatype Mode = Mode(quote: char, depth: nat)

  const OUT: Mode := Mode(NO_QUOTE, 0)

  predicate IsQuote(c: char) { c == '\'' || c == '"' || c == '`' }

  function Step(m: Mode, c: char): Mode {
    if m.quote != NO_QUOTE then (if c == m.quote then Mode(NO_QUOTE, m.depth) else m)
    else if IsQuote(c) then Mode(c, m.depth)
    else if c == '(' then Mode(NO_QUOTE, m.depth + 1)
    else if c == ')' && m.depth > 0 then Mode(NO_QUOTE, m.depth - 1)
    else m
  }

  function Run(m: Mode, s: string): Mode
    decreases |s|
  {
    if s == "" then m else Run(Step(m, s[0]), s[1..])
  }

  lemma {:induction false} RunAppend(m: Mode, a: string, b: string)
    ensures Run(m, a + b) == Run(Run(m, a), b)
    decreases |a|
  {
    if a == "" {
      assert a + b == b;
    } else {
      assert (a + b)[1..] == a[1..] + b;
      RunAppend(Step(m, a[0]), a[1..], b);
    }
  }

  /** Quotes and parentheses opened in the text are closed in it. */
  predicate Calm(s: string) { Run(OUT, s) == OUT }

  /** The text starts with the keyword, whatever the case of the letters. */
  predicate Matches(s: string, kw: string) {
    |kw| <= |s| && forall i :: 0 <= i < |kw| ==> UpperChar(s[i]) == UpperChar(kw[i])
  }

  function Shift(n: nat, r: int): int { if r < 0 then -1 else n + r }

  /** The first place outside quotes and parentheses where the keyword starts, or -1. */
  function Find(m: Mode, s: string, kw: string): (r: int)
    requires kw != ""
    ensures -1 <= r <= |s| - |kw| || r == -1
    decreases |s|
  {
    if |s| < |kw| then -1
    else if Step(m, s[0]) == OUT && Matches(s, kw) then 0
    else Shift(1, Find(Step(m, s[0]), s[1..], kw))
  }

  /** At position i the keyword starts, outside quotes and parentheses. */
  predicate At(m: Mode, s: string, i: nat, kw: string)
    requires i < |s|
  {
    Run(m, s[..i + 1]) == OUT && Matches(s[i..], kw)
  }

  lemma AtTail(m: Mode, s: string, i: nat, kw: string)
    requires i + 1 < |s|
    ensures At(m, s, i + 1, kw) <==> At(Step(m, s[0]), s[1..], i, kw)
  {
    var a := s[..i + 2];
    assert a[1..] == s[1..][..i + 1];
    assert s[i + 1..] == s[1..][i..];
  }

  lemma AtHead(m: Mode, s: string, kw: string)
    requires s != ""
    ensures At(m, s, 0, kw) <==> (Step(m, s[0]) == OUT && Matches(s, kw))
  {
    var a := s[..1];
    assert a == [s[0]] && s[0..] == s;
    assert Run(m, a) == Run(Step(m, a[0]), a[1..]);
  }

  /** The search answers the first such position. */
  lemma {:induction false} FindIsFirst(m: Mode, s: string, kw: string)
    requires kw != ""
    ensures Find(m, s, kw) >= 0 ==> At(m, s, Find(m, s, kw), kw)
    ensures forall i :: 0 <= i < |s| && (Find(m, s, kw) < 0 || i < Find(m, s, kw)) ==> !At(m, s, i, kw)
    decreases |s|
  {
    var r := Find(m, s, kw);
    if |s| >= |kw| {
      AtHead(m, s, kw);
      var m', t := Step(m, s[0]), s[1..];
      FindIsFirst(m', t, kw);
      if r > 0 { AtTail(m, s, r - 1, kw); }
      forall i | 0 <= i < |s| && (r < 0 || i < r) ensures !At(m, s, i, kw) {
        if i > 0 { AtTail(m, s, i - 1, kw); }
      }
    }
  }

  /** The three quote flags of the scanning loops, as one mode. */
  ghost predicate Agree(m: Mode, inSingle: bool, inDouble: bool, inBack: bool, depth: nat) {
    && m.depth == depth
    && (inSingle <==> m.quote == '\'')
    && (inDouble <==> m.quote == '"')
    && (inBack <==> m.quote == '`')
    && (m.quote == NO_QUOTE || IsQuote(m.quote))
  }

  /** One round of a scanning loop: the flags and the depth after a character. */
  method Advance(c: char, single: bool, double: bool, back: bool, depth: nat, ghost m: Mode)
    returns (inSingle: bool, inDouble: bool, inBack: bool, level: nat)
    requires Agree(m, single, double, back, depth)
    ensures Agree(Step(m, c), inSingle, inDouble, inBack, level)
  {
    inSingle, inDouble, inBack, level := single, double, back, depth;
    match c {
      case '\'' => if !inDouble && !inBack { inSingle := !inSingle; }
      case '"' => if !inSingle && !inBack { inDouble := !inDouble; }
      case '`' => if !inSingle && !inDouble { inBack := !inBack; }
      case '(' => if !inSingle && !inDouble && !inBack { level := level + 1; }
      case ')' => if !inSingle && !inDouble && !inBack && level > 0 { level := level - 1; }
      case _ =>
    }
  }

  lemma SameCase(s: string, i: nat, kw: string)
    requires i + |kw| <= |s|
    ensures Upper(s)[i..i + |kw|] == Upper(kw) <==> Matches(s[i..], kw)
  {
    var u, v := Upper(s)[i..i + |kw|], Upper(kw);
    assert |u| == |v|;
    assert forall k :: 0 <= k < |kw| ==> u[k] == UpperChar(s[i..][k]) && v[k] == UpperChar(kw[k]);
  }

  method FindTopLevelKeyword(input: string, keyword: string) returns (r: int)
    requires keyword != ""
    ensures r == Find(OUT, input, keyword)
  {
    var upperInput, upperKeyword := Upper(input), Upper(keyword);
    var depth, inSingle, inDouble, inBack := 0, false, false, false;
    ghost var m := OUT;
    var index := 0;
    assert input[0..] == input;
    while index <= |input| - |keyword|
      invariant 0 <= index <= |input| || index == 0
      invariant Agree(m, inSingle, inDouble, inBack, depth)
      invariant Find(OUT, input, keyword) == Shift(index, Find(m, input[index..], keyword))
    {
      var rest := input[index..];
      SameCase(input, index, keyword);
      inSingle, inDouble, inBack, depth := Advance(input[index], inSingle, inDouble, inBack, depth, m);
      assert rest[1..] == input[index + 1..] && rest[0] == input[index];
      m := Step(m, input[index]);
      if !(inSingle || inDouble || inBack || depth != 0) && upperInput[index..index + |keyword|] == upperKeyword {
        return index;
      }
      index := index + 1;
    }
    r := -1;
  }

  // ----- comma lists

  /** The pieces between the top-level commas, white space around them removed; `piece` is what
      precedes `s` in the current piece. */
  function Pieces(m: Mode, piece: string, s: string): (r: seq<string>)
    ensures |r| > 0
    decreases |s|
  {
    if s == "" then [Trim(piece)]
    else if s[0] == ',' && m == OUT then [Trim(piece)] + Pieces(m, "", s[1..])
    else Pieces(Step(m, s[0]), piece + [s[0]], s[1..])
  }

  function Split(s: string): seq<string> { Pieces(OUT, "", s) }

  lemma PiecesStep(m: Mode, piece: string, s: string, i: nat)
    requires i < |s|
    ensures Pieces(m, piece, s[i..])
         == if s[i] == ',' && m == OUT then [Trim(piece)] + Pieces(m, "", s[i + 1..])
            else Pieces(Step(m, s[i]), piece + [s[i]], s[i + 1..])
  {
    var rest := s[i..];
    assert rest[1..] == s[i + 1..] && rest[0] == s[i];
  }

  lemma Regroup(parts: seq<string>, p: string, rest: seq<string>)
    ensures parts + ([p] + rest) == parts + [p] + rest
  {
  }

  method SplitTopLevelCSV(input: string) returns (parts: seq<string>)
    ensures parts == Split(input)
  {
    parts := [];
    var start, depth, inSingle, inDouble, inBack := 0, 0, false, false, false;
    ghost var m, piece := OUT, "";
    assert input[0..] == input;
    for index := 0 to |input|
      invariant 0 <= start <= index && piece == input[start..index]
      invariant Agree(m, inSingle, inDouble, inBack, depth)
      invariant Split(input) == parts + Pieces(m, piece, input[index..])
    {
      var c := input[index];
      PiecesStep(m, piece, input, index);
      if c == ',' && !inSingle && !inDouble && !inBack && depth == 0 {
        Regroup(parts, Trim(piece), Pieces(m, "", input[index + 1..]));
        parts := parts + [Trim(input[start..index])];
        start, piece := index + 1, "";
      } else {
        inSingle, inDouble, inBack, depth := Advance(c, inSingle, inDouble, inBack, depth, m);
        m, piece := Step(m, c), piece + [c];
      }
    }
    assert input[|input|..] == "" && piece == input[start..];
    parts := parts + [Trim(input[start..])];
  }

  // ----- matching parentheses

  /** How far it is from here to the character that brings the mode back to OUT, or -1. */
  function Closing(m: Mode, s: string): (r: int)
    ensures -1 <= r < |s| || r == -1
    decreases |s|
  {
    if s == "" then -1
    else if Step(m, s[0]) == OUT then 0
    else Shift(1, Closing(Step(m, s[0]), s[1..]))
  }

  /** The parenthesis that closes the one at `open`. */
  function MatchParen(s: string, open: int): int {
    if open < 0 || open >= |s| || s[open] != '(' then -1 else Shift(open, Closing(OUT, s[open..]))
  }

  method FindMatchingParen(input: string, openIndex: int) returns (r: int)
    ensures r == MatchParen(input, openIndex)
  {
    if openIndex < 0 || openIndex >= |input| || input[openIndex] != '(' {
      return -1;
    }
    var depth, inSingle, inDouble, inBack := 0, false, false, false;
    ghost var m := OUT;
    for index := openIndex to |input|
      invariant Agree(m, inSingle, inDouble, inBack, depth)
      invariant if index == openIndex then m == OUT else m.depth > 0
      invariant MatchParen(input, openIndex) == Shift(index, Closing(m, input[index..]))
    {
      var c := input[index];
      ghost var rest := input[index..];
      assert rest[1..] == input[index + 1..] && rest[0] == c;
      inSingle, inDouble, inBack, depth := Advance(c, inSingle, inDouble, inBack, depth, m);
      m := Step(m, c);
      if c == ')' && !inSingle && !inDouble && !inBack && depth == 0 {
        return index;
      }
    }
    r := -1;
  }
}
