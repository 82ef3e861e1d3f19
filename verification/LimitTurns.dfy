/**
 The LIMIT clause of a raw MySQL text, offset first, turned around for PostgreSQL and Oracle: what the new clause
 says, and when it says the same (internal/render/render.go:18, 1185, 1199-1228,
 internal/syntax/mysql/parser.go:171-192, internal/syntax/postgres/parser.go:177-196).
 */
module LimitTurns {
  import opened Basics
  import opened Strings
  import opened Numerals
  import opened TopLevel
  import opened TopLevelLaws
  import opened Statements
  import opened Placeholders
  import opened Readers
  import opened JoinReading
  import opened SelectReading
  import opened Rewriting
  import opened Rendering

  // ----- the pattern

  predicate Blanks(s: string) { forall i :: 0 <= i < |s| ==> IsBlank(s[i]) }

  /** Two numbers with a comma between them and white space around them. */
  function PairText(a: string, x: string, b: string, d: string, y: string, e: string): string {
    a + (x + (b + ("," + (d + (y + e)))))
  }

  /** The text is two such numbers. */
  ghost predicate IsPair(c: string, x: string, y: string) {
    exists a: string, b: string, d: string, e: string ::
      Blanks(a) && Blanks(b) && Blanks(d) && Blanks(e) && AllDigits(x) && AllDigits(y) && c == PairText(a, x, b, d, y, e)
  }

  lemma {:induction false} StretchIs(s: string, rest: string, fn: char -> bool)
    requires (forall i :: 0 <= i < |s| ==> fn(s[i])) && (rest == "" || !fn(rest[0]))
    ensures Stretch(s + rest, fn) == |s|
  {
    if s == "" {
      assert s + rest == rest;
    } else {
      assert (s + rest)[1..] == s[1..] + rest;
      StretchIs(s[1..], rest, fn);
    }
  }

  lemma FigureIs(a: string, x: string, b: string, rest: string)
    requires Blanks(a) && AllDigits(x) && Blanks(b) && (rest == "" || (!IsBlank(rest[0]) && !IsDigit(rest[0])))
    ensures Figure(a + (x + (b + rest))) == Some((x, rest))
  {
    var s, t, u := a + (x + (b + rest)), x + (b + rest), b + rest;
    assert IsDigit(x[0]) && !IsBlank(x[0]);
    StretchIs(a, t, IsBlank);
    assert s[|a|..] == t;
    assert u != "" ==> !IsDigit(u[0]) by { if b != "" { assert IsBlank(b[0]); } else { assert u == rest; } }
    StretchIs(x, u, IsDigit);
    assert t[..|x|] == x && t[|x|..] == u;
    StretchIs(b, rest, IsBlank);
    assert u[|b|..] == rest;
  }

  lemma Parts(s: string, n: nat, k: nat, j: nat)
    requires n + k + j <= |s|
    ensures s == s[..n] + (s[n..][..k] + (s[n..][k..][..j] + s[n..][k..][j..]))
  {
  }

  lemma StretchHas(s: string, fn: char -> bool)
    ensures var n := Stretch(s, fn); n <= |s| && forall i :: 0 <= i < n ==> fn(s[..n][i])
  {
  }

  lemma FigureAt(s: string, n: nat, k: nat, j: nat)
    requires Stretch(s, IsBlank) == n && Stretch(s[n..], IsDigit) == k && Stretch(s[n..][k..], IsBlank) == j
    ensures Figure(s) == if k == 0 then None else Some((s[n..][..k], s[n..][k..][j..]))
  {
  }

  lemma FigureHas(s: string, x: string, rest: string) returns (a: string, b: string)
    requires Figure(s) == Some((x, rest))
    ensures Blanks(a) && AllDigits(x) && Blanks(b) && s == a + (x + (b + rest))
  {
    var n := Stretch(s, IsBlank);
    var k := Stretch(s[n..], IsDigit);
    var j := Stretch(s[n..][k..], IsBlank);
    StretchHas(s, IsBlank);
    StretchHas(s[n..], IsDigit);
    StretchHas(s[n..][k..], IsBlank);
    FigureAt(s, n, k, j);
    a, b := s[..n], s[n..][k..][..j];
    Parts(s, n, k, j);
  }

  /** Looked into only where Asked(0) is asserted. */
  ghost predicate Read(s: string, x: string, rest: string) {
    forall z {:trigger Asked(z)} :: Asked(z) ==> Figure(s) == Some((x, rest))
  }

  lemma TwoFigures(c: string, x: string, rest: string, y: string)
    requires Read(c, x, "," + rest) && Read(rest, y, "")
    ensures FigurePair(c) == Some((x, y))
  {
    assert Asked(0);
    assert ("," + rest)[1..] == rest;
  }

  /** What the pattern matches. (Looked into only where Asked(0) is asserted.) */
  ghost predicate Finds(c: string, p: Option<(string, string)>) {
    forall z {:trigger Asked(z)} :: Asked(z) ==> FigurePair(c) == p
  }

  lemma FirstFigure(c: string, x: string, y: string) returns (r: string)
    requires Finds(c, Some((x, y)))
    ensures Read(c, x, r) && r != "" && r[0] == ','
  {
    assert Asked(0);
    r := Figure(c).value.1;
  }

  lemma SecondFigure(c: string, x: string, y: string, r: string)
    requires Finds(c, Some((x, y))) && Read(c, x, r) && r != "" && r[0] == ','
    ensures Read(r[1..], y, "")
  {
    assert Asked(0);
  }

  lemma FiguresOf(c: string, x: string, y: string) returns (rest: string)
    requires Finds(c, Some((x, y)))
    ensures Read(c, x, "," + rest) && Read(rest, y, "")
  {
    var r := FirstFigure(c, x, y);
    SecondFigure(c, x, y, r);
    rest := r[1..];
    assert r == "," + rest;
  }

  lemma ReadHas(s: string, x: string, rest: string) returns (a: string, b: string)
    requires Read(s, x, rest)
    ensures Blanks(a) && AllDigits(x) && Blanks(b) && s == a + (x + (b + rest))
  {
    assert Asked(0);
    a, b := FigureHas(s, x, rest);
  }

  lemma ReadIs(a: string, x: string, b: string, rest: string)
    requires Blanks(a) && AllDigits(x) && Blanks(b) && (rest == "" || (!IsBlank(rest[0]) && !IsDigit(rest[0])))
    ensures Read(a + (x + (b + rest)), x, rest)
  {
    FigureIs(a, x, b, rest);
  }

  /** The pattern matches such texts, */
  lemma PairMatches(c: string, x: string, y: string)
    requires IsPair(c, x, y)
    ensures FigurePair(c) == Some((x, y))
  {
    var a: string, b: string, d: string, e: string :|
      Blanks(a) && Blanks(b) && Blanks(d) && Blanks(e) && AllDigits(x) && AllDigits(y) && c == PairText(a, x, b, d, y, e);
    var rest := d + (y + e);
    ReadIs(a, x, b, "," + rest);
    assert e + "" == e;
    ReadIs(d, y, e, "");
    TwoFigures(c, x, rest, y);
  }

  lemma PairMade(a: string, x: string, b: string, d: string, y: string, e: string)
    requires Blanks(a) && Blanks(b) && Blanks(d) && Blanks(e) && AllDigits(x) && AllDigits(y)
    ensures IsPair(PairText(a, x, b, d, y, e), x, y)
  {
  }

  /** and no others. */
  lemma MatchesPair(c: string, x: string, y: string)
    requires Finds(c, Some((x, y)))
    ensures IsPair(c, x, y)
  {
    var rest := FiguresOf(c, x, y);
    var a, b := ReadHas(c, x, "," + rest);
    var d, e := ReadHas(rest, y, "");
    assert e + "" == e;
    PairMade(a, x, b, d, y, e);
  }

  lemma PairExactly(c: string, x: string, y: string)
    ensures FigurePair(c) == Some((x, y)) <==> IsPair(c, x, y)
  {
    if IsPair(c, x, y) { PairMatches(c, x, y); }
    if FigurePair(c) == Some((x, y)) { MatchesPair(c, x, y); }
  }

  lemma PairFound(c: string, x: string, y: string)
    requires IsPair(c, x, y)
    ensures Finds(c, Some((x, y)))
  {
    PairMatches(c, x, y);
  }

  lemma NothingMatched(c: string)
    requires !Turnable(c)
    ensures Finds(c, None)
  {
    if FigurePair(c).Some? { MatchesPair(c, FigurePair(c).value.0, FigurePair(c).value.1); }
  }

  // ----- what the readers make of the two clauses

  lemma {:induction false} LeftOff(a: string, s: string)
    requires Blanks(a) && s != "" && !IsSpace(s[0])
    ensures TrimLeft(a + s) == s
  {
    if a == "" {
      assert a + s == s;
    } else {
      assert IsBlank(a[0]) && (a + s)[1..] == a[1..] + s;
      LeftOff(a[1..], s);
    }
  }

  lemma {:induction false} RightOff(s: string, b: string)
    requires Blanks(b) && s != "" && !IsSpace(s[|s| - 1])
    ensures TrimRight(s + b) == s
  {
    if b == "" {
      assert s + b == s;
    } else {
      assert IsBlank(b[|b| - 1]) && (s + b)[..|s + b| - 1] == s + b[..|b| - 1];
      RightOff(s, b[..|b| - 1]);
    }
  }

  lemma BlanksOff(a: string, s: string, b: string)
    requires Blanks(a) && Blanks(b) && s != "" && Trimmed(s)
    ensures Trim(a + (s + b)) == s
  {
    assert (s + b)[0] == s[0];
    LeftOff(a, s + b);
    RightOff(s, b);
  }

  lemma DigitsShape(x: string)
    requires AllDigits(x)
    ensures Trimmed(x) && Calm(x) && CommaFree(OUT, x) && ' ' !in x && forall i :: 0 <= i < |x| ==> UpperChar(x[i]) == x[i]
  {
    PlainPiece(x);
    assert IsDigit(x[0]) && IsDigit(x[|x| - 1]);
  }

  lemma {:induction false} BlanksPass(b: string, rest: string, lead: string)
    requires Blanks(b)
    ensures Pieces(OUT, lead, b + rest) == Pieces(OUT, lead + b, rest)
    decreases |b|
  {
    if b == "" {
      assert b + rest == rest && lead + b == lead;
    } else {
      var t := b + rest;
      assert IsBlank(b[0]) && t[1..] == b[1..] + rest && t[0] == b[0];
      assert lead + [b[0]] + b[1..] == lead + b;
      BlanksPass(b[1..], rest, lead + [b[0]]);
    }
  }

  /** A number with white space around it, as a piece of a list. */
  lemma NumberPieces(a: string, x: string, b: string, rest: string)
    requires Blanks(a) && AllDigits(x) && Blanks(b)
    ensures Pieces(OUT, "", a + (x + (b + rest))) == Pieces(OUT, a + (x + b), rest)
  {
    DigitsShape(x);
    BlanksPass(a, x + (b + rest), "");
    assert "" + a == a;
    PiecesSkip(OUT, a, x, b + rest);
    BlanksPass(b, rest, a + x);
    Assoc(a, x, b);
  }

  lemma PairSplits(x: string, b: string, d: string, y: string)
    requires Blanks(b) && Blanks(d) && AllDigits(x) && AllDigits(y)
    ensures Split(x + (b + ("," + (d + y)))) == [x, y]
  {
    var tail := d + y;
    DigitsShape(x);
    DigitsShape(y);
    assert "" + (x + (b + ("," + tail))) == x + (b + ("," + tail));
    NumberPieces("", x, b, "," + tail);
    assert ("," + tail)[1..] == tail && y + ("" + "") == y;
    NumberPieces(d, y, "", "");
    assert "" + (x + b) == x + b && d + (y + "") == tail;
    BlanksOff("", x, b);
    BlanksOff(d, y, "");
  }

  lemma PairTrims(a: string, x: string, b: string, d: string, y: string, e: string)
    requires Blanks(a) && Blanks(b) && Blanks(d) && Blanks(e) && AllDigits(x) && AllDigits(y)
    ensures Trim(PairText(a, x, b, d, y, e)) == x + (b + ("," + (d + y)))
  {
    var core := x + (b + ("," + (d + y)));
    assert IsDigit(x[0]) && IsDigit(y[|y| - 1]);
    assert core[0] == x[0] && core[|core| - 1] == y[|y| - 1];
    assert PairText(a, x, b, d, y, e) == a + (core + e);
    BlanksOff(a, core, e);
  }

  /** Two numerals as offset and count, unless one is too large. */
  function Counted(offset: string, count: string): Outcome<Limit> {
    match (Atoi(offset), Atoi(count))
    case (Some(m), Some(n)) => Ok(Limit(Some(m), n))
    case _ => Failed
  }

  /** The MySQL reader takes the first number for the offset and the second one for the count. */
  lemma PairRead(c: string, x: string, y: string)
    requires IsPair(c, x, y)
    ensures MySqlLimit(c) == Counted(x, y)
  {
    var a: string, b: string, d: string, e: string :|
      Blanks(a) && Blanks(b) && Blanks(d) && Blanks(e) && AllDigits(x) && AllDigits(y) && c == PairText(a, x, b, d, y, e);
    PairTrims(a, x, b, d, y, e);
    PairSplits(x, b, d, y);
    DigitsShape(x);
    DigitsShape(y);
    TrimTrimmed(x);
    TrimTrimmed(y);
  }

  /** The PostgreSQL reader takes the first number for the count and the second one for the offset. */
  lemma TurnedRead(x: string, y: string)
    requires AllDigits(x) && AllDigits(y)
    ensures PostgresLimit(y + (OFFSET + x)) == Counted(x, y)
  {
    var t := y + (OFFSET + x);
    DigitsShape(x);
    DigitsShape(y);
    OffsetPlace(y, x);
    Middle(y, OFFSET, x);
    TrimTrimmed(x);
    TrimTrimmed(y);
  }

  // ----- the rewritten text

  /** Whether the clause is a pair of numbers without signs: what a caller can look for. */
  ghost predicate Turnable(c: string) { exists x: string, y: string :: IsPair(c, x, y) }

  /** The text up to the LIMIT clause, which is where the search finds the word. */
  function BeforeLimit(s: string): string
    requires 0 <= LimitAt(s)
  {
    s[..LimitAt(s)]
  }

  lemma PairOf(s: string, p: (string, string), to: Dialect)
    requires LimitAt(s) >= 0 && Finds(LimitClause(s), Some(p)) && (to == Postgres || to == Oracle)
    ensures LimitPair(s, to) == Some(p)
  {
    assert Asked(0);
  }

  lemma TextOf(s: string, p: (string, string), to: Dialect)
    requires 0 <= LimitAt(s) <= |s| && LimitPair(s, to) == Some(p)
    ensures OffsetLast(s, to) == Trim(s[..LimitAt(s)]) + LimitTail(p.0, p.1, to)
  {
  }

  /** The text is cut before its LIMIT, and the clause turned around. */
  lemma TurnedText(s: string, x: string, y: string, to: Dialect)
    requires LimitAt(s) >= 0 && Finds(LimitClause(s), Some((x, y))) && (to == Postgres || to == Oracle)
    ensures OffsetLast(s, to) == Trim(BeforeLimit(s)) + LimitTail(x, y, to)
  {
    PairOf(s, (x, y), to);
    TextOf(s, (x, y), to);
  }

  lemma TailWritten(x: string, y: string)
    ensures LimitTail(x, y, Postgres) == LIMIT + (y + (OFFSET + x))
    ensures Skips(LimitTail(x, y, Oracle), x, y)
  {
  }

  /** For PostgreSQL, the new clause is read as the old one was. */
  lemma PostgresTurned(s: string, x: string, y: string)
    requires LimitAt(s) >= 0 && IsPair(LimitClause(s), x, y)
    ensures OffsetLast(s, Postgres) == Trim(BeforeLimit(s)) + (LIMIT + (y + (OFFSET + x)))
    ensures PostgresLimit(y + (OFFSET + x)) == MySqlLimit(LimitClause(s)) == Counted(x, y)
  {
    var c := LimitClause(s);
    PairFound(c, x, y);
    TurnedText(s, x, y, Postgres);
    TailWritten(x, y);
    PairRead(c, x, y);
    PairDigits(c, x, y);
    TurnedRead(x, y);
  }

  lemma PairDigits(c: string, x: string, y: string)
    requires IsPair(c, x, y)
    ensures AllDigits(x) && AllDigits(y)
  {
  }

  /** The clauses of Oracle: so many rows are skipped, and so many fetched. */
  predicate Skips(tail: string, offset: string, count: string) {
    tail == " OFFSET " + offset + " ROWS FETCH NEXT " + count + " ROWS ONLY"
  }

  predicate Fetches(tail: string, count: string) { tail == " FETCH FIRST " + count + " ROWS ONLY" }

  /** For Oracle, as many rows are skipped as the old clause says, and as many fetched. */
  lemma OracleTurned(s: string, m: int, n: int)
    requires LimitAt(s) >= 0 && MySqlLimit(LimitClause(s)) == Ok(Limit(Some(m), n)) && Turnable(LimitClause(s))
    ensures exists tail: string, x: string, y: string ::
      OffsetLast(s, Oracle) == Trim(BeforeLimit(s)) + tail && Skips(tail, x, y) && Atoi(x) == Some(m) && Atoi(y) == Some(n)
  {
    var x: string, y: string :| IsPair(LimitClause(s), x, y);
    PairFound(LimitClause(s), x, y);
    PairRead(LimitClause(s), x, y);
    TurnedText(s, x, y, Oracle);
    TailWritten(x, y);
    CountedParts(x, y, m, n);
    var tail := LimitTail(x, y, Oracle);
    assert Skips(tail, x, y);
  }

  lemma CountedParts(x: string, y: string, m: int, n: int)
    requires Counted(x, y) == Ok(Limit(Some(m), n))
    ensures Atoi(x) == Some(m) && Atoi(y) == Some(n)
  {
  }

  /** A limit that was parsed is written for Oracle alike. */
  lemma OracleLimit(l: Limit)
    ensures var tail := LimitText(Some(l), Oracle);
      if l.offset.Some? then Skips(tail, Itoa(l.offset.value), Itoa(l.count)) else Fetches(tail, Itoa(l.count))
  {
  }

  /** Without a pair, or for a dialect that has it in the same order, the text keeps its clause. */
  lemma OthersKept(s: string, to: Dialect)
    requires LimitAt(s) < 0 || !Turnable(LimitClause(s)) || (to != Postgres && to != Oracle)
    ensures OffsetLast(s, to) == s
  {
    if (to == Postgres || to == Oracle) && LimitAt(s) >= 0 {
      NothingMatched(LimitClause(s));
      KeptText(s, to);
    }
  }

  lemma KeptText(s: string, to: Dialect)
    requires Finds(LimitClause(s), None)
    ensures OffsetLast(s, to) == s
  {
    assert Asked(0);
  }

  // ----- where the new clause is found

  lemma {:induction false} BlankModes(m: Mode, s: string)
    requires (forall i :: 0 <= i < |s| ==> IsSpace(s[i])) && (m.quote == NO_QUOTE || IsQuote(m.quote))
    ensures Run(m, s) == m
  {
    if s != "" {
      assert IsSpace(s[0]);
      BlankModes(m, s[1..]);
    }
  }

  lemma {:induction false} LeftCut(s: string)
    ensures var t := TrimLeft(s); |t| <= |s| && s == s[..|s| - |t|] + t && forall i :: 0 <= i < |s| - |t| ==> IsSpace(s[i])
  {
    if s != "" && IsSpace(s[0]) {
      LeftCut(s[1..]);
      var t := TrimLeft(s);
      forall i | 0 <= i < |s| - |t| ensures IsSpace(s[i]) { if i > 0 { assert s[1..][i - 1] == s[i]; } }
      TrimLeftIs(s);
    }
  }

  lemma {:induction false} RightCut(s: string)
    ensures var t := TrimRight(s); t <= s && forall i :: |t| <= i < |s| ==> IsSpace(s[i])
  {
    if s != "" && IsSpace(s[|s| - 1]) { RightCut(s[..|s| - 1]); }
  }

  /** A text is its trimmed text with white space on both sides. */
  lemma TrimmedParts(s: string) returns (a: string, b: string)
    ensures s == a + (Trim(s) + b) && (forall i :: 0 <= i < |a| ==> IsSpace(a[i])) && (forall i :: 0 <= i < |b| ==> IsSpace(b[i]))
  {
    LeftCut(s);
    var t := TrimLeft(s);
    RightCut(t);
    a, b := s[..|s| - |t|], t[|Trim(s)|..];
    assert t == Trim(s) + b;
  }

  lemma {:induction false} FoundIsQuiet(m: Mode, p: string, rest: string, kw: string)
    requires kw != "" && Find(m, p + rest, kw) == |p|
    ensures Quiet(m, p, rest, kw)
    decreases |p|
  {
    if p != "" {
      var t := p + rest;
      assert t[1..] == p[1..] + rest;
      FoundIsQuiet(Step(m, p[0]), p[1..], rest, kw);
    }
  }

  const LIMIT_END := " LIMIT"

  lemma MatchMoves(p: string, rest: string, other: string)
    requires p != "" && !EndsWith(p, LIMIT_END) && Matches(p + other, LIMIT) && other != "" && other[0] == ' '
    ensures Matches(p + rest, LIMIT)
  {
    var t, u := p + other, p + rest;
    if |p| < |LIMIT| {
      assert UpperChar(t[|p|]) == UpperChar(LIMIT[|p|]);
      assert |p| == 6;
      forall i | 0 <= i < 6 ensures UpperChar(p[0..][i]) == UpperChar(LIMIT_END[i]) { assert UpperChar(t[i]) == UpperChar(LIMIT[i]); }
      assert false;
    } else {
      forall i | 0 <= i < |LIMIT| ensures UpperChar(u[i]) == UpperChar(LIMIT[i]) { assert UpperChar(t[i]) == UpperChar(LIMIT[i]); }
    }
  }

  /** A prefix that does not end in the word LIMIT is as quiet before another space. */
  lemma {:induction false} QuietMoves(m: Mode, p: string, rest: string, other: string)
    requires !EndsWith(p, LIMIT_END) && other != "" && other[0] == ' ' && Quiet(m, p, rest, LIMIT)
    ensures Quiet(m, p, other, LIMIT)
    decreases |p|
  {
    if p != "" {
      if Matches(p + other, LIMIT) { MatchMoves(p, rest, other); }
      if EndsWith(p[1..], LIMIT_END) { EndsLonger(p, LIMIT_END); }
      QuietMoves(Step(m, p[0]), p[1..], rest, other);
    }
  }

  lemma LimitIsOut(s: string)
    requires LimitAt(s) >= 0
    ensures Run(OUT, BeforeLimit(s)) == OUT && LimitAt(s) + |LIMIT| <= |s|
  {
    var n := LimitAt(s);
    FindIsFirst(OUT, s, LIMIT);
    assert s[..n + 1] == s[..n] + [s[n]];
    assert UpperChar(s[n..][0]) == ' ';
    RunAppend(OUT, s[..n], [s[n]]);
    ModeKept(OUT, s[..n]);
    SpaceRun(Run(OUT, s[..n]), s[n]);
  }

  lemma SpaceRun(m: Mode, c: char)
    requires UpperChar(c) == ' ' && Run(m, [c]) == OUT && (m.quote == NO_QUOTE || IsQuote(m.quote))
    ensures m == OUT
  {
    assert [c][1..] == "" && Run(m, [c]) == Run(Step(m, c), "");
  }

  lemma TrimmedIsQuiet(s: string, other: string)
    requires LimitAt(s) >= 0 && other != "" && other[0] == ' ' && !EndsWith(Trim(BeforeLimit(s)), LIMIT_END)
    ensures Quiet(OUT, Trim(BeforeLimit(s)), other, LIMIT) && Run(OUT, Trim(BeforeLimit(s))) == OUT
  {
    var p, rest := BeforeLimit(s), s[LimitAt(s)..];
    var x := Trim(p);
    assert s == p + rest;
    LimitIsOut(s);
    FoundIsQuiet(OUT, p, rest, LIMIT);
    var a, b := TrimmedParts(p);
    QuietAppend(OUT, a, x + b, rest, LIMIT);
    BlankModes(OUT, a);
    QuietAppend(OUT, x, b, rest, LIMIT);
    RunAppend(OUT, a, x + b);
    RunAppend(OUT, x, b);
    ModeKept(OUT, x);
    BlankModes(Run(OUT, x), b);
    QuietMoves(OUT, x, b + rest, other);
  }

  lemma {:induction false} ModeKept(m: Mode, s: string)
    requires m.quote == NO_QUOTE || IsQuote(m.quote)
    ensures Run(m, s).quote == NO_QUOTE || IsQuote(Run(m, s).quote)
    decreases |s|
  {
    if s != "" { ModeKept(Step(m, s[0]), s[1..]); }
  }

  /** The new clause is where the search finds a LIMIT in the rewritten text. */
  lemma TurnedFound(s: string, x: string, y: string)
    requires LimitAt(s) >= 0 && AllDigits(x) && AllDigits(y) && !EndsWith(Trim(BeforeLimit(s)), LIMIT_END)
    ensures var c := y + (OFFSET + x);
      LimitAt(Trim(BeforeLimit(s)) + (LIMIT + c)) >= 0 && LimitClause(Trim(BeforeLimit(s)) + (LIMIT + c)) == c
  {
    var p, c := Trim(BeforeLimit(s)), y + (OFFSET + x);
    TrimmedIsQuiet(s, LIMIT + c);
    DigitsShape(x);
    DigitsShape(y);
    TrimmedAround(y, OFFSET, x);
    ClauseFound(p, c);
  }

  lemma ClauseFound(p: string, c: string)
    requires Quiet(OUT, p, LIMIT + c, LIMIT) && Run(OUT, p) == OUT && Trim(c) == c
    ensures LimitAt(p + (LIMIT + c)) >= 0 && LimitClause(p + (LIMIT + c)) == c
  {
    SkipPrefix(OUT, p, LIMIT + c, LIMIT);
    FoundHere(LIMIT, c);
    Halves(p, LIMIT, c);
  }

  // ----- clauses that are no pair

  /** The characters of a list are white space, commas and those of its pieces. */
  predicate Within(s: string, ps: seq<string>) {
    forall i :: 0 <= i < |s| ==> IsSpace(s[i]) || s[i] == ',' || exists k :: 0 <= k < |ps| && s[i] in ps[k]
  }

  lemma TrimWithin(s: string)
    ensures Within(s, [Trim(s)])
  {
    var a, b := TrimmedParts(s);
    var t := Trim(s);
    assert [t][0] == t;
    forall i | 0 <= i < |s| ensures IsSpace(s[i]) || s[i] in t {
      if |a| <= i < |a| + |t| { assert s[i] == t[i - |a|]; } else if i >= |a| + |t| { assert s[i] == b[i - |a| - |t|]; }
    }
  }

  lemma WithinMore(s: string, t: string, p: seq<string>, ps: seq<string>)
    requires Within(s, p) && Within(t, ps)
    ensures Within(s + ("," + t), p + ps)
  {
    var u := s + ("," + t);
    forall i | 0 <= i < |u| ensures IsSpace(u[i]) || u[i] == ',' || exists k :: 0 <= k < |p + ps| && u[i] in (p + ps)[k] {
      if i < |s| {
        assert u[i] == s[i];
        if k :| 0 <= k < |p| && s[i] in p[k] { assert s[i] in (p + ps)[k]; }
      } else if i > |s| {
        var j := i - |s| - 1;
        assert u[i] == t[j];
        if k :| 0 <= k < |ps| && t[j] in ps[k] { assert t[j] in (p + ps)[|p| + k]; }
      }
    }
  }

  lemma CommaWithin(piece: string, s: string, ps: seq<string>)
    requires s != "" && s[0] == ',' && Within("" + s[1..], ps)
    ensures Within(piece + s, [Trim(piece)] + ps)
  {
    TrimWithin(piece);
    assert "" + s[1..] == s[1..] && s == "," + s[1..];
    WithinMore(piece, s[1..], [Trim(piece)], ps);
  }

  lemma {:induction false} PiecesWithin(m: Mode, piece: string, s: string)
    ensures Within(piece + s, Pieces(m, piece, s))
    decreases |s|
  {
    if s == "" {
      TrimWithin(piece);
      assert piece + s == piece;
    } else if s[0] == ',' && m == OUT {
      PiecesWithin(m, "", s[1..]);
      CommaWithin(piece, s, Pieces(m, "", s[1..]));
    } else {
      PiecesWithin(Step(m, s[0]), piece + [s[0]], s[1..]);
      assert piece + [s[0]] + s[1..] == piece + s;
    }
  }

  predicate Figures(p: string) { forall i :: 0 <= i < |p| ==> IsDigit(p[i]) || p[i] == '-' || p[i] == '+' || IsSpace(p[i]) }

  lemma NumberFigures(p: string)
    requires ReadNumber(p).Ok?
    ensures Figures(p)
  {
    var a, b := TrimmedParts(p);
    var t := Trim(p);
    forall i | 0 <= i < |p| ensures IsDigit(p[i]) || p[i] == '-' || p[i] == '+' || IsSpace(p[i]) {
      if |a| <= i < |a| + |t| {
        assert p[i] == t[i - |a|];
        assert i > |a| ==> t[i - |a|] == t[1..][i - |a| - 1];
      } else if i >= |a| + |t| {
        assert p[i] == b[i - |a| - |t|];
      }
    }
  }

  /** A clause that the MySQL reader takes holds no letter. */
  lemma NoLetter(c: string, c': char)
    requires MySqlLimit(c).Ok? && 'A' <= c' <= 'Z'
    ensures c' !in Upper(Trim(c))
  {
    var t, ps := Trim(c), Split(Trim(c));
    PiecesWithin(OUT, "", t);
    assert "" + t == t;
    NumberFigures(ps[0]);
    if |ps| == 2 { NumberFigures(ps[1]); }
    forall i | 0 <= i < |t| ensures UpperChar(t[i]) != c' {
      if k :| 0 <= k < |ps| && t[i] in ps[k] { assert Figures(ps[k]); }
    }
    assert forall i :: 0 <= i < |t| ==> Upper(t)[i] == UpperChar(t[i]);
  }

  lemma {:induction false} NotThere(s: string, w: string, j: nat)
    requires j < |w| && w[j] !in s
    ensures IndexOf(s, w) < 0
  {
    if |s| >= |w| {
      assert s[..|w|][j] == s[j];
      NotThere(s[1..], w, j);
    }
  }

  /** Read by the PostgreSQL reader, such a clause has no offset. */
  lemma NoOffset(c: string, l: Limit)
    requires MySqlLimit(c).Ok? && PostgresLimit(c) == Ok(l)
    ensures l.offset.None?
  {
    NoLetter(c, 'O');
    NotThere(Upper(Trim(c)), OFFSET, 1);
  }

  /**
   A LIMIT clause with an offset says the same after the rewriting exactly when it is a pair of numbers without
   signs. (White space that is trimmed before it must not uncover another word LIMIT.)
   */
  lemma TurnedExactly(s: string, m: int, n: int)
    requires LimitAt(s) >= 0 && MySqlLimit(LimitClause(s)) == Ok(Limit(Some(m), n)) && !EndsWith(Trim(BeforeLimit(s)), LIMIT_END)
    ensures PostgresLimit(LimitClause(OffsetLast(s, Postgres))) == Ok(Limit(Some(m), n)) <==> Turnable(LimitClause(s))
  {
    if Turnable(LimitClause(s)) {
      var x: string, y: string :| IsPair(LimitClause(s), x, y);
      PostgresTurned(s, x, y);
      TurnedFound(s, x, y);
    } else {
      OthersKept(s, Postgres);
      if PostgresLimit(LimitClause(s)) == Ok(Limit(Some(m), n)) { NoOffset(LimitClause(s), Limit(Some(m), n)); }
    }
  }

  const SIGNED := "+2, 3"

  /** A pair starts with white space or a digit. */
  lemma NoTurn(c: string)
    requires c != "" && !IsBlank(c[0]) && !IsDigit(c[0])
    ensures !Turnable(c)
  {
  }

  /** A sign is read, but not turned around. */
  lemma SignStays(p: string)
    requires Run(OUT, p) == OUT && Quiet(OUT, p, LIMIT + SIGNED, LIMIT)
    ensures MySqlLimit(LimitClause(p + (LIMIT + SIGNED))) == Ok(Limit(Some(2), 3))
    ensures OffsetLast(p + (LIMIT + SIGNED), Postgres) == p + (LIMIT + SIGNED)
  {
    SignRead();
    NoTurn(SIGNED);
    TrimTrimmed(SIGNED);
    ClauseFound(p, SIGNED);
    OthersKept(p + (LIMIT + SIGNED), Postgres);
  }

  lemma SignRead()
    ensures MySqlLimit("+2, 3") == Ok(Limit(Some(2), 3))
  {
    var ps := ["+2", "3"];
    SignedPiece("+2");
    SignedPiece("3");
    assert ps[1..] == ["3"];
    assert CommaList(ps) == "+2, 3";
    SplitList(ps, "");
    TrimTrimmed("+2, 3");
    TrimTrimmed("+2");
    TrimTrimmed("3");
    assert "+2"[1..] == "2" && "2"[..0] == "" && "3"[..0] == "";
    assert Value("") == 0 && Value("2") == 2 && Value("3") == 3;
  }

  lemma SignedPiece(p: string)
    requires p == "+2" || p == "3"
    ensures Piece(p)
  {
    SignedCalm("");
    if p == "+2" {
      assert p[1..] == "2" && "2"[1..] == "";
      SignedCalm("2");
    } else {
      assert p[1..] == "";
    }
  }

  lemma SignedCalm(rest: string)
    requires Calm(rest) && CommaFree(OUT, rest)
    ensures Calm("+" + rest) && CommaFree(OUT, "+" + rest) && Calm("3" + rest) && CommaFree(OUT, "3" + rest)
    ensures Calm("2" + rest) && CommaFree(OUT, "2" + rest)
  {
    assert ("+" + rest)[1..] == rest && ("3" + rest)[1..] == rest && ("2" + rest)[1..] == rest;
  }

  // ----- the other patterns leave the clause alone

  /** None of the characters that the other patterns are made of. */
  predicate Unpatterned(t: string) { forall i :: 0 <= i < |t| ==> t[i] != '`' && t[i] != '\'' && t[i] != '(' && t[i] != ')' && t[i] != '?' }

  lemma NoPairAfter(head: string, tail: string, mark: char)
    requires mark !in tail && FirstPair(head, mark) == NoPair
    ensures FirstPair(head + tail, mark) == NoPair
  {
    var p := FirstPair(head + tail, mark);
    if p.Pair? { PairBefore(p.before, p.inside, p.after, head, tail, mark); }
  }

  /** The second mark of a pair is in the head. */
  lemma PairBefore(a: string, c: string, r: string, head: string, tail: string, mark: char)
    requires mark !in tail && mark !in a && mark !in c && head + tail == Spelled(a, c, r, mark)
    ensures FirstPair(head, mark) != NoPair
  {
    var s, n := head + tail, |a| + 1 + |c|;
    assert s[n] == mark;
    assert forall j :: |head| <= j < |s| ==> s[j] in tail;
    assert head == Spelled(a, c, head[n + 1..], mark) by {
      assert head == s[..|head|] && s == a + [mark] + c + [mark] + r;
    }
    PairIs(a, c, head[n + 1..], mark);
  }

  lemma {:induction false} RequotedTail(head: string, tail: string, mark: char, to: Dialect)
    requires mark !in tail
    ensures Requoted(head + tail, mark, to) == Requoted(head, mark, to) + tail
    decreases |head|
  {
    match FirstPair(head, mark)
    case NoPair => NoPairAfter(head, tail, mark);
    case Pair(a, c, r) =>
      SpelledTail(a, c, r, tail, mark);
      RequotedPair(a, c, r + tail, mark, to);
      RequotedTail(r, tail, mark, to);
      Assoc(Quoted(c, QuoteMark(to)), Requoted(r, mark, to), tail);
      Assoc(a, Quoted(c, QuoteMark(to)) + Requoted(r, mark, to), tail);
  }

  lemma SpelledTail(a: string, c: string, r: string, tail: string, mark: char)
    ensures Spelled(a, c, r, mark) + tail == Spelled(a, c, r + tail, mark)
  {
  }

  lemma WordInHead(head: string, tail: string, word: string)
    requires word != "" && word[|word| - 1] !in tail
    ensures word <= head + tail <==> word <= head
  {
    var s, n := head + tail, |word| - 1;
    assert forall j :: |head| <= j < |s| ==> s[j] in tail;
    if word <= s { assert word[n] == s[n]; }
    if word <= s && |word| <= |head| { assert head[..|word|] == s[..|word|] == word; }
  }

  lemma {:induction false} ReplacedTail(head: string, tail: string, word: string, put: string)
    requires word != "" && word[|word| - 1] !in tail
    ensures Replaced(head + tail, word, put) == Replaced(head, word, put) + tail
    decreases |head|
  {
    var s := head + tail;
    if head == "" {
      assert s == tail;
      NotReplaced(tail, word, put);
      assert "" + tail == tail;
    } else if word <= head {
      WordInHead(head, tail, word);
      assert s[|word|..] == head[|word|..] + tail;
      ReplacedTail(head[|word|..], tail, word, put);
      Assoc(put, Replaced(head[|word|..], word, put), tail);
    } else {
      WordInHead(head, tail, word);
      assert s[1..] == head[1..] + tail;
      ReplacedTail(head[1..], tail, word, put);
      ReplacedNext(head, word, put);
      ReplacedNext(s, word, put);
      Assoc([head[0]], Replaced(head[1..], word, put), tail);
    }
  }

  lemma {:induction false} NotReplaced(s: string, word: string, put: string)
    requires word != "" && word[|word| - 1] !in s
    ensures Replaced(s, word, put) == s
    decreases |s|
  {
    if |s| >= |word| {
      assert s[|word| - 1] != word[|word| - 1];
      NotReplaced(s[1..], word, put);
    }
  }

  lemma {:induction false} StretchTail(head: string, tail: string, fn: char -> bool)
    ensures var n := Stretch(head, fn); Stretch(head + tail, fn) == if n < |head| then n else n + Stretch(tail, fn)
  {
    if head == "" {
      assert head + tail == tail;
    } else {
      assert (head + tail)[1..] == head[1..] + tail;
      StretchTail(head[1..], tail, fn);
    }
  }

  lemma BlankQuoteTail(head: string, tail: string)
    requires '\'' !in tail
    ensures BlankQuote(head + tail) == BlankQuote(head)
  {
    StretchTail(head, tail, IsBlank);
    var s, n := head + tail, Stretch(head + tail, IsBlank);
    if |head| <= n < |s| { assert s[n] == tail[n - |head|]; }
  }

  lemma NameQuoteAt(s: string, n: nat, m: nat)
    requires Stretch(s, IsAlnum) == n && BlankQuote(s[n..]) == m
    ensures NameQuote(s) == if n == 0 || m == 0 then 0 else n + m
  {
  }

  lemma NameQuoteTail(head: string, tail: string)
    requires '\'' !in tail
    ensures NameQuote(head + tail) == NameQuote(head)
  {
    var s, n := head + tail, Stretch(head, IsAlnum);
    StretchTail(head, tail, IsAlnum);
    NameQuoteAt(head, n, BlankQuote(head[n..]));
    if n < |head| {
      assert s[n..] == head[n..] + tail;
      BlankQuoteTail(head[n..], tail);
      NameQuoteAt(s, n, BlankQuote(head[n..]));
    } else {
      NameAtEnd(head, tail, n, Stretch(tail, IsAlnum));
    }
  }

  lemma NameAtEnd(head: string, tail: string, n: nat, k: nat)
    requires '\'' !in tail && n == |head| && k <= |tail| && Stretch(head + tail, IsAlnum) == n + k && Stretch(head, IsAlnum) == n
    ensures NameQuote(head + tail) == 0 == NameQuote(head)
  {
    var rest := tail[k..];
    assert (head + tail)[n + k..] == rest && "" + rest == rest && head[n..] == "";
    BlankQuoteTail("", rest);
    NameQuoteAt(head + tail, n + k, 0);
    NameQuoteAt(head, n, 0);
  }

  lemma IntroducerTail(head: string, tail: string)
    requires head != "" && '\'' !in tail
    ensures Introducer(head + tail) == Introducer(head)
  {
    assert (head + tail)[1..] == head[1..] + tail;
    NameQuoteTail(head[1..], tail);
  }

  lemma {:induction false} NotUnintroduced(s: string)
    requires '\'' !in s
    ensures Unintroduced(s) == s
  {
    if s != "" {
      NoQuoteName(s[1..]);
      NotUnintroduced(s[1..]);
    }
  }

  lemma NoQuoteName(s: string)
    requires '\'' !in s
    ensures NameQuote(s) == 0
  {
    NameQuoteTail("", s);
    assert "" + s == s;
  }

  /** One step of the pattern, with the tail and without. */
  lemma StepTail(head: string, tail: string) returns (n: nat, put: string)
    requires head != "" && '\'' !in tail
    ensures 0 < n <= |head| && Unintroduced(head) == put + Unintroduced(head[n..])
    ensures Unintroduced(head + tail) == put + Unintroduced(head[n..] + tail)
  {
    var i := Introducer(head);
    IntroducerTail(head, tail);
    n, put := if i > 0 then i else 1, if i > 0 then "'" else [head[0]];
    assert (head + tail)[n..] == head[n..] + tail && (head + tail)[0] == head[0];
    StepBy(head + tail, i, n, put);
    StepBy(head, i, n, put);
  }

  lemma StepBy(s: string, i: nat, n: nat, put: string)
    requires s != "" && Introducer(s) == i && n == (if i > 0 then i else 1) && put == if i > 0 then "'" else [s[0]]
    ensures n <= |s| && Unintroduced(s) == put + Unintroduced(s[n..])
  {
  }

  lemma {:induction false} UnintroducedTail(head: string, tail: string)
    requires '\'' !in tail
    ensures Unintroduced(head + tail) == Unintroduced(head) + tail
    decreases |head|
  {
    if head == "" {
      assert "" + tail == tail;
      NotUnintroduced(tail);
    } else {
      var n, put := StepTail(head, tail);
      UnintroducedTail(head[n..], tail);
      Assoc(put, Unintroduced(head[n..]), tail);
    }
  }

  lemma WordedTail(head: string, tail: string)
    requires '(' !in tail && ')' !in tail
    ensures Worded(head + tail) == Worded(head) + tail
  {
    var a := Replaced(head, NOW, STAMP);
    var b := Replaced(a, STAMP_CALL, STAMP);
    ReplacedTail(head, tail, NOW, STAMP);
    ReplacedTail(a, tail, STAMP_CALL, STAMP);
    ReplacedTail(b, tail, KEY, KEY_SPACED);
  }

  /** What follows the last character of a pattern is kept as it is. */
  lemma PatternsTail(head: string, tail: string, to: Dialect)
    requires Unpatterned(tail)
    ensures MySqlPatterns(head + tail, to) == MySqlPatterns(head, to) + tail
  {
    var a := Requoted(head, '`', to);
    RequotedTail(head, tail, '`', to);
    UnintroducedTail(a, tail);
    WordedTail(Unintroduced(a), tail);
  }

  lemma PairPlain(c: string, x: string, y: string)
    requires IsPair(c, x, y)
    ensures Unpatterned(LIMIT + c)
  {
    var a: string, b: string, d: string, e: string :|
      Blanks(a) && Blanks(b) && Blanks(d) && Blanks(e) && AllDigits(x) && AllDigits(y) && c == PairText(a, x, b, d, y, e);
    PlainParts(a, x);
    PlainParts(b, y);
    PlainParts(d, x);
    PlainParts(e, y);
    PlainAppend(y, e);
    PlainAppend(d, y + e);
    PlainAppend(",", d + (y + e));
    PlainAppend(b, "," + (d + (y + e)));
    PlainAppend(x, b + ("," + (d + (y + e))));
    PlainAppend(a, x + (b + ("," + (d + (y + e)))));
    PlainAppend(LIMIT, c);
  }

  lemma PlainParts(a: string, x: string)
    requires Blanks(a) && AllDigits(x)
    ensures Unpatterned(a) && Unpatterned(x)
  {
    assert forall i :: 0 <= i < |x| ==> IsDigit(x[i]);
  }

  lemma PlainAppend(a: string, b: string)
    requires Unpatterned(a) && Unpatterned(b)
    ensures Unpatterned(a + b)
  {
  }

  lemma CoreText(x: string, b: string, d: string, y: string)
    ensures PairText("", x, b, d, y, "") == x + (b + ("," + (d + y)))
  {
    assert y + "" == y;
  }

  lemma PairTrimmed(c: string, x: string, y: string)
    requires IsPair(c, x, y)
    ensures IsPair(Trim(c), x, y)
  {
    var a: string, b: string, d: string, e: string :|
      Blanks(a) && Blanks(b) && Blanks(d) && Blanks(e) && AllDigits(x) && AllDigits(y) && c == PairText(a, x, b, d, y, e);
    PairTrims(a, x, b, d, y, e);
    CoreText(x, b, d, y);
    PairMade("", x, b, d, y, "");
  }

  // ----- the whole rewriting

  /** The LIMIT of the text is the one behind the head, once the other patterns have been applied. */
  predicate LimitBehind(head: string, c: string, to: Dialect) {
    LimitAt(MySqlPatterns(head, to) + (LIMIT + c)) == |MySqlPatterns(head, to)|
  }

  lemma HeadThenPair(h: string, c: string, x: string, y: string, to: Dialect)
    requires IsPair(c, x, y) && LimitAt(h + (LIMIT + c)) == |h| && (to == Postgres || to == Oracle)
    ensures OffsetLast(h + (LIMIT + c), to) == Trim(h) + LimitTail(x, y, to)
  {
    var s := h + (LIMIT + c);
    Halves(h, LIMIT, c);
    PairTrimmed(c, x, y);
    PairFound(Trim(c), x, y);
    TurnedText(s, x, y, to);
  }

  /** A raw text that ends in a LIMIT clause with two numbers, rewritten. */
  lemma FromMySqlTurned(head: string, c: string, x: string, y: string, to: Dialect)
    requires IsPair(c, x, y) && LimitBehind(head, c, to) && (to == Postgres || to == Oracle)
    ensures FromMySql(head + (LIMIT + c), to) == Trim(MySqlPatterns(head, to)) + LimitTail(x, y, to)
  {
    PairPlain(c, x, y);
    PatternsTail(head, LIMIT + c, to);
    HeadThenPair(MySqlPatterns(head, to), c, x, y, to);
  }

  lemma NumberedTail(head: string, tail: string, k: nat, mark: char)
    requires '?' !in tail
    ensures Numbered(head + tail, k, mark) == Numbered(head, k, mark) + tail
  {
    NumberedAppend(head, tail, k, mark);
    NumberedNone(tail, k + Questions(head), mark);
  }

  lemma {:induction false} NumberedNone(s: string, k: nat, mark: char)
    requires '?' !in s
    ensures Numbered(s, k, mark) == s
  {
    if s != "" { NumberedNone(s[1..], k, mark); }
  }

  /** Written for PostgreSQL, a raw MySQL text that ends in a LIMIT clause with two numbers ends in one that is read
      the same, behind the head with its placeholders numbered. */
  lemma RawForPostgres(input: string, head: string, c: string, x: string, y: string, k: nat)
    requires Trim(input) == head + (LIMIT + c) && IsPair(c, x, y) && LimitBehind(head, c, Postgres)
    ensures Treated(input, TreatmentOf(MySql, Postgres), k)
         == Numbered(Trim(MySqlPatterns(head, Postgres)), k, '$') + (LIMIT + (y + (OFFSET + x)))
    ensures PostgresLimit(y + (OFFSET + x)) == MySqlLimit(c) == Counted(x, y)
  {
    FromMySqlTurned(head, c, x, y, Postgres);
    PairDigits(c, x, y);
    NoQuestion(x, y);
    TailWritten(x, y);
    NumberedTail(Trim(MySqlPatterns(head, Postgres)), LimitTail(x, y, Postgres), k, '$');
    PairRead(c, x, y);
    TurnedRead(x, y);
  }

  /** Written for Oracle, it skips and fetches as many rows. */
  lemma RawForOracle(input: string, head: string, c: string, x: string, y: string, k: nat)
    requires Trim(input) == head + (LIMIT + c) && IsPair(c, x, y) && LimitBehind(head, c, Oracle)
    ensures exists tail: string ::
      Skips(tail, x, y) && Treated(input, TreatmentOf(MySql, Oracle), k) == Numbered(Trim(MySqlPatterns(head, Oracle)), k, ':') + tail
    ensures MySqlLimit(c) == Counted(x, y)
  {
    FromMySqlTurned(head, c, x, y, Oracle);
    PairDigits(c, x, y);
    NoQuestion(x, y);
    TailWritten(x, y);
    NumberedTail(Trim(MySqlPatterns(head, Oracle)), LimitTail(x, y, Oracle), k, ':');
    PairRead(c, x, y);
  }

  lemma NoQuestion(x: string, y: string)
    requires AllDigits(x) && AllDigits(y)
    ensures '?' !in LimitTail(x, y, Postgres) && '?' !in LimitTail(x, y, Oracle)
  {
    assert '?' !in x && '?' !in y;
  }
}
