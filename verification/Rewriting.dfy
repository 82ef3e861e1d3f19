/**
 The rewriting of a fragment from one dialect to another, pattern by pattern
 (internal/render/render.go:13-21, 1164-1228), and what it does to question marks: it keeps them all,
 and it rewrites the text on the two sides of one separately.
 */
module Rewriting {
  import opened Basics
  import opened Strings
  import opened Numerals
  import opened TopLevel
  import opened Statements
  import opened Placeholders

  // ----- identifiers between quote marks

  /** The stretch before i holds no such character. */
  predicate Lacks(s: string, i: nat, c: char) { i <= |s| && c !in s[..i] }

  /** Where a character stands first, or the length of the text. */
  function FirstAt(s: string, c: char): (i: nat)
    ensures Lacks(s, i, c) && (i < |s| ==> s[i] == c)
  {
    if s == "" || s[0] == c then 0
    else
      var i := FirstAt(s[1..], c);
      assert s[..1 + i] == [s[0]] + s[1..][..i];
      1 + i
  }

  /** A text with two quote marks: what is before, between and after them. */
  function Spelled(a: string, c: string, r: string, mark: char): string { a + ([mark] + (c + ([mark] + r))) }

  datatype Stretches = NoPair | Pair(before: string, inside: string, after: string)

  /** The first two quote marks. */
  function FirstPair(s: string, mark: char): (p: Stretches)
    ensures p.Pair? ==> s == Spelled(p.before, p.inside, p.after, mark) && mark !in p.before && mark !in p.inside
    ensures p.Pair? ==> |p.after| < |s|
  {
    var i := FirstAt(s, mark);
    if i == |s| then NoPair
    else
      var rest := s[i + 1..];
      var j := FirstAt(rest, mark);
      Joint(s, i);
      if j == |rest| then NoPair else
        Joint(rest, j);
        Pair(s[..i], rest[..j], rest[j + 1..])
  }

  lemma Joint(s: string, i: nat)
    requires i < |s|
    ensures s == s[..i] + ([s[i]] + s[i + 1..])
  {
  }

  /** Every stretch between two quote marks, quoted again for the other dialect. */
  function Requoted(s: string, mark: char, to: Dialect): string
    decreases |s|
  {
    match FirstPair(s, mark)
    case NoPair => s
    case Pair(a, c, r) => a + (Quoted(c, QuoteMark(to)) + Requoted(r, mark, to))
  }

  // ----- plain replacements

  function Replaced(s: string, word: string, put: string): string
    requires word != ""
    decreases |s|
  {
    if |s| < |word| then s
    else if word <= s then put + Replaced(s[|word|..], word, put)
    else [s[0]] + Replaced(s[1..], word, put)
  }

  // ----- charset introducers of string literals, ILIKE

  /** White space in a regular expression. */
  predicate IsBlank(c: char) { c == ' ' || c == '\t' || c == '\n' || c == '\r' || c as int == 12 }

  predicate IsAlnum(c: char) { IsDigit(c) || 'a' <= LowerChar(c) <= 'z' }

  /** How long the stretch of such characters at the start is. */
  function Stretch(s: string, fn: char -> bool): (n: nat)
    ensures n <= |s| && (forall i :: 0 <= i < n ==> fn(s[i])) && (n < |s| ==> !fn(s[n]))
  {
    if s != "" && fn(s[0]) then 1 + Stretch(s[1..], fn) else 0
  }

  /** The length of the blanks and the quote mark here, or 0. */
  function BlankQuote(s: string): (n: nat)
    ensures Lacks(s, n, '?')
  {
    var b := Stretch(s, IsBlank);
    if b < |s| && s[b] == '\'' then
      assert s[..b + 1] == s[..b] + [s[b]];
      b + 1
    else 0
  }

  /** The length of a charset name with them, or 0. */
  function NameQuote(s: string): (n: nat)
    ensures Lacks(s, n, '?')
  {
    var a := Stretch(s, IsAlnum);
    var n := BlankQuote(s[a..]);
    if a == 0 || n == 0 then 0
    else
      assert s[..a + n] == s[..a] + s[a..][..n];
      a + n
  }

  /** The length of an introducer up to its quote mark, or 0. */
  function Introducer(s: string): (n: nat)
    ensures Lacks(s, n, '?')
  {
    if s == "" || s[0] != '_' || NameQuote(s[1..]) == 0 then 0
    else
      assert s[..1 + NameQuote(s[1..])] == [s[0]] + s[1..][..NameQuote(s[1..])];
      1 + NameQuote(s[1..])
  }

  function Unintroduced(s: string): string
    decreases |s|
  {
    if s == "" then ""
    else if Introducer(s) > 0 then "'" + Unintroduced(s[Introducer(s)..])
    else [s[0]] + Unintroduced(s[1..])
  }

  /** The length of ILIKE with the white space around it, or 0. */
  function Ilike(s: string): (n: nat)
    ensures Lacks(s, n, '?')
  {
    var a := Stretch(s, IsBlank);
    if a == 0 || !Matches(s[a..], "ILIKE") then 0
    else
      var b := Stretch(s[a + 5..], IsBlank);
      if b == 0 then 0
      else
        assert s[..a + 5 + b] == s[..a] + s[a..][..5] + s[a + 5..][..b];
        a + 5 + b
  }

  function Liked(s: string): string
    decreases |s|
  {
    if s == "" then ""
    else if Ilike(s) > 0 then " LIKE " + Liked(s[Ilike(s)..])
    else [s[0]] + Liked(s[1..])
  }

  // ----- LIMIT with the offset first

  const LIMIT_WORD := " LIMIT "

  /** A number with white space around it, and what follows. */
  function Figure(s: string): Option<(string, string)> {
    var t := s[Stretch(s, IsBlank)..];
    var a := Stretch(t, IsDigit);
    if a == 0 then None else Some((t[..a], t[a..][Stretch(t[a..], IsBlank)..]))
  }

  /** Two numbers with a comma between them, and nothing else. */
  function FigurePair(s: string): Option<(string, string)> {
    match Figure(s)
    case None => None
    case Some(x) =>
      if x.1 == "" || x.1[0] != ',' then None
      else
        match Figure(x.1[1..])
        case None => None
        case Some(y) => if y.1 == "" then Some((x.0, y.0)) else None
  }

  function LimitTail(offset: string, count: string, to: Dialect): string {
    if to == Postgres then " LIMIT " + count + " OFFSET " + offset
    else " OFFSET " + offset + " ROWS FETCH NEXT " + count + " ROWS ONLY"
  }

  function LimitAt(s: string): int { Find(OUT, s, LIMIT_WORD) }

  /** Offset and count of a LIMIT clause that has to be turned around. */
  function LimitPair(s: string, to: Dialect): Option<(string, string)> {
    if (to != Postgres && to != Oracle) || LimitAt(s) < 0 then None
    else FigurePair(LimitClause(s))
  }

  /** What follows the word, without white space around it. */
  function LimitClause(s: string): string {
    if 0 <= LimitAt(s) <= |s| - |LIMIT_WORD| then Trim(s[LimitAt(s) + |LIMIT_WORD|..]) else ""
  }

  function OffsetLast(s: string, to: Dialect): string {
    match LimitPair(s, to)
    case None => s
    case Some(p) => if 0 <= LimitAt(s) <= |s| then Trim(s[..LimitAt(s)]) + LimitTail(p.0, p.1, to) else s
  }

  // ----- the patterns one after the other

  const NOW := "NOW()"
  const STAMP := "CURRENT_TIMESTAMP"
  const STAMP_CALL := "CURRENT_TIMESTAMP()"
  const KEY := "PRIMARY KEY("
  const KEY_SPACED := "PRIMARY KEY ("

  function Worded(s: string): string {
    Replaced(Replaced(Replaced(s, NOW, STAMP), STAMP_CALL, STAMP), KEY, KEY_SPACED)
  }

  /** The patterns of MySQL text, but for the last one. */
  function MySqlPatterns(s: string, to: Dialect): string {
    Worded(Unintroduced(Requoted(s, '`', to)))
  }

  function FromMySql(s: string, to: Dialect): string { OffsetLast(MySqlPatterns(s, to), to) }

  /** The patterns of PostgreSQL text, but for the last one. */
  function PostgresPatterns(s: string, to: Dialect): string { Liked(Requoted(s, '"', to)) }

  function FromPostgres(s: string, to: Dialect): string {
    var t := PostgresPatterns(s, to);
    if to == MySql || to == Sqlite then Unnumbered(t, '$') else t
  }

  // ----- question marks are kept

  lemma {:induction false} NoneIn(s: string)
    requires '?' !in s
    ensures Questions(s) == 0
  {
    if s != "" { NoneIn(s[1..]); }
  }

  lemma SplitQuestions(s: string, i: nat)
    requires i <= |s|
    ensures Questions(s) == Questions(s[..i]) + Questions(s[i..])
  {
    assert s == s[..i] + s[i..];
    QuestionsAppend(s[..i], s[i..]);
  }

  lemma {:induction false} ReplacedKeeps(s: string, word: string, put: string)
    requires word != "" && '?' !in word && '?' !in put
    ensures Questions(Replaced(s, word, put)) == Questions(s)
    decreases |s|
  {
    if |s| >= |word| {
      if word <= s {
        ReplacedKeeps(s[|word|..], word, put);
        NoneIn(put);
        NoneIn(word);
        SplitQuestions(s, |word|);
        assert s[..|word|] == word;
        QuestionsAppend(put, Replaced(s[|word|..], word, put));
      } else {
        ReplacedKeeps(s[1..], word, put);
        QuestionsAppend([s[0]], Replaced(s[1..], word, put));
        SplitQuestions(s, 1);
        assert s[..1] == [s[0]];
      }
    }
  }

  /** One step of a pattern that drops n characters for a text, or passes over one character. */
  lemma StepKeeps(s: string, n: nat, put: string, rest: string, out: string)
    requires 0 < n <= |s| && Questions(put) == Questions(s[..n]) && Questions(rest) == Questions(s[n..]) && out == put + rest
    ensures Questions(out) == Questions(s)
  {
    SplitQuestions(s, n);
    QuestionsAppend(put, rest);
  }

  lemma {:induction false} UnintroducedKeeps(s: string)
    ensures Questions(Unintroduced(s)) == Questions(s)
    decreases |s|
  {
    if s != "" {
      var n := Introducer(s);
      if n > 0 {
        UnintroducedKeeps(s[n..]);
        NoneIn(s[..n]);
        NoneIn("'");
        StepKeeps(s, n, "'", Unintroduced(s[n..]), Unintroduced(s));
      } else {
        UnintroducedKeeps(s[1..]);
        assert s[..1] == [s[0]];
        StepKeeps(s, 1, [s[0]], Unintroduced(s[1..]), Unintroduced(s));
      }
    }
  }

  lemma {:induction false} LikedKeeps(s: string)
    ensures Questions(Liked(s)) == Questions(s)
    decreases |s|
  {
    if s != "" {
      var n := Ilike(s);
      if n > 0 {
        LikedKeeps(s[n..]);
        NoneIn(s[..n]);
        NoneIn(" LIKE ");
        StepKeeps(s, n, " LIKE ", Liked(s[n..]), Liked(s));
      } else {
        LikedKeeps(s[1..]);
        assert s[..1] == [s[0]];
        StepKeeps(s, 1, [s[0]], Liked(s[1..]), Liked(s));
      }
    }
  }

  // ----- an identifier keeps its question marks when it is quoted

  lemma {:induction false} TrimLeftKeeps(s: string)
    ensures Questions(TrimLeft(s)) == Questions(s)
  {
    if s != "" && IsSpace(s[0]) { TrimLeftKeeps(s[1..]); }
  }

  lemma LastKeeps(s: string)
    requires s != "" && s[|s| - 1] != '?'
    ensures Questions(s[..|s| - 1]) == Questions(s)
  {
    SplitQuestions(s, |s| - 1);
    NoneIn(s[|s| - 1..]);
  }

  lemma {:induction false} TrimRightKeeps(s: string)
    ensures Questions(TrimRight(s)) == Questions(s)
  {
    if s != "" && IsSpace(s[|s| - 1]) {
      TrimRightKeeps(s[..|s| - 1]);
      LastKeeps(s);
    }
  }

  lemma TrimKeeps(s: string)
    ensures Questions(Trim(s)) == Questions(s)
  {
    TrimLeftKeeps(s);
    TrimRightKeeps(TrimLeft(s));
  }

  lemma {:induction false} CutLeftKeeps(s: string)
    ensures Questions(CutLeft(s)) == Questions(s)
  {
    if s != "" && IsCut(s[0]) { CutLeftKeeps(s[1..]); }
  }

  lemma {:induction false} CutRightKeeps(s: string)
    ensures Questions(CutRight(s)) == Questions(s)
  {
    if s != "" && IsCut(s[|s| - 1]) {
      CutRightKeeps(s[..|s| - 1]);
      LastKeeps(s);
    }
  }

  /** The question marks of all parts. */
  function AllQuestions(ps: seq<string>): nat {
    if ps == [] then 0 else Questions(ps[0]) + AllQuestions(ps[1..])
  }

  lemma {:induction false} SplitKeeps(s: string, sep: char)
    requires sep != '?'
    ensures AllQuestions(SplitOn(s, sep)) == Questions(s)
  {
    if s != "" {
      var r := SplitOn(s[1..], sep);
      SplitKeeps(s[1..], sep);
      if s[0] == sep {
        assert ([""] + r)[1..] == r;
      } else {
        assert ([[s[0]] + r[0]] + r[1..])[1..] == r[1..];
        QuestionsAppend([s[0]], r[0]);
        NumberedOne(s[0], 0, '$');
      }
    }
  }

  lemma {:induction false} JoinKeeps(ps: seq<string>, sep: char)
    requires sep != '?'
    ensures Questions(JoinWith(ps, sep)) == AllQuestions(ps)
  {
    if |ps| == 1 {
      assert ps[1..] == [];
    } else if |ps| > 1 {
      JoinKeeps(ps[1..], sep);
      QuestionsAppend(ps[0], [sep] + JoinWith(ps[1..], sep));
      QuestionsAppend([sep], JoinWith(ps[1..], sep));
      NumberedOne(sep, 0, '$');
    }
  }

  lemma {:induction false} PartsKeep(ps: seq<string>, q: char)
    requires q != '?'
    ensures AllQuestions(QuoteParts(ps, q)) == AllQuestions(ps)
  {
    if ps != [] {
      PartsKeep(ps[1..], q);
      PartKeeps(ps[0], q);
      assert QuoteParts(ps, q)[1..] == QuoteParts(ps[1..], q);
    }
  }

  lemma PartKeeps(s: string, q: char)
    requires q != '?'
    ensures Questions(QuotePart(s, q)) == Questions(s)
  {
    CutLeftKeeps(s);
    CutRightKeeps(CutLeft(s));
    NumberedOne(q, 0, '$');
    QuestionsAppend([q], Cut(s));
    QuestionsAppend([q] + Cut(s), [q]);
  }

  lemma QuotedKeeps(name: string, q: char)
    requires q != '?'
    ensures Questions(Quoted(name, q)) == Questions(name)
  {
    var ps := SplitOn(Trim(name), '.');
    TrimKeeps(name);
    SplitKeeps(Trim(name), '.');
    PartsKeep(ps, q);
    JoinKeeps(QuoteParts(ps, q), '.');
  }

  lemma SpelledQuestions(a: string, c: string, r: string, mark: char)
    requires mark != '?'
    ensures Questions(Spelled(a, c, r, mark)) == Questions(a) + Questions(c) + Questions(r)
  {
    NumberedOne(mark, 0, '$');
    QuestionsAppend(a, [mark] + (c + ([mark] + r)));
    QuestionsAppend([mark], c + ([mark] + r));
    QuestionsAppend(c, [mark] + r);
    QuestionsAppend([mark], r);
  }

  lemma {:induction false} RequotedKeeps(s: string, mark: char, to: Dialect)
    requires mark != '?'
    ensures Questions(Requoted(s, mark, to)) == Questions(s)
    decreases |s|
  {
    match FirstPair(s, mark)
    case NoPair =>
    case Pair(a, c, r) =>
      var q, done := Quoted(c, QuoteMark(to)), Requoted(r, mark, to);
      SpelledQuestions(a, c, r, mark);
      RequotedKeeps(r, mark, to);
      QuotedKeeps(c, QuoteMark(to));
      QuestionsAppend(a, q + done);
      QuestionsAppend(q, done);
  }

  lemma WordedKeeps(s: string)
    ensures Questions(Worded(s)) == Questions(s)
  {
    var a := Replaced(s, NOW, STAMP);
    ReplacedKeeps(s, NOW, STAMP);
    ReplacedKeeps(a, STAMP_CALL, STAMP);
    ReplacedKeeps(Replaced(a, STAMP_CALL, STAMP), KEY, KEY_SPACED);
  }

  lemma SkipKeeps(s: string, fn: char -> bool)
    requires !fn('?')
    ensures Questions(s[Stretch(s, fn)..]) == Questions(s) && '?' !in s[..Stretch(s, fn)]
  {
    SplitQuestions(s, Stretch(s, fn));
    NoneIn(s[..Stretch(s, fn)]);
  }

  lemma FigureKeeps(s: string)
    requires Figure(s).Some?
    ensures '?' !in Figure(s).value.0 && Questions(Figure(s).value.1) == Questions(s)
  {
    var t := s[Stretch(s, IsBlank)..];
    SkipKeeps(s, IsBlank);
    SkipKeeps(t, IsDigit);
    SkipKeeps(t[Stretch(t, IsDigit)..], IsBlank);
  }

  /** A pair of numbers holds no question mark, nor do its numbers. */
  lemma PairHasNone(s: string)
    requires FigurePair(s).Some?
    ensures Questions(s) == 0 && var p := FigurePair(s).value; '?' !in p.0 && '?' !in p.1
  {
    var x := Figure(s).value;
    FigureKeeps(s);
    FigureKeeps(x.1[1..]);
    SplitQuestions(x.1, 1);
    NoneIn(x.1[..1]);
  }

  lemma TailHasNone(offset: string, count: string, to: Dialect)
    requires '?' !in offset && '?' !in count
    ensures Questions(LimitTail(offset, count, to)) == 0
  {
    NoneIn(LimitTail(offset, count, to));
  }

  /** What the last pattern replaces holds no question mark, and stands after all of them. */
  lemma PairKeeps(s: string, to: Dialect) returns (i: nat)
    requires LimitPair(s, to).Some?
    ensures i == LimitAt(s) && i <= |s| && Questions(s[i..]) == 0
  {
    i := LimitAt(s);
    PairHasNone(LimitClause(s));
    LimitHasNone(s, i, LimitClause(s));
  }

  lemma PairTail(s: string, to: Dialect, p: (string, string))
    requires LimitPair(s, to) == Some(p)
    ensures Questions(LimitTail(p.0, p.1, to)) == 0
  {
    PairHasNone(LimitClause(s));
    TailHasNone(p.0, p.1, to);
  }

  lemma OffsetKeeps(s: string, to: Dialect)
    ensures Questions(OffsetLast(s, to)) == Questions(s)
  {
    match LimitPair(s, to)
    case None =>
    case Some(p) =>
      var i := PairKeeps(s, to);
      PairTail(s, to, p);
      CutKeeps(s, i, LimitTail(p.0, p.1, to));
  }

  lemma CutKeeps(s: string, i: nat, tail: string)
    requires i <= |s| && Questions(s[i..]) == 0 && Questions(tail) == 0
    ensures Questions(Trim(s[..i]) + tail) == Questions(s)
  {
    TrimKeeps(s[..i]);
    QuestionsAppend(Trim(s[..i]), tail);
    SplitQuestions(s, i);
  }

  lemma LimitHasNone(s: string, i: nat, clause: string)
    requires i == LimitAt(s) && clause == LimitClause(s) && Questions(clause) == 0
    ensures i <= |s| && Questions(s[i..]) == 0
  {
    FindIsFirst(OUT, s, LIMIT_WORD);
    WordThenClause(s[i..], |LIMIT_WORD|);
  }

  lemma WordThenClause(rest: string, n: nat)
    requires n == |LIMIT_WORD| <= |rest| && Matches(rest, LIMIT_WORD) && Questions(Trim(rest[n..])) == 0
    ensures Questions(rest) == 0
  {
    WordHasNone(rest[..n]);
    TrimKeeps(rest[n..]);
    SplitQuestions(rest, n);
  }

  lemma WordHasNone(w: string)
    requires |w| == |LIMIT_WORD| && Matches(w, LIMIT_WORD)
    ensures Questions(w) == 0
  {
    assert forall k :: 0 <= k < |w| ==> UpperChar(w[k]) == UpperChar(LIMIT_WORD[k]);
    assert forall k :: 0 <= k < |LIMIT_WORD| ==> UpperChar(LIMIT_WORD[k]) != '?';
    NoneIn(w);
  }

  /** Rewriting MySQL text keeps all its question marks. */
  lemma MarksKept(s: string, to: Dialect)
    ensures Questions(FromMySql(s, to)) == Questions(s)
  {
    var a := Requoted(s, '`', to);
    RequotedKeeps(s, '`', to);
    UnintroducedKeeps(a);
    WordedKeeps(Unintroduced(a));
    OffsetKeeps(MySqlPatterns(s, to), to);
  }

  // ----- the two sides of a question mark

  function Around(a: string, b: string): string { a + ("?" + b) }

  lemma AroundTail(a: string, b: string, n: nat)
    requires n <= |a|
    ensures Around(a, b)[n..] == Around(a[n..], b) && Around(a, b)[..n] == a[..n]
  {
  }

  lemma {:induction false} StretchStops(a: string, b: string, fn: char -> bool)
    requires !fn('?')
    ensures Stretch(Around(a, b), fn) == Stretch(a, fn)
  {
    if a == "" {
      assert Around(a, b)[0] == '?';
    } else {
      AroundTail(a, b, 1);
      StretchStops(a[1..], b, fn);
    }
  }

  lemma WordInside(a: string, b: string, word: string)
    requires word != "" && '?' !in word
    ensures word <= Around(a, b) <==> word <= a
  {
    var s := Around(a, b);
    assert s[|a|] == '?';
    if |word| > |a| { assert word[|a|] != s[|a|]; }
  }

  lemma {:induction false} ReplacedSides(a: string, b: string, word: string, put: string)
    requires word != "" && '?' !in word
    ensures Replaced(Around(a, b), word, put) == Around(Replaced(a, word, put), Replaced(b, word, put))
    decreases |a|
  {
    var s := Around(a, b);
    WordInside(a, b, word);
    if a == "" {
      assert s[1..] == b && s[0] == '?';
      assert |s| < |word| ==> Replaced(b, word, put) == b;
    } else if |s| < |word| {
      assert Replaced(a, word, put) == a && Replaced(b, word, put) == b;
    } else if word <= a {
      AroundTail(a, b, |word|);
      ReplacedSides(a[|word|..], b, word, put);
      Assoc(put, Replaced(a[|word|..], word, put), "?" + Replaced(b, word, put));
    } else {
      AroundTail(a, b, 1);
      ReplacedSides(a[1..], b, word, put);
      ReplacedNext(a, word, put);
      Assoc([a[0]], Replaced(a[1..], word, put), "?" + Replaced(b, word, put));
    }
  }

  lemma ReplacedNext(a: string, word: string, put: string)
    requires word != "" && a != "" && !(word <= a)
    ensures Replaced(a, word, put) == [a[0]] + Replaced(a[1..], word, put)
  {
    if |a| < |word| { assert Replaced(a[1..], word, put) == a[1..]; }
  }

  lemma WordedSides(a: string, b: string)
    ensures Worded(Around(a, b)) == Around(Worded(a), Worded(b))
  {
    var a1, b1 := Replaced(a, NOW, STAMP), Replaced(b, NOW, STAMP);
    var a2, b2 := Replaced(a1, STAMP_CALL, STAMP), Replaced(b1, STAMP_CALL, STAMP);
    ReplacedSides(a, b, NOW, STAMP);
    ReplacedSides(a1, b1, STAMP_CALL, STAMP);
    ReplacedSides(a2, b2, KEY, KEY_SPACED);
  }

  lemma BlankQuoteInside(a: string, b: string)
    ensures BlankQuote(Around(a, b)) == BlankQuote(a)
  {
    StretchStops(a, b, IsBlank);
  }

  lemma NameQuoteInside(a: string, b: string)
    ensures NameQuote(Around(a, b)) == NameQuote(a)
  {
    var n := Stretch(a, IsAlnum);
    StretchStops(a, b, IsAlnum);
    AroundTail(a, b, n);
    BlankQuoteInside(a[n..], b);
  }

  lemma IntroducerInside(a: string, b: string)
    requires a != ""
    ensures Introducer(Around(a, b)) == Introducer(a)
  {
    AroundTail(a, b, 1);
    NameQuoteInside(a[1..], b);
  }

  /** One step of the pattern. */
  lemma UnintroducedStep(s: string, n: nat, head: string)
    requires s != "" && n == (if Introducer(s) > 0 then Introducer(s) else 1)
    requires head == if Introducer(s) > 0 then "'" else [s[0]]
    ensures n <= |s| && Unintroduced(s) == head + Unintroduced(s[n..])
  {
  }

  lemma {:induction false} UnintroducedSides(a: string, b: string)
    ensures Unintroduced(Around(a, b)) == Around(Unintroduced(a), Unintroduced(b))
    decreases |a|
  {
    var s := Around(a, b);
    if a == "" {
      assert s[1..] == b && s[0] == '?';
      UnintroducedStep(s, 1, "?");
    } else {
      IntroducerInside(a, b);
      var n, head := if Introducer(a) > 0 then Introducer(a) else 1, if Introducer(a) > 0 then "'" else [a[0]];
      AroundTail(a, b, n);
      UnintroducedStep(s, n, head);
      UnintroducedStep(a, n, head);
      UnintroducedSides(a[n..], b);
      Assoc(head, Unintroduced(a[n..]), "?" + Unintroduced(b));
    }
  }

  /** The quote marks of a text come in pairs. */
  predicate Paired(s: string, mark: char)
    decreases |s|
  {
    match FirstPair(s, mark)
    case NoPair => mark !in s
    case Pair(_, _, r) => Paired(r, mark)
  }

  lemma {:induction false} FirstIs(a: string, mark: char, rest: string)
    requires mark !in a
    ensures FirstAt(a + ([mark] + rest), mark) == |a|
  {
    var s := a + ([mark] + rest);
    if a != "" {
      assert s[1..] == a[1..] + ([mark] + rest);
      FirstIs(a[1..], mark, rest);
    }
  }

  lemma PairIs(a: string, c: string, r: string, mark: char)
    requires mark !in a && mark !in c
    ensures FirstPair(Spelled(a, c, r, mark), mark) == Pair(a, c, r)
  {
    var s, rest := Spelled(a, c, r, mark), c + ([mark] + r);
    FirstIs(a, mark, rest);
    FirstIs(c, mark, r);
    assert s[|a| + 1..] == rest && rest[|c| + 1..] == r && rest[..|c|] == c && s[..|a|] == a;
  }

  lemma RequotedPair(a: string, c: string, r: string, mark: char, to: Dialect)
    requires mark !in a && mark !in c
    ensures Requoted(Spelled(a, c, r, mark), mark, to) == a + (Quoted(c, QuoteMark(to)) + Requoted(r, mark, to))
  {
    PairIs(a, c, r, mark);
  }

  lemma AroundPair(a: string, x: string, c: string, r: string, mark: char)
    ensures Around(a, Spelled(x, c, r, mark)) == Spelled(a + ("?" + x), c, r, mark)
  {
  }

  lemma PairAround(a: string, c: string, r: string, b: string, mark: char)
    ensures Around(Spelled(a, c, r, mark), b) == Spelled(a, c, Around(r, b), mark)
  {
  }

  /** A pair around a question mark stands after it, when nothing before it is a quote mark. */
  lemma PairAfter(a: string, b: string, x: string, c: string, r: string, mark: char)
    requires mark != '?' && mark !in a && Around(a, b) == Spelled(x, c, r, mark)
    ensures |x| > |a| && b == Spelled(x[|a| + 1..], c, r, mark)
  {
    var s := Around(a, b);
    assert s[|x|] == mark && s[|a|] == '?';
    assert forall k :: 0 <= k < |a| ==> s[k] == a[k] != mark;
    assert b == s[|a| + 1..];
  }

  lemma NoPairAround(a: string, b: string, mark: char)
    requires mark != '?' && mark !in a && FirstPair(b, mark) == NoPair
    ensures FirstPair(Around(a, b), mark) == NoPair
  {
    var p := FirstPair(Around(a, b), mark);
    if p.Pair? {
      PairAfter(a, b, p.before, p.inside, p.after, mark);
      NotInTail(p.before, |a| + 1, mark);
      PairIs(p.before[|a| + 1..], p.inside, p.after, mark);
    }
  }

  lemma NotInTail(s: string, n: nat, c: char)
    requires c !in s && n <= |s|
    ensures c !in s[n..]
  {
  }

  lemma FourAssoc(a: string, x: string, q: string)
    ensures (a + ("?" + x)) + q == a + ("?" + (x + q))
  {
  }

  lemma RequotedAfter(a: string, b: string, mark: char, to: Dialect)
    requires mark != '?' && mark !in a
    ensures Requoted(Around(a, b), mark, to) == Around(a, Requoted(b, mark, to))
  {
    match FirstPair(b, mark)
    case NoPair => NoPairAround(a, b, mark);
    case Pair(x, c, r) =>
      AroundPair(a, x, c, r, mark);
      RequotedPair(a + ("?" + x), c, r, mark, to);
      FourAssoc(a, x, Quoted(c, QuoteMark(to)) + Requoted(r, mark, to));
  }

  lemma {:induction false} RequotedSides(a: string, b: string, mark: char, to: Dialect)
    requires mark != '?' && Paired(a, mark)
    ensures Requoted(Around(a, b), mark, to) == Around(Requoted(a, mark, to), Requoted(b, mark, to))
    decreases |a|
  {
    match FirstPair(a, mark)
    case NoPair => RequotedAfter(a, b, mark, to);
    case Pair(x, c, r) =>
      PairAround(x, c, r, b, mark);
      RequotedPair(x, c, Around(r, b), mark, to);
      RequotedSides(r, b, mark, to);
      PairRest(x, Quoted(c, QuoteMark(to)), Requoted(r, mark, to), "?" + Requoted(b, mark, to));
  }

  lemma PairRest(a: string, q: string, r: string, t: string)
    ensures a + (q + (r + t)) == (a + (q + r)) + t
  {
  }

  /** The MySQL patterns rewrite the two sides of a question mark outside back quotes separately. */
  lemma PatternsSides(a: string, b: string, to: Dialect)
    requires Paired(a, '`')
    ensures MySqlPatterns(Around(a, b), to) == Around(MySqlPatterns(a, to), MySqlPatterns(b, to))
  {
    var a1, b1 := Requoted(a, '`', to), Requoted(b, '`', to);
    RequotedSides(a, b, '`', to);
    UnintroducedSides(a1, b1);
    WordedSides(Unintroduced(a1), Unintroduced(b1));
  }

  /** Pieces with question marks between them. */
  function Marked(ps: seq<string>): string {
    if ps == [] then "" else if |ps| == 1 then ps[0] else Around(ps[0], Marked(ps[1..]))
  }

  function EachRewritten(ps: seq<string>, to: Dialect): (r: seq<string>)
    ensures |r| == |ps| && forall i :: 0 <= i < |ps| ==> r[i] == MySqlPatterns(ps[i], to)
  {
    if ps == [] then [] else [MySqlPatterns(ps[0], to)] + EachRewritten(ps[1..], to)
  }

  /** So the k-th question mark of a fragment stays between the rewritings of the pieces around it. */
  lemma {:induction false} PiecesRewritten(ps: seq<string>, to: Dialect)
    requires ps != [] && forall i :: 0 <= i < |ps| ==> Paired(ps[i], '`')
    ensures MySqlPatterns(Marked(ps), to) == Marked(EachRewritten(ps, to))
  {
    if |ps| > 1 {
      PiecesRewritten(ps[1..], to);
      PatternsSides(ps[0], Marked(ps[1..]), to);
      assert EachRewritten(ps, to)[1..] == EachRewritten(ps[1..], to);
    }
  }

  /** The PostgreSQL patterns, but for the one that turns numbers into question marks, keep them all too. */
  lemma PostgresMarksKept(s: string, to: Dialect)
    ensures Questions(PostgresPatterns(s, to)) == Questions(s)
  {
    RequotedKeeps(s, '"', to);
    LikedKeeps(Requoted(s, '"', to));
  }

  /** And the last pattern replaces only what stands after all question marks. */
  lemma LimitAfterMarks(s: string, to: Dialect) returns (i: nat, tail: string)
    ensures i <= |s| && Questions(s[i..]) == 0 && Questions(tail) == 0
    ensures OffsetLast(s, to) == s || OffsetLast(s, to) == Trim(s[..i]) + tail
  {
    i, tail := |s|, "";
    match LimitPair(s, to)
    case None =>
    case Some(p) =>
      i := PairKeeps(s, to);
      PairTail(s, to, p);
      tail := LimitTail(p.0, p.1, to);
  }
}
