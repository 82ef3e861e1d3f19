/**
 Raw texts of words and back-quoted names: the patterns of MySQL text write the names between the marks of the other
 dialect and leave the words alone, and the LIMIT behind them is turned around
 (internal/render/render.go:14, 1164-1228, translator_test.go:377-401).
 */
module RawNames {
  import opened Basics
  import opened Strings
  import opened Numerals
  import opened TopLevel
  import opened TopLevelLaws
  import opened Statements
  import opened Placeholders
  import opened Readers
  import opened ClauseReading
  import opened JoinReading
  import opened QuotedNames
  import opened Rewriting
  import opened Rendering
  import opened LimitTurns

  /** Some words and the name behind them. */
  datatype Named = Named(words: string, name: string)

  /** The words and the names, each name between two marks. */
  function Marked(ns: seq<Named>, mark: char): string {
    if ns == [] then "" else ns[0].words + ([mark] + (ns[0].name + ([mark] + Marked(ns[1..], mark))))
  }

  predicate PlainName(name: string) {
    name != "" && Trimmed(name) && '.' !in name && '"' !in name && Unpatterned(name) && forall i :: 0 <= i < |name| ==> !IsCut(name[i])
  }

  /** No quote marks, parentheses or question marks, and no L behind a blank. */
  predicate PlainWords(w: string) {
    Unpatterned(w) && '"' !in w && forall i :: 0 < i < |w| && w[i - 1] == ' ' ==> UpperChar(w[i]) != 'L'
  }

  predicate AllPlain(ns: seq<Named>) { forall i :: 0 <= i < |ns| ==> PlainWords(ns[i].words) && PlainName(ns[i].name) }

  lemma PlainQuoted(name: string, q: char)
    requires PlainName(name)
    ensures Quoted(name, q) == [q] + (name + [q])
  {
    TrimTrimmed(name);
    SplitWord(name, '.');
    assert CutLeft(name) == name && CutRight(name) == name;
    assert QuoteParts([name], q) == [QuotePart(name, q)];
  }

  /** Every name comes out between the marks of the other dialect. */
  lemma {:induction false} NamesRequoted(ns: seq<Named>, to: Dialect)
    requires AllPlain(ns)
    ensures Requoted(Marked(ns, '`'), '`', to) == Marked(ns, QuoteMark(to))
  {
    var q := QuoteMark(to);
    if ns != [] {
      var w, name, rest := ns[0].words, ns[0].name, Marked(ns[1..], '`');
      assert PlainWords(w) && PlainName(name) && AllPlain(ns[1..]);
      assert '`' !in w && '`' !in name;
      NamesRequoted(ns[1..], to);
      RequotedPair(w, name, rest, '`', to);
      PlainQuoted(name, q);
      Assoc([q], name + [q], Marked(ns[1..], q));
      Assoc(name, [q], Marked(ns[1..], q));
    }
  }

  /** None of the characters of the later patterns, nor a placeholder. */
  predicate Bland(s: string) { forall i :: 0 <= i < |s| ==> s[i] != '\'' && s[i] != '(' && s[i] != ')' && s[i] != '?' }

  lemma BlandAppend(a: string, b: string)
    requires Bland(a) && Bland(b)
    ensures Bland(a + b)
  {
  }

  lemma {:induction false} MarkedBland(ns: seq<Named>, q: char)
    requires AllPlain(ns) && Marks(q)
    ensures Bland(Marked(ns, q))
  {
    if ns != [] {
      assert PlainWords(ns[0].words) && PlainName(ns[0].name) && AllPlain(ns[1..]);
      MarkedBland(ns[1..], q);
      BlandAppend([q], Marked(ns[1..], q));
      BlandAppend(ns[0].name, [q] + Marked(ns[1..], q));
      BlandAppend([q], ns[0].name + ([q] + Marked(ns[1..], q)));
      BlandAppend(ns[0].words, [q] + (ns[0].name + ([q] + Marked(ns[1..], q))));
    }
  }

  lemma BlandKept(s: string)
    requires Bland(s)
    ensures Worded(Unintroduced(s)) == s && Numbered(s, 0, '$') == s
  {
    NotUnintroduced(s);
    NotReplaced(s, NOW, STAMP);
    NotReplaced(s, STAMP_CALL, STAMP);
    NotReplaced(s, KEY, KEY_SPACED);
    NumberedNone(s, 0, '$');
  }

  /** Nothing but the marks of the names changes. */
  lemma NamesRewritten(ns: seq<Named>, to: Dialect)
    requires AllPlain(ns)
    ensures MySqlPatterns(Marked(ns, '`'), to) == Marked(ns, QuoteMark(to)) && Numbered(Marked(ns, QuoteMark(to)), 0, '$') == Marked(ns, QuoteMark(to))
  {
    NamesRequoted(ns, to);
    MarkedBland(ns, QuoteMark(to));
    BlandKept(Marked(ns, QuoteMark(to)));
  }

  // ----- the LIMIT is found behind the names

  lemma NotHereYet(t: string)
    requires |t| >= 2 && (t[0] == ' ' ==> UpperChar(t[1]) != 'L')
    ensures !Matches(t, LIMIT)
  {
    assert Matches(t, LIMIT) ==> UpperChar(t[0]) == UpperChar(LIMIT[0]) && UpperChar(t[1]) == UpperChar(LIMIT[1]);
  }

  lemma {:induction false} WordsPassed(w: string, rest: string)
    requires PlainWords(w) && rest != "" && UpperChar(rest[0]) != 'L'
    ensures Quiet(OUT, w, rest, LIMIT) && Run(OUT, w) == OUT
    decreases |w|
  {
    if w != "" {
      var t := w + rest;
      assert t[1..] == w[1..] + rest && (w[0] == ' ' ==> UpperChar(t[1]) != 'L');
      NotHereYet(t);
      forall i | 0 < i < |w[1..]| && w[1..][i - 1] == ' ' ensures UpperChar(w[1..][i]) != 'L' { assert w[i] == ' '; }
      WordsPassed(w[1..], rest);
    }
  }

  lemma NamePassed(name: string, rest: string, q: char)
    requires Marks(q) && q !in name
    ensures Passes([q] + (name + [q]), rest, LIMIT)
  {
    var t := [q] + (name + [q]);
    InsideQuotes(name, q);
    assert t[1..] == name + [q];
    TameIsQuiet(OUT, t, rest, LIMIT, q);
  }

  lemma {:induction false} MarkedPassed(ns: seq<Named>, rest: string, q: char)
    requires AllPlain(ns) && Marks(q)
    ensures Passes(Marked(ns, q), rest, LIMIT)
  {
    if ns != [] {
      var w, more, name := ns[0].words, Marked(ns[1..], q), [q] + (ns[0].name + [q]);
      assert PlainWords(w) && PlainName(ns[0].name) && AllPlain(ns[1..]);
      MarkedPassed(ns[1..], rest, q);
      NamePassed(ns[0].name, more + rest, q);
      PassesAppend(name, more, rest, LIMIT);
      WordsPassed(w, (name + more) + rest);
      PassesAppend(w, name + more, rest, LIMIT);
      MarkedIs(ns, q);
    }
  }

  lemma MarkedIs(ns: seq<Named>, q: char)
    requires ns != []
    ensures Marked(ns, q) == ns[0].words + ([q] + (ns[0].name + [q]) + Marked(ns[1..], q))
  {
  }

  lemma LimitFoundBehind(ns: seq<Named>, c: string, q: char)
    requires AllPlain(ns) && Marks(q)
    ensures LimitAt(Marked(ns, q) + (LIMIT + c)) == |Marked(ns, q)|
  {
    MarkedPassed(ns, LIMIT + c, q);
    FoundStart(LIMIT, c);
    FoundShift(Marked(ns, q) + (LIMIT + c), Marked(ns, q), LIMIT + c, LIMIT, 0);
    assert Asked(0);
  }

  /** Words and names with a LIMIT clause of two numbers behind them, from MySQL to PostgreSQL. */
  lemma NamesAndLimit(ns: seq<Named>, c: string, x: string, y: string)
    requires AllPlain(ns) && IsPair(c, x, y)
    requires var s := Marked(ns, '`') + (LIMIT + c); Trim(s) == s && Trim(Marked(ns, '"')) == Marked(ns, '"')
    ensures Treated(Marked(ns, '`') + (LIMIT + c), TreatmentOf(MySql, Postgres), 0) == Marked(ns, '"') + (LIMIT + (y + (OFFSET + x)))
    ensures PostgresLimit(y + (OFFSET + x)) == MySqlLimit(c) == Counted(x, y)
  {
    NamesRewritten(ns, Postgres);
    LimitFoundBehind(ns, c, '"');
    RawForPostgres(Marked(ns, '`') + (LIMIT + c), Marked(ns, '`'), c, x, y, 0);
  }

  // ----- the union of the translator's tests

  const NAMES := [Named("SELECT ", "id"), Named(" FROM ", "users"), Named(" UNION ALL SELECT ", "id"), Named(" FROM ", "admins")]

  lemma LettersName(name: string)
    requires name != "" && forall i :: 0 <= i < |name| ==> 'a' <= name[i] <= 'z'
    ensures PlainName(name)
  {
  }

  lemma LettersWords(w: string)
    requires forall i :: 0 <= i < |w| ==> w[i] == ' ' || 'A' <= w[i] <= 'Z'
    requires forall i :: 0 < i < |w| && w[i - 1] == ' ' ==> w[i] != 'L'
    ensures PlainWords(w)
  {
  }

  lemma NamesPlain()
    ensures AllPlain(NAMES)
  {
    LettersName("id");
    LettersName("users");
    LettersName("admins");
    LettersWords("SELECT ");
    LettersWords(" FROM ");
    LettersWords(" UNION ALL SELECT ");
    FourPlain(NAMES);
  }

  lemma FourPlain(ns: seq<Named>)
    requires |ns| == 4 && PlainWords(ns[0].words) && PlainWords(ns[1].words) && PlainWords(ns[2].words) && PlainWords(ns[3].words)
    requires PlainName(ns[0].name) && PlainName(ns[1].name) && PlainName(ns[2].name) && PlainName(ns[3].name)
    ensures AllPlain(ns)
  {
  }

  lemma MarkedEnds(ns: seq<Named>, q: char)
    requires AllPlain(ns) && ns != [] && ns[0].words != "" && !IsSpace(ns[0].words[0]) && Marks(q)
    ensures var s := Marked(ns, q); s != "" && Trimmed(s)
  {
    MarkedLast(ns, q);
  }

  lemma {:induction false} MarkedLast(ns: seq<Named>, q: char)
    requires ns != []
    ensures var s := Marked(ns, q); s != "" && s[|s| - 1] == q
  {
    if |ns| > 1 { MarkedLast(ns[1..], q); } else { assert Marked(ns[1..], q) == ""; }
  }

  lemma TwoAndThree()
    ensures IsPair("2, 3", "2", "3") && Counted("2", "3") == Ok(Limit(Some(2), 3))
  {
    assert "2, 3" == PairText("", "2", "", " ", "3", "");
    assert Blanks("") && Blanks(" ");
    assert "2"[..0] == "" && "3"[..0] == "" && Value("2") == 2 && Value("3") == 3;
  }

  /** The union of two selections comes out with its names quoted for PostgreSQL, and with the count before the
      offset. */
  lemma UnionRewritten()
    ensures Treated(Marked(NAMES, '`') + " LIMIT 2, 3", TreatmentOf(MySql, Postgres), 0) == Marked(NAMES, '"') + " LIMIT 3 OFFSET 2"
    ensures MySqlLimit("2, 3") == PostgresLimit("3 OFFSET 2") == Ok(Limit(Some(2), 3))
  {
    NamesPlain();
    TwoAndThree();
    LimitsSpelled();
    MarkedEnds(NAMES, '`');
    MarkedEnds(NAMES, '"');
    TrimmedAround(Marked(NAMES, '`'), LIMIT, "2, 3");
    TrimTrimmed(Marked(NAMES, '"'));
    NamesAndLimit(NAMES, "2, 3", "2", "3");
  }

  lemma LimitsSpelled()
    ensures LIMIT + "2, 3" == " LIMIT 2, 3" && LIMIT + ("3" + (OFFSET + "2")) == " LIMIT 3 OFFSET 2" && "3" + (OFFSET + "2") == "3 OFFSET 2"
  {
  }
}
