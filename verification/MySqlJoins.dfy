/**
 The joins of the MySQL reader: what follows the first ON condition is trimmed before it is searched for
 the next join, so that a second join is not seen where it is
 (internal/syntax/mysql/parser.go:194-264).
 */
module MySqlJoins {
  import opened Basics
  import opened Strings
  import opened TopLevel
  import opened TopLevelLaws
  import opened Statements
  import opened Readers
  import opened JoinReading

  /** A join's table, its condition and what follows. */
  datatype Remainder = Remainder(table: string, on: string, tail: string)

  function SplitOnAt(table: string, afterOn: string, next: int): Remainder
    requires next <= |afterOn|
  {
    if next < 0 then Remainder(table, afterOn, "") else Remainder(table, Trim(afterOn[..next]), Trim(afterOn[next..]))
  }

  function SplitAfter(table: string, afterOn: string): Remainder {
    FindJoinFits(afterOn);
    SplitOnAt(table, afterOn, FindJoin(afterOn).0)
  }

  function SplitAt(input: string, on: int): Remainder
    requires on < 0 || on + |ON| <= |input|
  {
    if on < 0 then Remainder(input, "", "") else SplitAfter(Trim(input[..on]), Trim(input[on + |ON|..]))
  }

  function SplitRemainder(input: string): Remainder { SplitAt(input, Find(OUT, input, ON)) }

  function AsJoin(keyword: string, r: Remainder): Join { Join(Trim(keyword), Trim(r.table), Trim(r.on)) }

  lemma SplitAfterFits(table: string, afterOn: string)
    ensures var r := SplitAfter(table, afterOn); |r.on| + |r.tail| <= |afterOn| && r.table == table
  {
    var next := FindJoin(afterOn).0;
    FindJoinFits(afterOn);
    if next >= 0 {
      TrimIs(afterOn[..next]);
      TrimIs(afterOn[next..]);
    }
  }

  /** The pieces of a remainder, and the word between them, fit into it. */
  lemma SplitFits(input: string)
    ensures var r := SplitRemainder(input);
      && |r.table| + |r.on| + |r.tail| <= |input|
      && (r.on != "" || r.tail != "" ==> |r.table| + |ON| + |r.on| + |r.tail| <= |input|)
  {
    var on := Find(OUT, input, ON);
    if on >= 0 {
      TrimIs(input[..on]);
      TrimIs(input[on + |ON|..]);
      SplitAfterFits(Trim(input[..on]), Trim(input[on + |ON|..]));
    }
  }

  /** The text after the keyword that was found. */
  function AfterKeyword(s: string): string
    requires FindJoin(s).0 >= 0
  {
    FindJoinFits(s);
    Trim(s[FindJoin(s).0 + |FindJoin(s).1|..])
  }

  lemma AfterFits(s: string)
    requires FindJoin(s).0 >= 0
    ensures |AfterKeyword(s)| + |FindJoin(s).1| + FindJoin(s).0 <= |s| && |FindJoin(s).1| >= 6
  {
    FindJoinFits(s);
    TrimIs(s[FindJoin(s).0 + |FindJoin(s).1|..]);
  }

  lemma TailShorter(s: string)
    requires FindJoin(s).0 >= 0
    ensures |Trim(SplitRemainder(AfterKeyword(s)).tail)| < |s|
  {
    AfterFits(s);
    SplitFits(AfterKeyword(s));
    TrimIs(SplitRemainder(AfterKeyword(s)).tail);
  }

  /** The joins after the first one. */
  function AppendJoins(remaining: string): seq<Join>
    decreases |remaining|
  {
    if Trim(remaining) == "" || FindJoin(remaining).0 < 0 then []
    else
      var r := SplitRemainder(AfterKeyword(remaining));
      TailShorter(remaining);
      [AsJoin(FindJoin(remaining).1, r)] + AppendJoins(Trim(r.tail))
  }

  function MySqlFrom(base: string, joins: seq<Join>): (string, seq<Join>)
    decreases |base|
  {
    if FindJoin(base).0 < 0 then (Trim(base), joins)
    else
      var r := SplitRemainder(AfterKeyword(base));
      var table := Trim(base[..FindJoin(base).0]);
      TailShorter(base);
      var more := joins + [AsJoin(FindJoin(base).1, r)];
      if table != "" then (table, more + AppendJoins(Trim(r.tail))) else MySqlFrom(Trim(r.tail), more)
  }

  /** The base table and the joins of a FROM clause. */
  function MySqlFromAndJoins(input: string): (string, seq<Join>) { MySqlFrom(Trim(input), []) }

  // ----- the SELECT reader around it

  function MySqlLimitOf(after: string, l: int): Outcome<Option<Limit>>
    requires l < 0 || l + |LIMIT| <= |after|
  {
    if l < 0 then Ok(None)
    else match MySqlLimit(after[l + |LIMIT|..]) case Ok(x) => Ok(Some(x)) case _ => Failed
  }

  function MySqlClausesAt(columns: seq<string>, after: string, w: int, o: int, l: int): Outcome<Statement>
    requires Earliest(w, o, l) <= |after| && (l < 0 || l + |LIMIT| <= |after|)
  {
    Assembled(columns, MySqlFromAndJoins(FromPart(after, w, o, l)), after, w, o, l, MySqlLimitOf(after, l))
  }

  function MySqlClauses(columns: seq<string>, after: string): Outcome<Statement> {
    MySqlClausesAt(columns, after, Find(OUT, after, WHERE), Find(OUT, after, ORDER_BY), Find(OUT, after, LIMIT))
  }

  function MySqlSelect(sql: string): Outcome<Statement>
    requires |sql| >= |SELECT|
  {
    var body := Trim(sql[|SELECT|..]);
    var from := Find(OUT, body, FROM);
    if from < 0 then Ok(Raw(sql)) else MySqlClauses(Split(body[..from]), body[from + |FROM|..])
  }

  // ----- reading what was written

  lemma SplitWritten(table: string, y: string)
    requires Solid(table) && Free(table, ON) && Trim(y) == y
    ensures SplitRemainder(table + (ON + y)) == SplitAfter(table, y)
  {
    OnAfter(table, y);
    Halves(table, ON, y);
    TrimTrimmed(table);
  }

  lemma AfterWritten(table: string, on: string, rest: string, kw: string)
    requires Solid(on) && JoinFree(on) && JoinOrEnd(rest, kw)
    ensures SplitAfter(table, on + rest) == Remainder(table, on, if rest == "" then "" else rest[1..])
  {
    FromFound(on, rest, kw);
    SplitAtPlace(table, on, rest);
    assert Asked(0);
  }

  lemma SplitAtPlace(table: string, on: string, rest: string)
    requires Solid(on) && SpaceNext(rest) && (rest != "" ==> Trimmed(rest[1..]))
    ensures SplitOnAt(table, on + rest, Shift(|on|, Start(rest))) == Remainder(table, on, if rest == "" then "" else rest[1..])
  {
    var y := on + rest;
    if rest == "" {
      assert y == on;
    } else {
      assert y[..|on|] == on && y[|on|..] == rest && rest == " " + rest[1..];
      TrimTrimmed(on);
      TrimLead(rest[1..]);
    }
  }

  /** A found join: where it is, its keyword and the text after it. (Looked into only where Asked(0) is asserted.) */
  ghost predicate KeywordGives(s: string, i: nat, kw: string, after: string) {
    forall z {:trigger Asked(z)} :: Asked(z) ==> FindJoin(s) == (i, kw) && AfterKeyword(s) == after
  }

  lemma KeywordWritten(from: string, kind: string, x: string)
    requires JoinKind(kind) && Trimmed(x) && JoinFound(from + (KeywordOf(kind) + x), |from|, KeywordOf(kind))
    ensures KeywordGives(from + (KeywordOf(kind) + x), |from|, KeywordOf(kind), x)
  {
    var s := from + (KeywordOf(kind) + x);
    assert Asked(0);
    Halves(from, KeywordOf(kind), x);
    TrimTrimmed(x);
  }

  /** What the loop answers for a FROM clause. (Looked into only where Asked(0) is asserted.) */
  ghost predicate LoopGives(s: string, from: string, j: Join, tail: string) {
    forall z {:trigger Asked(z)} :: Asked(z) ==> MySqlFrom(s, []) == (from, [j] + AppendJoins(tail))
  }

  lemma BaseRead(s: string, from: string, kw: string, after: string, r: Remainder)
    requires from != "" && from <= s && Trim(from) == from && KeywordGives(s, |from|, kw, after) && SplitRemainder(after) == r
    ensures LoopGives(s, from, AsJoin(kw, r), Trim(r.tail))
  {
    assert Asked(0);
    assert s[..|from|] == from;
    assert [] + [AsJoin(kw, r)] == [AsJoin(kw, r)];
  }

  function TailOf(rest: string): string { if rest == "" then "" else rest[1..] }

  lemma RemainderWritten(j: Join, rest: string, kw: string)
    requires GoodJoin(j) && JoinOrEnd(rest, kw)
    ensures var x := j.table + (ON + (j.on + rest));
      Trimmed(x) && SplitRemainder(x) == Remainder(j.table, j.on, TailOf(rest))
  {
    var y := j.on + rest;
    OnWithRest(j.on, rest);
    TrimmedAround(j.table, ON, y);
    SplitWritten(j.table, y);
    AfterWritten(j.table, j.on, rest, kw);
  }

  lemma JoinRebuilt(j: Join, r: Remainder)
    requires GoodJoin(j) && r.table == j.table && r.on == j.on
    ensures AsJoin(KeywordOf(j.kind), r) == j
  {
    KindRead(j.kind);
    TrimTrimmed(j.table);
    TrimTrimmed(j.on);
  }

  lemma WrittenKeyword(from: string, j: Join, rest: string, x: string)
    requires Solid(from) && JoinFree(from) && JoinKind(j.kind) && Trimmed(x)
    requires JoinOrEnd(KeywordOf(j.kind) + x, KeywordOf(j.kind))
    ensures KeywordGives(from + (KeywordOf(j.kind) + x), |from|, KeywordOf(j.kind), x)
  {
    FromFound(from, KeywordOf(j.kind) + x, KeywordOf(j.kind));
    KeywordWritten(from, j.kind, x);
  }

  lemma OneJoinRead(from: string, j: Join, rest: string, next: string, x: string)
    requires Solid(from) && JoinFree(from) && GoodJoin(j) && x == j.table + (ON + (j.on + rest)) && JoinOrEnd(rest, next)
    requires JoinOrEnd(KeywordOf(j.kind) + x, KeywordOf(j.kind))
    ensures LoopGives(from + (KeywordOf(j.kind) + x), from, j, TailOf(rest))
  {
    var r := Remainder(j.table, j.on, TailOf(rest));
    RemainderWritten(j, rest, next);
    WrittenKeyword(from, j, rest, x);
    TrimTrimmed(from);
    BaseRead(from + (KeywordOf(j.kind) + x), from, KeywordOf(j.kind), x, r);
    JoinRebuilt(j, r);
    TrimTrimmed(TailOf(rest));
  }

  lemma SpelledJoins(js: seq<Join>)
    requires js != []
    ensures JoinsText(js) == KeywordOf(js[0].kind) + (js[0].table + (ON + (js[0].on + JoinsText(js[1..]))))
  {
    JoinsTextTail(js);
  }

  /** The first join is read, and the rest is looked for in the trimmed tail. */
  lemma FirstJoinRead(from: string, js: seq<Join>)
    requires Solid(from) && JoinFree(from) && GoodJoins(js) && js != []
    ensures LoopGives(from + JoinsText(js), from, js[0], TailOf(JoinsText(js[1..])))
    ensures Trim(from + JoinsText(js)) == from + JoinsText(js)
  {
    var j, rest := js[0], JoinsText(js[1..]);
    assert GoodJoin(j);
    JoinsTextShape(js);
    JoinsTextShape(js[1..]);
    SpelledJoins(js);
    OneJoinRead(from, j, rest, FirstKeyword(js[1..]), j.table + (ON + (j.on + rest)));
    OnWithRest(from, JoinsText(js));
  }

  // ----- what comes back of many joins

  /** What is read of the joins behind one that was read: a JOIN is lost, and the join after it is read as it
      is; a LEFT or INNER JOIN is read as a JOIN. */
  function Survivors(js: seq<Join>): seq<Join> {
    if js == [] then []
    else if js[0].kind == "JOIN" then Intact(js[1..])
    else [Join("JOIN", js[0].table, js[0].on)] + Survivors(js[1..])
  }

  function Intact(js: seq<Join>): seq<Join> {
    if js == [] then [] else [js[0]] + Survivors(js[1..])
  }

  /** What a JOIN loses with it holds no join keyword. */
  predicate PlainTables(js: seq<Join>) {
    forall i :: 0 <= i < |js| && js[i].kind == "JOIN" ==> JoinFree(js[i].table)
  }

  /** Looked into only where Asked(0) is asserted. */
  ghost predicate AppendsTo(t: string, js: seq<Join>) {
    forall z {:trigger Asked(z)} :: Asked(z) ==> AppendJoins(t) == js
  }

  lemma AppendStep(s: string, i: nat, kw: string, after: string, j: Join, rest: string, more: seq<Join>)
    requires s != "" && Trimmed(s) && Trimmed(rest) && KeywordGives(s, i, kw, after) && AppendsTo(rest, more)
    requires SplitRemainder(after).tail == rest && AsJoin(kw, SplitRemainder(after)) == j
    ensures AppendsTo(s, [j] + more)
  {
    assert Asked(0);
    TrimTrimmed(s);
    TrimTrimmed(rest);
  }

  /** A text that starts with a join, but for the words before it. */
  lemma JoinInTail(from: string, j: Join, rest: string, next: string, more: seq<Join>)
    requires GoodJoin(j) && JoinOrEnd(rest, next) && AppendsTo(TailOf(rest), more)
    requires var s := from + (KeywordOf(j.kind) + (j.table + (ON + (j.on + rest))));
      s != "" && Trimmed(s) && JoinFound(s, |from|, KeywordOf(j.kind))
    ensures AppendsTo(from + (KeywordOf(j.kind) + (j.table + (ON + (j.on + rest)))), [j] + more)
  {
    var x := j.table + (ON + (j.on + rest));
    RemainderWritten(j, rest, next);
    KeywordWritten(from, j.kind, x);
    JoinRebuilt(j, SplitRemainder(x));
    AppendStep(from + (KeywordOf(j.kind) + x), |from|, KeywordOf(j.kind), x, j, TailOf(rest), more);
  }

  /** The word before JOIN is passed over. */
  lemma WordPassed(w: string, x: string)
    requires w == "LEFT" || w == "INNER"
    ensures JoinFound(w + (JOIN + x), |w|, JOIN)
  {
    PlainJoinHere(x);
    WordIsQuiet(w, JOIN + x, LEFT_JOIN);
    WordIsQuiet(w, JOIN + x, INNER_JOIN);
    WordIsQuiet(w, JOIN + x, JOIN);
    assert JoinFound(JOIN + x, 0, JOIN);
    FindJoinShift(w + (JOIN + x), w, JOIN + x, 0, JOIN);
  }

  lemma QuietJoinsAppend(a: string, b: string, rest: string)
    requires QuietForJoins(a, b + rest) && Run(OUT, a) == OUT && QuietForJoins(b, rest)
    ensures QuietForJoins(a + b, rest)
  {
    QuietAppend(OUT, a, b, rest, LEFT_JOIN);
    QuietAppend(OUT, a, b, rest, INNER_JOIN);
    QuietAppend(OUT, a, b, rest, JOIN);
  }

  lemma WordQuiet(w: string, rest: string)
    requires w == "JOIN" || w == " ON"
    ensures QuietForJoins(w, rest) && Run(OUT, w) == OUT
  {
    if w == "JOIN" {
      WordIsQuiet(w, rest, LEFT_JOIN);
      WordIsQuiet(w, rest, INNER_JOIN);
      WordIsQuiet(w, rest, JOIN);
    } else {
      assert w[1..] == "ON" && (w + rest)[1] == 'O';
      WordIsQuiet("ON", rest, LEFT_JOIN);
      WordIsQuiet("ON", rest, INNER_JOIN);
      WordIsQuiet("ON", rest, JOIN);
      NotHere(w + rest, LEFT_JOIN, 1);
      NotHere(w + rest, INNER_JOIN, 1);
      NotHere(w + rest, JOIN, 1);
    }
  }

  /** A JOIN without the space before it is not found, so its table and condition are passed over. */
  lemma JoinPassed(table: string, on: string, rest: string)
    requires Calm(table) && JoinFree(table) && Calm(on) && JoinFree(on) && SpaceNext(rest)
    ensures var p := "JOIN" + (" " + table + (" ON" + (" " + on))); QuietForJoins(p, rest) && Run(OUT, p) == OUT
  {
    var d := " " + on;
    var c, b := " ON" + d, " " + table;
    JoinFreeIsQuiet(on, rest);
    WordQuiet(" ON", d + rest);
    QuietJoinsAppend(" ON", d, rest);
    JoinFreeIsQuiet(table, c + rest);
    CalmSpaced(table);
    QuietJoinsAppend(b, c, rest);
    WordQuiet("JOIN", (b + c) + rest);
    QuietJoinsAppend("JOIN", b + c, rest);
    CalmSpaced(on);
    RunAppend(OUT, " ON", d);
    RunAppend(OUT, b, c);
    RunAppend(OUT, "JOIN", b + c);
  }

  lemma NothingAppended(t: string)
    requires JoinFound(t, -1, "")
    ensures AppendsTo(t, [])
  {
    assert Asked(0);
  }

  /** A JOIN up to the end of its condition. */
  function LostText(table: string, on: string): string { "JOIN" + (" " + table + (" ON" + (" " + on))) }

  lemma LostSpelled(j: Join, rest: string)
    requires j.kind == "JOIN"
    ensures JoinText(j, rest) == LostText(j.table, j.on) + rest
  {
  }

  lemma LostFound(j: Join, js: seq<Join>)
    requires GoodJoin(j) && j.kind == "JOIN" && JoinFree(j.table) && GoodJoins(js)
    ensures var p, rest := LostText(j.table, j.on), JoinsText(js); JoinFound(p + rest, Shift(|p|, Start(rest)), FirstKeyword(js))
  {
    var p, rest := LostText(j.table, j.on), JoinsText(js);
    JoinsTextShape(js);
    JoinPassed(j.table, j.on, rest);
    JoinOrEndFound(rest, FirstKeyword(js));
    FindJoinShift(p + rest, p, rest, Start(rest), FirstKeyword(js));
  }

  /** The texts of joins are trimmed. */
  lemma JoinTextsTrimmed(j: Join, js: seq<Join>)
    requires GoodJoin(j) && GoodJoins(js)
    ensures Trimmed(JoinText(j, JoinsText(js))) && JoinText(j, JoinsText(js)) != ""
  {
    JoinsTextShape(js);
    JoinTextTrimmed(j, JoinsText(js));
  }

  lemma NextInTail(t: string, p: string, js: seq<Join>, more: seq<Join>)
    requires GoodJoins(js) && js != [] && AppendsTo(TailOf(JoinsText(js[1..])), more)
    requires t == p + JoinsText(js) && t != "" && Trimmed(t) && JoinFound(t, |p|, FirstKeyword(js))
    ensures AppendsTo(t, [js[0]] + more)
  {
    SpelledJoins(js);
    JoinsTextShape(js[1..]);
    assert GoodJoin(js[0]);
    JoinInTail(p, js[0], JoinsText(js[1..]), FirstKeyword(js[1..]), more);
  }

  lemma PrefixLost(t: string, p: string, js: seq<Join>, more: seq<Join>)
    requires GoodJoins(js) && t == p + JoinsText(js) && t != "" && Trimmed(t)
    requires JoinFound(t, Shift(|p|, Start(JoinsText(js))), FirstKeyword(js))
    requires js != [] ==> AppendsTo(TailOf(JoinsText(js[1..])), more)
    ensures AppendsTo(t, if js == [] then [] else [js[0]] + more)
  {
    if js == [] {
      NothingAppended(t);
    } else {
      JoinsTextTail(js);
      NextInTail(t, p, js, more);
    }
  }

  /** Behind a JOIN that is not found, the next join is read as it is. */
  lemma BehindLost(j: Join, js: seq<Join>, more: seq<Join>)
    requires GoodJoin(j) && j.kind == "JOIN" && JoinFree(j.table) && GoodJoins(js)
    requires js != [] ==> AppendsTo(TailOf(JoinsText(js[1..])), more)
    ensures AppendsTo(JoinText(j, JoinsText(js)), if js == [] then [] else [js[0]] + more)
  {
    LostSpelled(j, JoinsText(js));
    LostFound(j, js);
    JoinTextsTrimmed(j, js);
    PrefixLost(JoinText(j, JoinsText(js)), LostText(j.table, j.on), js, more);
  }

  function SecondWord(kind: string): string { if kind == "LEFT JOIN" then "LEFT" else "INNER" }

  lemma SecondSpelled(j: Join, rest: string)
    requires JoinKind(j.kind) && j.kind != "JOIN"
    ensures JoinText(j, rest) == SecondWord(j.kind) + (JOIN + (j.table + (ON + (j.on + rest))))
  {
    assert j.kind == SecondWord(j.kind) + " JOIN";
  }

  /** A LEFT or INNER JOIN without the space before it is found at its second word. */
  lemma ReadAsJoin(j: Join, js: seq<Join>, more: seq<Join>)
    requires GoodJoin(j) && j.kind != "JOIN" && GoodJoins(js) && AppendsTo(TailOf(JoinsText(js)), more)
    ensures AppendsTo(JoinText(j, JoinsText(js)), [Join("JOIN", j.table, j.on)] + more)
  {
    var rest, w := JoinsText(js), SecondWord(j.kind);
    JoinsTextShape(js);
    JoinTextsTrimmed(j, js);
    SecondSpelled(j, rest);
    WordPassed(w, j.table + (ON + (j.on + rest)));
    PlainInTail(w, j, rest, FirstKeyword(js), more);
  }

  lemma PlainInTail(w: string, j: Join, rest: string, next: string, more: seq<Join>)
    requires GoodJoin(j) && JoinOrEnd(rest, next) && AppendsTo(TailOf(rest), more)
    requires var s := w + (JOIN + (j.table + (ON + (j.on + rest)))); s != "" && Trimmed(s) && JoinFound(s, |w|, JOIN)
    ensures AppendsTo(w + (JOIN + (j.table + (ON + (j.on + rest)))), [Join("JOIN", j.table, j.on)] + more)
  {
    assert KeywordOf("JOIN") == JOIN;
    JoinInTail(w, Join("JOIN", j.table, j.on), rest, next, more);
  }

  lemma {:induction false} TailSurvives(js: seq<Join>)
    requires GoodJoins(js) && PlainTables(js)
    ensures AppendsTo(TailOf(JoinsText(js)), Survivors(js))
  {
    if js == [] {
      NothingToAppend();
    } else {
      JoinsTextTail(js);
      assert GoodJoin(js[0]) && GoodJoins(js[1..]) && PlainTables(js[1..]);
      if js[0].kind != "JOIN" {
        TailSurvives(js[1..]);
        ReadAsJoin(js[0], js[1..], Survivors(js[1..]));
      } else {
        if |js| > 1 { TailSurvives(js[1..][1..]); }
        BehindLost(js[0], js[1..], if |js| > 1 then Survivors(js[1..][1..]) else []);
      }
    }
  }

  lemma FromSurvives(s: string, from: string, j: Join, tail: string, more: seq<Join>)
    requires LoopGives(s, from, j, tail) && AppendsTo(tail, more) && Trim(s) == s
    ensures MySqlFromAndJoins(s) == (from, [j] + more)
  {
    assert Asked(0);
  }

  /** What the MySQL reader makes of any FROM clause: the first join comes back, and of every join after one
      that was read a JOIN is lost and another one is read as a JOIN. */
  lemma MySqlJoinsRead(from: string, js: seq<Join>)
    requires Solid(from) && JoinFree(from) && GoodJoins(js) && (js != [] ==> PlainTables(js[1..]))
    ensures MySqlFromAndJoins(from + JoinsText(js)) == (from, Intact(js))
  {
    if js == [] {
      NoJoinsRead(from);
    } else {
      FirstJoinRead(from, js);
      TailSurvives(js[1..]);
      FromSurvives(from + JoinsText(js), from, js[0], TailOf(JoinsText(js[1..])), Survivors(js[1..]));
    }
  }

  // ----- what is read from a text fits into it

  lemma KeywordFound(s: string)
    requires FindJoin(s).0 >= 0
    ensures var kw := FindJoin(s).1; kw == LEFT_JOIN || kw == INNER_JOIN || kw == JOIN
  {
  }

  lemma KindOf(kw: string) returns (kind: string)
    requires kw == LEFT_JOIN || kw == INNER_JOIN || kw == JOIN
    ensures JoinKind(kind) && kw == KeywordOf(kind)
  {
    if kw == LEFT_JOIN {
      kind := "LEFT JOIN";
      assert KeywordOf("LEFT JOIN") == LEFT_JOIN;
    } else if kw == INNER_JOIN {
      kind := "INNER JOIN";
      assert KeywordOf("INNER JOIN") == INNER_JOIN;
    } else {
      kind := "JOIN";
      assert KeywordOf("JOIN") == JOIN;
    }
  }

  predicate AllOn(js: seq<Join>) { forall i :: 0 <= i < |js| ==> js[i].on != "" }

  lemma JoinTextLength(j: Join, rest: string)
    ensures |" " + JoinText(j, rest)| == |j.kind| + |j.table| + |j.on| + |ON| + 2 + |rest|
  {
  }

  lemma ReadFits(kw: string, r: Remainder, rest: seq<Join>, room: int)
    requires (kw == LEFT_JOIN || kw == INNER_JOIN || kw == JOIN) && Trim(r.on) != ""
    requires r.on != "" || r.tail != "" ==> |r.table| + |ON| + |r.on| + |r.tail| <= room
    requires |JoinsText(rest)| <= |Trim(r.tail)|
    ensures |JoinsText([AsJoin(kw, r)] + rest)| <= |kw| + room
  {
    var kind := KindOf(kw);
    KindRead(kind);
    TrimIs(r.table);
    TrimIs(r.on);
    TrimIs(r.tail);
    var js := [AsJoin(kw, r)] + rest;
    assert js[0] == AsJoin(kw, r) && js[1..] == rest;
    JoinsTextTail(js);
    JoinTextLength(js[0], JoinsText(rest));
  }

  lemma {:induction false} AppendFits(t: string)
    requires AllOn(AppendJoins(t))
    ensures |JoinsText(AppendJoins(t))| <= |t|
    decreases |t|
  {
    if Trim(t) != "" && FindJoin(t).0 >= 0 {
      var r, kw := SplitRemainder(AfterKeyword(t)), FindJoin(t).1;
      TailShorter(t);
      var rest := AppendJoins(Trim(r.tail));
      var js := [AsJoin(kw, r)] + rest;
      assert AppendJoins(t) == js;
      assert js[0].on != "" && forall i :: 0 <= i < |rest| ==> rest[i] == js[i + 1];
      AppendFits(Trim(r.tail));
      KeywordFound(t);
      SplitFits(AfterKeyword(t));
      AfterFits(t);
      ReadFits(kw, r, rest, |AfterKeyword(t)|);
    }
  }

  lemma NothingToAppend()
    ensures AppendJoins("") == []
  {
  }

  lemma GoodAllOn(js: seq<Join>)
    requires GoodJoins(js)
    ensures AllOn(js)
  {
    forall i | 0 <= i < |js| ensures js[i].on != "" { assert GoodJoin(js[i]); }
  }

  /** The tail of two or more joins does not come back: all of them would not fit into it. */
  lemma TailLost(js: seq<Join>)
    requires js != [] && GoodJoins(js)
    ensures AppendJoins(TailOf(JoinsText(js))) != js
  {
    GoodAllOn(js);
    JoinsTextTail(js);
    if AppendJoins(TailOf(JoinsText(js))) == js { AppendFits(TailOf(JoinsText(js))); }
  }

  lemma LoopDecides(s: string, from: string, j: Join, tail: string, js: seq<Join>, same: bool)
    requires LoopGives(s, from, j, tail) && Trim(s) == s && (same <==> [j] + AppendJoins(tail) == js)
    ensures MySqlFromAndJoins(s) == (from, js) <==> same
  {
    assert Asked(0);
  }

  lemma NoJoinsRead(from: string)
    requires Solid(from) && JoinFree(from)
    ensures MySqlFromAndJoins(from + JoinsText([])) == (from, [])
  {
    FromFound(from, "", "");
    assert from + "" == from;
    TrimTrimmed(from);
    assert Asked(0);
  }

  lemma OnlyOneComesBack(js: seq<Join>)
    requires js != [] && GoodJoins(js)
    ensures [js[0]] + AppendJoins(TailOf(JoinsText(js[1..]))) == js <==> |js| == 1
  {
    var more := AppendJoins(TailOf(JoinsText(js[1..])));
    assert ([js[0]] + more)[1..] == more;
    if |js| == 1 { NothingToAppend(); } else { TailLost(js[1..]); }
  }

  /**
   The MySQL reader gives a FROM clause of good pieces back exactly when it has at most one join. With a
   second join the answer is another list: the join is dropped, or a LEFT JOIN is read as a JOIN.
   */
  lemma MySqlJoinsExactly(from: string, js: seq<Join>)
    requires Solid(from) && JoinFree(from) && GoodJoins(js)
    ensures MySqlFromAndJoins(from + JoinsText(js)) == (from, js) <==> |js| <= 1
  {
    if js == [] {
      NoJoinsRead(from);
    } else {
      FirstJoinRead(from, js);
      OnlyOneComesBack(js);
      LoopDecides(from + JoinsText(js), from, js[0], TailOf(JoinsText(js[1..])), js, |js| == 1);
    }
  }
}
