/**
 FROM clauses whose join words are in any case of letters. The PostgreSQL reader finds a join in any case, but
 drops its words only when they are in capitals, so that others are left in the table name
 (internal/syntax/postgres/parser.go:198-242, internal/syntax/mysql/parser.go:194-264).
 */
module JoinsAnyCase {
  import opened Basics
  import opened Strings
  import opened TopLevel
  import opened TopLevelLaws
  import opened Statements
  import opened Readers
  import opened JoinReading
  import opened MySqlJoins
  import opened ClauseReading
  import opened LetterCase

  /** How the words of a join are spelled. */
  datatype JoinWords = JoinWords(kind: string, on: string)

  predicate Spells(w: JoinWords, j: Join) { Alike(w.kind, j.kind) && Alike(w.on, ON) }

  predicate JoinsSpelled(ws: seq<JoinWords>, js: seq<Join>) {
    |ws| == |js| && forall i :: 0 <= i < |js| ==> Spells(ws[i], js[i])
  }

  function JoinIn(j: Join, w: JoinWords, rest: string): string {
    w.kind + (" " + (j.table + (w.on + (j.on + rest))))
  }

  /** The joins with their words spelled so. */
  function JoinsIn(js: seq<Join>, ws: seq<JoinWords>): string {
    if js == [] || ws == [] then "" else " " + JoinIn(js[0], ws[0], JoinsIn(js[1..], ws[1..]))
  }

  /** What the PostgreSQL reader makes of a join: without capitals, its words stay with the table. */
  function Captured(j: Join, kind: string): Join {
    if kind == j.kind then j else Join(j.kind, kind + " " + j.table, j.on)
  }

  function AllTaken(js: seq<Join>, ws: seq<JoinWords>): seq<Join> {
    if js == [] || ws == [] then [] else [Captured(js[0], ws[0].kind)] + AllTaken(js[1..], ws[1..])
  }

  lemma {:induction false} TakenExactly(js: seq<Join>, ws: seq<JoinWords>)
    requires |ws| == |js|
    ensures AllTaken(js, ws) == js <==> forall i :: 0 <= i < |js| ==> ws[i].kind == js[i].kind
  {
    if js != [] {
      TakenExactly(js[1..], ws[1..]);
      var r := AllTaken(js, ws);
      TakenOne(js[0], ws[0].kind);
      assert r[0] == Captured(js[0], ws[0].kind) && r[1..] == AllTaken(js[1..], ws[1..]);
      if r == js { assert forall i :: 0 <= i < |js| ==> ws[i].kind == js[i].kind by { KindsTail(js, ws); } }
      if forall i :: 0 <= i < |js| ==> ws[i].kind == js[i].kind {
        assert js == [js[0]] + js[1..];
      }
    }
  }

  lemma TakenOne(j: Join, kind: string)
    ensures Captured(j, kind) == j <==> kind == j.kind
  {
    if kind != j.kind { assert |kind + " " + j.table| > |j.table|; }
  }

  lemma KindsTail(js: seq<Join>, ws: seq<JoinWords>)
    requires |ws| == |js| > 0 && ws[0].kind == js[0].kind && forall i :: 0 <= i < |js| - 1 ==> ws[1..][i].kind == js[1..][i].kind
    ensures forall i :: 0 <= i < |js| ==> ws[i].kind == js[i].kind
  {
    forall i | 0 <= i < |js| ensures ws[i].kind == js[i].kind {
      if i > 0 { assert ws[i] == ws[1..][i - 1] && js[i] == js[1..][i - 1]; }
    }
  }

  // ----- the texts are alike

  lemma JoinTwin(j: Join, w: JoinWords, rest: string, other: string)
    requires Spells(w, j) && Twins(rest, other)
    ensures Twins(JoinText(j, rest), JoinIn(j, w, other))
  {
    Seal(j.kind, w.kind) by { AlikeTurned(w.kind, j.kind); }
    Seal(ON, w.on) by { AlikeTurned(w.on, ON); }
    TwinItself(j.on);
    TwinItself(j.table);
    TwinItself(" ");
    TwinAppend(j.on, j.on, rest, other);
    TwinAppend(ON, w.on, j.on + rest, j.on + other);
    TwinAppend(j.table, j.table, ON + (j.on + rest), w.on + (j.on + other));
    TwinAppend(" ", " ", j.table + (ON + (j.on + rest)), j.table + (w.on + (j.on + other)));
    TwinAppend(j.kind, w.kind, " " + (j.table + (ON + (j.on + rest))), " " + (j.table + (w.on + (j.on + other))));
  }

  lemma AlikeTurned(s: string, t: string)
    requires Alike(s, t)
    ensures Alike(t, s)
  {
  }

  lemma {:induction false} JoinsTwin(js: seq<Join>, ws: seq<JoinWords>)
    requires JoinsSpelled(ws, js)
    ensures Twins(JoinsText(js), JoinsIn(js, ws))
  {
    if js == [] {
      TwinItself("");
    } else {
      assert Spells(ws[0], js[0]);
      JoinsTwin(js[1..], ws[1..]);
      JoinTwin(js[0], ws[0], JoinsText(js[1..]), JoinsIn(js[1..], ws[1..]));
      TwinItself(" ");
      TwinAppend(" ", " ", JoinText(js[0], JoinsText(js[1..])), JoinIn(js[0], ws[0], JoinsIn(js[1..], ws[1..])));
    }
  }

  lemma JoinOrEndTwin(rest: string, other: string, kw: string)
    requires JoinOrEnd(rest, kw) && Twins(rest, other)
    ensures JoinOrEnd(other, kw) && (rest == "" <==> other == "")
  {
    TwinLength(rest, other);
    if rest != "" {
      TwinJoinFound(rest, other, 0, kw);
      assert Alike(rest, other) by { assert Asked(0); }
      assert SameLetter(rest[0], other[0]);
      AlikeEnds(rest[1..], other[1..]);
    }
  }

  lemma JoinsInShape(js: seq<Join>, ws: seq<JoinWords>)
    requires GoodJoins(js) && JoinsSpelled(ws, js)
    ensures JoinOrEnd(JoinsIn(js, ws), FirstKeyword(js)) && (JoinsIn(js, ws) == "" <==> js == [])
  {
    JoinsTextShape(js);
    JoinsTwin(js, ws);
    JoinOrEndTwin(JoinsText(js), JoinsIn(js, ws), FirstKeyword(js));
    if js != [] { JoinsTextTail(js); }
  }

  // ----- one join of the PostgreSQL reader

  lemma KindPasses(kind: string, rest: string)
    requires JoinKind(kind)
    ensures Passes(kind, rest, ON)
  {
    if kind == "JOIN" {
      WordPasses("JOIN", rest, ON, 1);
    } else {
      var w := SecondWord(kind);
      WordPasses("JOIN", rest, ON, 1);
      WordPasses(w, " JOIN" + rest, ON, 1);
      PassesAppend(" " + w, " JOIN", rest, ON);
      assert " " + w + " JOIN" == " " + kind;
    }
    Unleaded(kind, rest, ON);
  }

  lemma OnFound(table: string, y: string)
    requires Calm(table) && Free(table, ON)
    ensures FoundAt(table + (ON + y), ON, |table|)
  {
    OnAfter(table, y);
  }

  /** With the words of the join before the table, ON is found behind the table just so. */
  lemma OnFoundLater(kind: string, table: string, y: string)
    requires JoinKind(kind) && Calm(table) && Free(table, ON)
    ensures FoundAt(kind + (" " + (table + (ON + y))), ON, |kind| + 1 + |table|)
  {
    var rest := " " + (table + (ON + y));
    KindPasses(kind, rest);
    FoundStart(ON, y);
    KeywordsAreSpaced();
    PiecePasses(table, ON + y, ON, 0);
    assert rest == (" " + table) + (ON + y);
    FoundShift(rest, " " + table, ON + y, ON, 0);
    FoundShift(kind + rest, kind, rest, ON, |table| + 1);
  }

  lemma TableAtWords(keyword: string, table: string, on: string, y: string, r: JoinRead)
    requires Trimmed(table) && Trim(y) == y && |on| == |ON| && FoundAt(table + (on + y), ON, |table|) && OnGives(keyword, table, y, r)
    ensures TableGives(keyword, table + (on + y), r)
  {
    assert Asked(0);
    Halves(table, on, y);
    TrimTrimmed(table);
  }

  lemma OnTwin(table: string, on: string, y: string)
    requires Alike(on, ON)
    ensures Twins(table + (ON + y), table + (on + y)) && |on| == |ON|
  {
    AlikeTurned(on, ON);
    TwinItself(y);
    TwinItself(table);
    Seal(ON, on);
    TwinAppend(ON, on, y, y);
    TwinAppend(table, table, ON + y, on + y);
  }

  /** Capitals are dropped, and the table is what follows them. */
  lemma CapitalsRead(j: Join, on: string, rest: string, kw: string)
    requires GoodJoin(j) && Alike(on, ON) && JoinOrEnd(rest, kw)
    ensures JoinGives(JoinIn(j, JoinWords(j.kind, on), rest), Given(j, rest))
  {
    var y := j.on + rest;
    OnWithRest(j.on, rest);
    OnIsRead(j.kind, j.table, j.on, rest, kw);
    OnFound(j.table, y);
    OnTwin(j.table, on, y);
    TwinFound(j.table + (ON + y), j.table + (on + y), ON, |j.table|);
    TableAtWords(j.kind, j.table, on, y, Given(j, rest));
    TrimmedAround(j.table, on, y);
    KindIsRead(j.kind, j.table + (on + y), Given(j, rest));
  }

  lemma NotDropped(kind: string, word: string, x: string)
    requires |word| == |kind| && word != kind
    ensures DropPrefix(word + (" " + x), kind) == word + (" " + x)
  {
    var t := word + (" " + x);
    assert t[..|word|] == word;
  }

  lemma WordsKeptRead(kind: string, word: string, x: string, r: JoinRead)
    requires JoinKind(kind) && Alike(word, kind) && word != kind && x != "" && Trimmed(x) && TableGives(kind, word + (" " + x), r)
    ensures JoinGives(word + (" " + x), r)
  {
    var text, other := kind + (" " + x), word + (" " + x);
    assert " " + text == KeywordOf(kind) + x;
    JoinHere(kind, x);
    KindRead(kind);
    KindTrimmed(kind);
    AlikeEnds(word, kind);
    TrimmedAround(word, " ", x);
    NotDropped(kind, word, x);
    WordTwin(kind, word, x);
    TwinJoinFound(" " + text, " " + other, 0, KeywordOf(kind));
    ReadJoinFound(other, KeywordOf(kind), kind, other, r);
  }

  lemma WordTwin(kind: string, word: string, x: string)
    requires Alike(word, kind)
    ensures Twins(kind + (" " + x), word + (" " + x)) && Twins(" " + (kind + (" " + x)), " " + (word + (" " + x)))
  {
    AlikeTurned(word, kind);
    Seal(kind, word);
    TwinItself(" " + x);
    TwinItself(" ");
    TwinAppend(kind, word, " " + x, " " + x);
    TwinAppend(" ", " ", kind + (" " + x), word + (" " + x));
  }

  /** Other spellings stay, and the table is read with them. */
  lemma OthersRead(j: Join, w: JoinWords, rest: string, kw: string)
    requires GoodJoin(j) && Spells(w, j) && w.kind != j.kind && JoinOrEnd(rest, kw)
    ensures JoinGives(JoinIn(j, w, rest), Given(Captured(j, w.kind), rest))
  {
    var y, table := j.on + rest, w.kind + " " + j.table;
    var x := j.table + (w.on + y);
    OnWithRest(j.on, rest);
    OnIsRead(j.kind, table, j.on, rest, kw);
    LaterTwin(j, w, y);
    assert w.kind + (" " + x) == table + (w.on + y);
    TrimmedAround(j.table, w.on, y);
    KindTrimmed(j.kind);
    AlikeEnds(w.kind, j.kind);
    TrimmedAround(w.kind, " ", j.table);
    assert table == w.kind + (" " + j.table);
    TableAtWords(j.kind, table, w.on, y, Given(Captured(j, w.kind), rest));
    WordsKeptRead(j.kind, w.kind, x, Given(Captured(j, w.kind), rest));
  }

  lemma LaterTwin(j: Join, w: JoinWords, y: string)
    requires GoodJoin(j) && Spells(w, j)
    ensures FoundAt(w.kind + (" " + (j.table + (w.on + y))), ON, |w.kind| + 1 + |j.table|)
  {
    OnFoundLater(j.kind, j.table, y);
    OnTwin(j.table, w.on, y);
    var a, b := j.table + (ON + y), j.table + (w.on + y);
    TwinItself(" ");
    TwinAppend(" ", " ", a, b);
    AlikeTurned(w.kind, j.kind);
    Seal(j.kind, w.kind);
    TwinAppend(j.kind, w.kind, " " + a, " " + b);
    TwinFound(j.kind + (" " + a), w.kind + (" " + b), ON, |j.kind| + 1 + |j.table|);
  }

  lemma JoinInRead(j: Join, w: JoinWords, rest: string, kw: string)
    requires GoodJoin(j) && Spells(w, j) && JoinOrEnd(rest, kw)
    ensures JoinGives(JoinIn(j, w, rest), Given(Captured(j, w.kind), rest)) && JoinIn(j, w, rest) != ""
  {
    if w.kind == j.kind { CapitalsRead(j, w.on, rest, kw); } else { OthersRead(j, w, rest, kw); }
  }

  // ----- all joins of the PostgreSQL reader

  lemma JoinsInTail(js: seq<Join>, ws: seq<JoinWords>)
    requires js != [] && ws != []
    ensures JoinsIn(js, ws)[1..] == JoinIn(js[0], ws[0], JoinsIn(js[1..], ws[1..]))
  {
  }

  lemma {:induction false} JoinsInRead(js: seq<Join>, ws: seq<JoinWords>)
    requires GoodJoins(js) && JoinsSpelled(ws, js) && js != []
    ensures JoinsGive(JoinsIn(js, ws)[1..], AllTaken(js, ws))
  {
    var j, w, rest := js[0], ws[0], JoinsIn(js[1..], ws[1..]);
    assert GoodJoin(j) && Spells(w, j);
    assert GoodJoins(js[1..]) && JoinsSpelled(ws[1..], js[1..]);
    JoinsInShape(js[1..], ws[1..]);
    JoinsInTail(js, ws);
    JoinInRead(j, w, rest, FirstKeyword(js[1..]));
    if |js| > 1 { JoinsInRead(js[1..], ws[1..]); }
    JoinsStep(JoinIn(j, w, rest), Captured(j, w.kind), rest, AllTaken(js[1..], ws[1..]));
  }

  /** What the PostgreSQL reader makes of a FROM clause whose join words are in any case. */
  lemma PostgresJoinsRead(from: string, js: seq<Join>, ws: seq<JoinWords>)
    requires Solid(from) && JoinFree(from) && GoodJoins(js) && JoinsSpelled(ws, js)
    ensures FromGives(from + JoinsIn(js, ws), from, AllTaken(js, ws))
  {
    var rest, kw := JoinsIn(js, ws), FirstKeyword(js);
    JoinsInShape(js, ws);
    FromFound(from, rest, kw);
    if js != [] { JoinsInRead(js, ws); }
    FromParts(from, rest, kw, AllTaken(js, ws));
  }

  // ----- the MySQL reader

  lemma MySqlRemainder(j: Join, w: JoinWords, rest: string, kw: string)
    requires GoodJoin(j) && Alike(w.on, ON) && JoinOrEnd(rest, kw)
    ensures var x := j.table + (w.on + (j.on + rest)); Trimmed(x) && x != "" && SplitRemainder(x) == Remainder(j.table, j.on, TailOf(rest))
  {
    var y := j.on + rest;
    OnWithRest(j.on, rest);
    TrimmedAround(j.table, w.on, y);
    OnAfter(j.table, y);
    OnTwin(j.table, w.on, y);
    TwinFind(j.table + (ON + y), j.table + (w.on + y), ON);
    Halves(j.table, w.on, y);
    TrimTrimmed(j.table);
    AfterWritten(j.table, j.on, rest, kw);
  }

  lemma MySqlKeyword(from: string, kind: string, word: string, x: string)
    requires JoinKind(kind) && Alike(word, kind) && Trimmed(x)
    requires JoinFound(from + (" " + (word + (" " + x))), |from|, KeywordOf(kind))
    ensures KeywordGives(from + (" " + (word + (" " + x))), |from|, KeywordOf(kind), x)
  {
    var s := from + (" " + (word + (" " + x)));
    var spelled := " " + word + " ";
    assert s == from + (spelled + x);
    assert Asked(0);
    Halves(from, spelled, x);
    TrimTrimmed(x);
  }

  lemma MySqlOne(from: string, j: Join, w: JoinWords, rest: string, next: string, s: string)
    requires Solid(from) && GoodJoin(j) && Spells(w, j) && JoinOrEnd(rest, next) && s == from + (" " + JoinIn(j, w, rest))
    requires JoinFound(s, |from|, KeywordOf(j.kind)) && Trimmed(TailOf(rest))
    ensures LoopGives(s, from, j, TailOf(rest))
  {
    var x, r := j.table + (w.on + (j.on + rest)), Remainder(j.table, j.on, TailOf(rest));
    MySqlRemainder(j, w, rest, next);
    MySqlKeyword(from, j.kind, w.kind, x);
    TrimTrimmed(from);
    BaseRead(s, from, KeywordOf(j.kind), x, r);
    JoinRebuilt(j, r);
    TrimTrimmed(TailOf(rest));
  }

  lemma MySqlPlaced(from: string, js: seq<Join>, ws: seq<JoinWords>)
    requires Solid(from) && JoinFree(from) && GoodJoins(js) && JoinsSpelled(ws, js) && js != []
    ensures JoinFound(from + JoinsIn(js, ws), |from|, KeywordOf(js[0].kind))
    ensures Trim(from + JoinsIn(js, ws)) == from + JoinsIn(js, ws)
  {
    JoinsInShape(js, ws);
    FromFound(from, JoinsIn(js, ws), KeywordOf(js[0].kind));
    OnWithRest(from, JoinsIn(js, ws));
  }

  /** The first join is read in any case of its words. */
  lemma MySqlFirst(from: string, js: seq<Join>, ws: seq<JoinWords>)
    requires Solid(from) && JoinFree(from) && GoodJoins(js) && JoinsSpelled(ws, js) && js != []
    ensures LoopGives(from + JoinsIn(js, ws), from, js[0], TailOf(JoinsIn(js[1..], ws[1..])))
  {
    assert GoodJoin(js[0]) && Spells(ws[0], js[0]);
    MySqlPlaced(from, js, ws);
    JoinsInShape(js[1..], ws[1..]);
    MySqlOne(from, js[0], ws[0], JoinsIn(js[1..], ws[1..]), FirstKeyword(js[1..]), from + JoinsIn(js, ws));
  }

  lemma MySqlTailLost(js: seq<Join>, ws: seq<JoinWords>)
    requires js != [] && GoodJoins(js) && JoinsSpelled(ws, js)
    ensures AppendJoins(TailOf(JoinsIn(js, ws))) != js
  {
    var t := TailOf(JoinsIn(js, ws));
    GoodAllOn(js);
    JoinsTwin(js, ws);
    TwinLength(JoinsText(js), JoinsIn(js, ws));
    JoinsTextTail(js);
    if AppendJoins(t) == js { AppendFits(t); }
  }

  lemma MySqlOnlyOne(js: seq<Join>, ws: seq<JoinWords>)
    requires js != [] && GoodJoins(js) && JoinsSpelled(ws, js)
    ensures [js[0]] + AppendJoins(TailOf(JoinsIn(js[1..], ws[1..]))) == js <==> |js| == 1
  {
    var more := AppendJoins(TailOf(JoinsIn(js[1..], ws[1..])));
    assert ([js[0]] + more)[1..] == more;
    if |js| == 1 { NothingToAppend(); } else { MySqlTailLost(js[1..], ws[1..]); }
  }

  /** The case of the letters makes no difference to the MySQL reader: it gives a FROM clause back exactly when
      there is at most one join. */
  lemma MySqlAnyCaseExactly(from: string, js: seq<Join>, ws: seq<JoinWords>)
    requires Solid(from) && JoinFree(from) && GoodJoins(js) && JoinsSpelled(ws, js)
    ensures MySqlFromAndJoins(from + JoinsIn(js, ws)) == (from, js) <==> |js| <= 1
  {
    if js == [] {
      NoJoinsRead(from);
    } else {
      MySqlFirst(from, js, ws);
      MySqlPlaced(from, js, ws);
      MySqlOnlyOne(js, ws);
      LoopDecides(from + JoinsIn(js, ws), from, js[0], TailOf(JoinsIn(js[1..], ws[1..])), js, |js| == 1);
    }
  }
}
