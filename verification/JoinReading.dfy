/**
 The PostgreSQL reader recovers the joins of a FROM clause as it was written
 (internal/syntax/postgres/parser.go:198-240).
 */
module JoinReading {
  import opened Basics
  import opened Strings
  import opened TopLevel
  import opened TopLevelLaws
  import opened Statements
  import opened Readers

  predicate JoinKind(k: string) { k == "JOIN" || k == "LEFT JOIN" || k == "INNER JOIN" }

  predicate Solid(p: string) { p != "" && Trimmed(p) && Calm(p) }

  /** No join keyword is in the piece, and none is completed by a JOIN after it. */
  predicate JoinFree(p: string) {
    && Free(p, LEFT_JOIN) && Free(p, INNER_JOIN) && Free(p, JOIN)
    && !EndsWith(" " + p, " LEFT") && !EndsWith(" " + p, " INNER")
  }

  predicate GoodJoin(j: Join) {
    JoinKind(j.kind) && Solid(j.table) && Solid(j.on) && Free(j.table, ON) && JoinFree(j.on)
  }

  predicate GoodJoins(js: seq<Join>) {
    forall i :: 0 <= i < |js| ==> GoodJoin(js[i])
  }

  /** One join and what follows it, as written. */
  function JoinText(j: Join, rest: string): string {
    j.kind + (" " + (j.table + (" ON " + (j.on + rest))))
  }

  function JoinsText(js: seq<Join>): string {
    if js == [] then "" else " " + JoinText(js[0], JoinsText(js[1..]))
  }

  lemma KeywordsAreSpaced()
    ensures Keyword(LEFT_JOIN, 5) && LEFT_JOIN[..5] == " LEFT"
    ensures Keyword(INNER_JOIN, 6) && INNER_JOIN[..6] == " INNER"
    ensures Keyword(JOIN, 0) && Keyword(ON, 0)
  {
  }

  lemma NotHere(s: string, kw: string, i: nat)
    requires i < |kw| && i < |s| && UpperChar(s[i]) != UpperChar(kw[i])
    ensures Find(OUT, s, kw) != 0 && !Matches(s, kw)
  {
  }

  lemma Picked(s: string, kw: string)
    requires kw == LEFT_JOIN || kw == INNER_JOIN || kw == JOIN
    requires Find(OUT, s, LEFT_JOIN) == 0 <==> kw == LEFT_JOIN
    requires Find(OUT, s, INNER_JOIN) == 0 <==> kw == INNER_JOIN
    requires Find(OUT, s, JOIN) == 0 <==> kw == JOIN
    ensures FindJoin(s) == (0, kw)
  {
  }

  lemma LeftJoinHere(rest: string)
    ensures FindJoin(LEFT_JOIN + rest) == (0, LEFT_JOIN)
  {
    var s := LEFT_JOIN + rest;
    FoundHere(LEFT_JOIN, rest);
    NotHere(s, INNER_JOIN, 1);
    NotHere(s, JOIN, 1);
    Picked(s, LEFT_JOIN);
  }

  lemma InnerJoinHere(rest: string)
    ensures FindJoin(INNER_JOIN + rest) == (0, INNER_JOIN)
  {
    var s := INNER_JOIN + rest;
    FoundHere(INNER_JOIN, rest);
    NotHere(s, LEFT_JOIN, 1);
    NotHere(s, JOIN, 1);
    Picked(s, INNER_JOIN);
  }

  lemma PlainJoinHere(rest: string)
    ensures FindJoin(JOIN + rest) == (0, JOIN)
  {
    var s := JOIN + rest;
    FoundHere(JOIN, rest);
    NotHere(s, LEFT_JOIN, 1);
    NotHere(s, INNER_JOIN, 1);
    Picked(s, JOIN);
  }

  function KeywordOf(kind: string): string { " " + kind + " " }

  lemma LeadDropped(p: string)
    ensures Trim(" " + p) == Trim(p)
  {
    var t := " " + p;
    assert t[1..] == p;
    assert TrimLeft(t) == TrimLeft(p);
  }

  lemma KindTrimmed(kind: string)
    requires JoinKind(kind)
    ensures Trimmed(kind) && kind != ""
  {
  }

  lemma SpacedAssoc(p: string)
    ensures " " + p + " " == " " + (p + " ")
  {
  }

  lemma SpacedRead(p: string)
    requires Trimmed(p)
    ensures Trim(" " + p + " ") == p
  {
    var q := p + " ";
    TrimTail(p);
    LeadDropped(q);
    SpacedAssoc(p);
  }

  lemma KindRead(kind: string)
    requires JoinKind(kind)
    ensures Trim(KeywordOf(kind)) == kind
  {
    KindTrimmed(kind);
    SpacedRead(kind);
  }

  /** The first join keyword of the text is kw, at i. (Looked into only where Asked(0) is asserted.) */
  ghost predicate JoinFound(s: string, i: int, kw: string) {
    forall z {:trigger Asked(z)} :: Asked(z) ==> FindJoin(s) == (i, kw)
  }

  lemma JoinHere(kind: string, rest: string)
    requires JoinKind(kind)
    ensures JoinFound(KeywordOf(kind) + rest, 0, KeywordOf(kind))
  {
    if kind == "JOIN" {
      assert KeywordOf(kind) == JOIN;
      PlainJoinHere(rest);
    } else if kind == "LEFT JOIN" {
      assert KeywordOf(kind) == LEFT_JOIN;
      LeftJoinHere(rest);
    } else {
      assert KeywordOf(kind) == INNER_JOIN;
      InnerJoinHere(rest);
    }
  }

  predicate QuietForJoins(p: string, rest: string) {
    Quiet(OUT, p, rest, LEFT_JOIN) && Quiet(OUT, p, rest, INNER_JOIN) && Quiet(OUT, p, rest, JOIN)
  }

  lemma FindJoinShift(t: string, p: string, rest: string, i: int, kw: string)
    requires t == p + rest && QuietForJoins(p, rest) && Run(OUT, p) == OUT && JoinFound(rest, i, kw)
    ensures JoinFound(t, Shift(|p|, i), kw)
  {
    assert Asked(0);
    SkipPrefix(OUT, p, rest, LEFT_JOIN);
    SkipPrefix(OUT, p, rest, INNER_JOIN);
    SkipPrefix(OUT, p, rest, JOIN);
    FindJoinFits(rest);
  }

  lemma JoinFreeIsQuiet(p: string, rest: string)
    requires JoinFree(p) && SpaceNext(rest)
    ensures QuietForJoins(" " + p, rest) && QuietForJoins(p, rest)
  {
    KeywordsAreSpaced();
    FreeIsQuiet(p, rest, LEFT_JOIN, 5);
    FreeIsQuiet(p, rest, INNER_JOIN, 6);
    FreeIsQuiet(p, rest, JOIN, 0);
    Unlead(p, rest, LEFT_JOIN);
    Unlead(p, rest, INNER_JOIN);
    Unlead(p, rest, JOIN);
  }

  lemma Unlead(p: string, rest: string, kw: string)
    requires Quiet(OUT, " " + p, rest, kw)
    ensures Quiet(OUT, p, rest, kw)
  {
    assert (" " + p)[1..] == p;
  }

  lemma NoJoinFound()
    ensures JoinFound("", -1, "")
  {
  }

  // ----- one round of the loop

  lemma Halves(a: string, b: string, c: string)
    ensures var t := a + (b + c); t[..|a|] == a && t[|a| + |b|..] == c
  {
  }

  lemma TrimmedAround(a: string, b: string, c: string)
    requires a != "" && Trimmed(a) && c != "" && Trimmed(c)
    ensures Trimmed(a + (b + c)) && Trim(a + (b + c)) == a + (b + c)
  {
    var t := a + (b + c);
    assert t[0] == a[0] && t[|t| - 1] == c[|c| - 1];
    TrimTrimmed(t);
  }

  /** What may follow an ON condition: nothing, or another join. */
  ghost predicate JoinOrEnd(rest: string, kw: string) {
    if rest == "" then kw == "" else rest[0] == ' ' && Trimmed(rest[1..]) && rest[1..] != "" && JoinFound(rest, 0, kw)
  }

  function Start(rest: string): int { if rest == "" then -1 else 0 }

  lemma JoinOrEndFound(rest: string, kw: string)
    requires JoinOrEnd(rest, kw)
    ensures JoinFound(rest, Start(rest), kw)
  {
    if rest == "" { NoJoinFound(); }
  }

  lemma OnWithRest(on: string, rest: string)
    requires Solid(on) && SpaceNext(rest) && (rest != "" ==> rest[1..] != "" && Trimmed(rest[1..]))
    ensures Trimmed(on + rest) && Trim(on + rest) == on + rest && on + rest != ""
  {
    var t := on + rest;
    assert t[0] == on[0];
    if rest == "" { assert t == on; } else { assert t[|t| - 1] == rest[1..][|rest| - 2]; }
    TrimTrimmed(t);
  }

  // The three facts below are looked into only where Asked(0) is asserted.

  ghost predicate OnGives(keyword: string, table: string, y: string, r: JoinRead) {
    forall i {:trigger Asked(i)} :: Asked(i) ==> ReadOn(keyword, table, y) == r
  }

  /** Looked into only where Asked(0) is asserted. */
  ghost predicate TableGives(keyword: string, x: string, r: JoinRead) {
    forall i {:trigger Asked(i)} :: Asked(i) ==> ReadTable(keyword, x) == r
  }

  /** Looked into only where Asked(0) is asserted. */
  ghost predicate JoinGives(remainder: string, r: JoinRead) {
    forall i {:trigger Asked(i)} :: Asked(i) ==> ReadJoin(remainder) == r
  }

  lemma JoinAfter(on: string, rest: string, kw: string)
    requires Calm(on) && JoinFree(on) && JoinOrEnd(rest, kw)
    ensures JoinFound(" " + (on + rest), Shift(|on| + 1, Start(rest)), kw)
  {
    JoinOrEndFound(rest, kw);
    JoinFreeIsQuiet(on, rest);
    CalmSpaced(on);
    var t := " " + (on + rest);
    assert t == " " + on + rest;
    FindJoinShift(t, " " + on, rest, Start(rest), kw);
  }

  lemma OnAtEnd(keyword: string, table: string, on: string)
    requires Trimmed(on)
    ensures OnAt(keyword, table, on, -1) == Last(Join(keyword, table, on))
  {
    TrimTrimmed(on);
  }

  lemma OnAtNext(keyword: string, table: string, on: string, rest: string)
    requires Trimmed(on) && rest != "" && rest[0] == ' ' && Trimmed(rest[1..])
    ensures OnAt(keyword, table, on + rest, |on| + 1) == More(Join(keyword, table, on), rest[1..])
  {
    var y, n := on + rest, |on| + 1;
    assert y[..n] == on + " " && y[n..] == rest[1..];
    TrimTail(on);
    TrimTrimmed(rest[1..]);
  }

  lemma OnAtStart(keyword: string, table: string, on: string, rest: string)
    requires Trimmed(on) && SpaceNext(rest) && (rest != "" ==> rest[1..] != "" && Trimmed(rest[1..]))
    ensures OnAt(keyword, table, on + rest, Shift(|on| + 1, Start(rest)))
         == if rest == "" then Last(Join(keyword, table, on)) else More(Join(keyword, table, on), rest[1..])
  {
    if rest == "" {
      assert on + rest == on;
      OnAtEnd(keyword, table, on);
    } else {
      OnAtNext(keyword, table, on, rest);
    }
  }

  lemma ReadOnFound(keyword: string, table: string, y: string, next: int, kw: string)
    requires JoinFound(" " + y, next, kw) && next <= |y|
    ensures OnGives(keyword, table, y, OnAt(keyword, table, y, next))
  {
    assert Asked(0);
  }

  lemma OnIsRead(keyword: string, table: string, on: string, rest: string, kw: string)
    requires Solid(on) && JoinFree(on) && JoinOrEnd(rest, kw)
    ensures OnGives(keyword, table, on + rest,
                    if rest == "" then Last(Join(keyword, table, on)) else More(Join(keyword, table, on), rest[1..]))
  {
    JoinAfter(on, rest, kw);
    ReadOnFound(keyword, table, on + rest, Shift(|on| + 1, Start(rest)), kw);
    OnAtStart(keyword, table, on, rest);
  }

  lemma OnAfter(table: string, y: string)
    requires Calm(table) && Free(table, ON)
    ensures Find(OUT, table + (ON + y), ON) == |table|
  {
    KeywordsAreSpaced();
    FreeIsQuiet(table, ON + y, ON, 0);
    Unlead(table, ON + y, ON);
    SkipPrefix(OUT, table, ON + y, ON);
    FoundHere(ON, y);
  }

  lemma TableIsRead(keyword: string, table: string, y: string, r: JoinRead)
    requires Solid(table) && Free(table, ON) && Trim(y) == y && OnGives(keyword, table, y, r)
    ensures TableGives(keyword, table + (ON + y), r)
  {
    assert Asked(0);
    OnAfter(table, y);
    Halves(table, ON, y);
    TrimTrimmed(table);
  }

  lemma ReadJoinFound(text: string, kw: string, keyword: string, x: string, r: JoinRead)
    requires JoinFound(" " + text, 0, kw) && Trim(kw) == keyword && Trim(DropPrefix(text, keyword)) == x
    requires TableGives(keyword, x, r)
    ensures JoinGives(text, r)
  {
    assert Asked(0);
  }

  lemma KindIsRead(kind: string, x: string, r: JoinRead)
    requires JoinKind(kind) && Trimmed(x) && TableGives(kind, x, r)
    ensures JoinGives(kind + (" " + x), r)
  {
    var text := kind + (" " + x);
    assert " " + text == KeywordOf(kind) + x;
    JoinHere(kind, x);
    KindRead(kind);
    assert kind <= text && text[|kind|..] == " " + x;
    TrimLead(x);
    ReadJoinFound(text, KeywordOf(kind), kind, x, r);
  }

  function Given(j: Join, rest: string): JoinRead { if rest == "" then Last(j) else More(j, rest[1..]) }

  lemma JoinIsRead(j: Join, rest: string, kw: string)
    requires GoodJoin(j) && JoinOrEnd(rest, kw)
    ensures JoinGives(JoinText(j, rest), Given(j, rest))
  {
    var y, r := j.on + rest, Given(j, rest);
    OnWithRest(j.on, rest);
    TrimmedAround(j.table, " ON ", y);
    OnIsRead(j.kind, j.table, j.on, rest, kw);
    TableIsRead(j.kind, j.table, y, r);
    KindIsRead(j.kind, j.table + (" ON " + y), r);
  }

  // ----- all joins

  lemma JoinTextTrimmed(j: Join, rest: string)
    requires GoodJoin(j) && SpaceNext(rest) && (rest != "" ==> rest[1..] != "" && Trimmed(rest[1..]))
    ensures Trimmed(JoinText(j, rest)) && JoinText(j, rest) != ""
  {
    var y := j.on + rest;
    OnWithRest(j.on, rest);
    TrimmedAround(j.table, " ON ", y);
    KindTrimmed(j.kind);
    TrimmedAround(j.kind, " ", j.table + (" ON " + y));
  }

  function FirstKeyword(js: seq<Join>): string { if js == [] then "" else KeywordOf(js[0].kind) }

  lemma {:induction false} JoinsTextShape(js: seq<Join>)
    requires GoodJoins(js)
    ensures JoinOrEnd(JoinsText(js), FirstKeyword(js))
  {
    if js != [] {
      var j, rest := js[0], JoinsText(js[1..]);
      assert GoodJoin(j);
      JoinsTextShape(js[1..]);
      JoinTextTrimmed(j, rest);
      var text, tail := JoinsText(js), j.table + (" ON " + (j.on + rest));
      assert text == KeywordOf(j.kind) + tail;
      JoinHere(j.kind, tail);
      assert text[1..] == JoinText(j, rest);
    }
  }

  /** Looked into only where Asked(0) is asserted. */
  ghost predicate JoinsGive(remainder: string, js: seq<Join>) {
    forall i {:trigger Asked(i)} :: Asked(i) ==> JoinsFrom(remainder) == js
  }

  lemma LastJoin(remainder: string, j: Join)
    requires remainder != "" && JoinGives(remainder, Last(j))
    ensures JoinsGive(remainder, [j])
  {
    assert Asked(0);
  }

  lemma NextJoin(remainder: string, j: Join, rest: string, js: seq<Join>)
    requires remainder != "" && JoinGives(remainder, More(j, rest)) && JoinsGive(rest, js)
    ensures JoinsGive(remainder, [j] + js)
  {
    assert Asked(0);
  }

  lemma JoinsTextTail(js: seq<Join>)
    requires js != []
    ensures JoinsText(js) == " " + JoinText(js[0], JoinsText(js[1..]))
    ensures JoinsText(js)[1..] == JoinText(js[0], JoinsText(js[1..]))
  {
  }

  lemma JoinsStep(t: string, j: Join, rest: string, js: seq<Join>)
    requires t != "" && JoinGives(t, Given(j, rest))
    requires rest == "" <==> js == []
    requires rest != "" ==> JoinsGive(rest[1..], js)
    ensures JoinsGive(t, [j] + js)
  {
    if rest == "" { LastJoin(t, j); } else { NextJoin(t, j, rest[1..], js); }
  }

  lemma {:induction false} JoinsAreRead(js: seq<Join>)
    requires GoodJoins(js) && js != []
    ensures JoinsGive(JoinsText(js)[1..], js)
  {
    var j, rest := js[0], JoinsText(js[1..]);
    assert GoodJoin(j);
    JoinsTextShape(js[1..]);
    JoinsTextTail(js);
    JoinTextTrimmed(j, rest);
    JoinIsRead(j, rest, FirstKeyword(js[1..]));
    if |js| > 1 {
      JoinsAreRead(js[1..]);
      JoinsTextTail(js[1..]);
    }
    JoinsStep(JoinText(j, rest), j, rest, js[1..]);
    assert [j] + js[1..] == js;
  }

  /** Looked into only where Asked(0) is asserted. */
  ghost predicate FromGives(t: string, from: string, js: seq<Join>) {
    forall i {:trigger Asked(i)} :: Asked(i) ==> FromAndJoins(t) == (from, js)
  }

  lemma FromWithoutJoins(from: string)
    requires Solid(from) && JoinFound(from, -1, "")
    ensures FromGives(from, from, [])
  {
    assert Asked(0);
    TrimTrimmed(from);
  }

  lemma FromWithJoins(from: string, rest: string, kw: string, js: seq<Join>)
    requires Solid(from) && rest != "" && Trim(from + rest) == from + rest && Trim(rest) == rest[1..]
    requires JoinFound(from + rest, |from|, kw) && JoinsGive(rest[1..], js)
    ensures FromGives(from + rest, from, js)
  {
    assert Asked(0);
    var base := from + rest;
    assert base[..|from|] == from && base[|from|..] == rest;
    TrimTrimmed(from);
  }

  lemma FromFound(from: string, rest: string, kw: string)
    requires Calm(from) && JoinFree(from) && JoinOrEnd(rest, kw)
    ensures JoinFound(from + rest, Shift(|from|, Start(rest)), kw)
  {
    JoinOrEndFound(rest, kw);
    JoinFreeIsQuiet(from, rest);
    FindJoinShift(from + rest, from, rest, Start(rest), kw);
  }

  lemma FromParts(from: string, rest: string, kw: string, js: seq<Join>)
    requires Solid(from) && JoinOrEnd(rest, kw) && (rest == "" <==> js == [])
    requires JoinFound(from + rest, Shift(|from|, Start(rest)), kw)
    requires rest != "" ==> JoinsGive(rest[1..], js)
    ensures FromGives(from + rest, from, js)
  {
    OnWithRest(from, rest);
    if rest == "" {
      assert from + rest == from;
      FromWithoutJoins(from);
    } else {
      assert rest == " " + rest[1..];
      TrimLead(rest[1..]);
      FromWithJoins(from, rest, kw, js);
    }
  }

  /** The FROM clause is read back: the base table and every join, in order. */
  lemma FromIsRead(from: string, js: seq<Join>)
    requires Solid(from) && JoinFree(from) && GoodJoins(js)
    ensures FromGives(from + JoinsText(js), from, js)
  {
    var rest, kw := JoinsText(js), FirstKeyword(js);
    JoinsTextShape(js);
    FromFound(from, rest, kw);
    if js != [] {
      JoinsTextTail(js);
      JoinsAreRead(js);
    }
    FromParts(from, rest, kw, js);
  }

  /** The FROM clause of the PostgreSQL reader, looked into. */
  lemma FromAndJoinsRead(from: string, js: seq<Join>)
    requires Solid(from) && JoinFree(from) && GoodJoins(js)
    ensures FromAndJoins(from + JoinsText(js)) == (from, js)
  {
    FromIsRead(from, js);
    assert Asked(0);
  }
}
