/**
 The clauses of a SELECT, written for PostgreSQL or MySQL, are read back
 (internal/syntax/postgres/parser.go:12-75, internal/render/render.go:106-145).
 */
module SelectReading {
  import opened Basics
  import opened Strings
  import opened Numerals
  import opened TopLevel
  import opened TopLevelLaws
  import opened Statements
  import opened Readers
  import opened JoinReading
  import opened MySqlJoins
  import opened Rendering
  import opened ClauseReading

  lemma Middle(a: string, b: string, c: string)
    ensures var t := a + (b + c); |t| == |a| + |b| + |c| && t[|a|..|a| + |b|] == b && t[|a| + |b|..] == c && t[..|a|] == a
  {
  }

  // ----- the limit clause

  lemma {:induction false} IndexSkip(w: string, rest: string, t: string)
    requires t != "" && t[0] !in w
    ensures IndexOf(w + rest, t) == Shift(|w|, IndexOf(rest, t))
  {
    if w == "" {
      assert w + rest == rest;
    } else {
      var s := w + rest;
      assert s[1..] == w[1..] + rest && s[0] == w[0];
      IndexSkip(w[1..], rest, t);
      if |s| >= |t| {
        assert s[..|t|][0] == w[0];
      } else {
        IndexFits(rest, t);
      }
    }
  }

  lemma IndexHere(t: string, rest: string)
    requires t != ""
    ensures IndexOf(t + rest, t) == 0
  {
    assert (t + rest)[..|t|] == t;
  }

  lemma UpperSame(s: string)
    requires forall i :: 0 <= i < |s| ==> UpperChar(s[i]) == s[i]
    ensures Upper(s) == s
  {
  }

  lemma NumberShape(n: int)
    ensures var w := Itoa(n); w != "" && Trimmed(w) && ' ' !in w && forall i :: 0 <= i < |w| ==> UpperChar(w[i]) == w[i]
  {
    var w := Itoa(n);
    ItoaChars(n);
    assert forall i :: 0 <= i < |w| ==> IsDigit(w[i]) || w[i] == '-';
  }

  lemma NumberRead(n: int)
    requires IsInt(n)
    ensures ReadNumber(Itoa(n)) == Ok(n)
  {
    NumberShape(n);
    TrimTrimmed(Itoa(n));
    AtoiItoa(n);
  }

  lemma CountRead(n: int)
    requires IsInt(n)
    ensures PostgresLimit(Itoa(n)) == Ok(Limit(None, n))
  {
    var w := Itoa(n);
    NumberShape(n);
    TrimTrimmed(w);
    UpperSame(w);
    IndexSkip(w, "", OFFSET);
    assert w + "" == w;
    NumberRead(n);
  }

  lemma OffsetPlace(a: string, b: string)
    requires ' ' !in a && (forall i :: 0 <= i < |a| ==> UpperChar(a[i]) == a[i]) && (forall i :: 0 <= i < |b| ==> UpperChar(b[i]) == b[i])
    requires a != "" && b != "" && Trimmed(a) && Trimmed(b)
    ensures var t := a + (OFFSET + b); Trim(t) == t && IndexOf(Upper(t), OFFSET) == |a|
  {
    var t := a + (OFFSET + b);
    TrimmedAround(a, OFFSET, b);
    UpperParts(a, b);
    UpperSame(t);
    IndexSkip(a, OFFSET + b, OFFSET);
    IndexHere(OFFSET, b);
  }

  lemma UpperParts(a: string, b: string)
    requires (forall i :: 0 <= i < |a| ==> UpperChar(a[i]) == a[i]) && (forall i :: 0 <= i < |b| ==> UpperChar(b[i]) == b[i])
    ensures var t := a + (OFFSET + b); forall i :: 0 <= i < |t| ==> UpperChar(t[i]) == t[i]
  {
    var c := OFFSET + b;
    assert forall i :: 0 <= i < |OFFSET| ==> UpperChar(OFFSET[i]) == OFFSET[i];
    forall i | 0 <= i < |c| ensures UpperChar(c[i]) == c[i] {
      if i >= |OFFSET| { assert c[i] == b[i - |OFFSET|]; } else { assert c[i] == OFFSET[i]; }
    }
    var t := a + c;
    forall i | 0 <= i < |t| ensures UpperChar(t[i]) == t[i] {
      if i >= |a| { assert t[i] == c[i - |a|]; } else { assert t[i] == a[i]; }
    }
  }

  lemma OffsetReadAt(t: string, a: string, b: string, n: int, m: int)
    requires t == a + (OFFSET + b) && IndexOf(Upper(Trim(t)), OFFSET) == |a|
    requires ReadNumber(a) == Ok(n) && ReadNumber(b) == Ok(m)
    ensures PostgresLimit(t) == Ok(Limit(Some(m), n))
  {
    Middle(a, OFFSET, b);
  }

  lemma OffsetRead(n: int, m: int)
    requires IsInt(n) && IsInt(m)
    ensures PostgresLimit(Itoa(n) + (OFFSET + Itoa(m))) == Ok(Limit(Some(m), n))
  {
    NumberShape(n);
    NumberShape(m);
    OffsetPlace(Itoa(n), Itoa(m));
    NumberRead(n);
    NumberRead(m);
    OffsetReadAt(Itoa(n) + (OFFSET + Itoa(m)), Itoa(n), Itoa(m), n, m);
  }

  predicate GoodLimit(limit: Option<Limit>) {
    limit.Some? ==> IsInt(limit.value.count) && (limit.value.offset.Some? ==> IsInt(limit.value.offset.value))
  }

  lemma LimitReadAt(t: string, p: string, text: string, l: Limit)
    requires t == p + (LIMIT + text) && PostgresLimit(text) == Ok(l)
    ensures |p| + |LIMIT| <= |t| && PostgresLimitOf(t, |p|) == Ok(Some(l))
  {
    Middle(p, LIMIT, text);
  }

  function LimitFigures(l: Limit): string {
    if l.offset.Some? then Itoa(l.count) + (OFFSET + Itoa(l.offset.value)) else Itoa(l.count)
  }

  lemma FiguresRead(l: Limit)
    requires GoodLimit(Some(l))
    ensures PostgresLimit(LimitFigures(l)) == Ok(l)
  {
    if l.offset.Some? { OffsetRead(l.count, l.offset.value); } else { CountRead(l.count); }
  }

  lemma FiguresWritten(l: Limit)
    ensures LimitText(Some(l), Postgres) == LIMIT + LimitFigures(l)
  {
  }

  lemma LimitRead(t: string, p: string, limit: Option<Limit>)
    requires GoodLimit(limit) && t == p + LimitText(limit, Postgres)
    ensures var l := Place(limit.Some?, |p|);
      (l < 0 || l + |LIMIT| <= |t|) && PostgresLimitOf(t, l) == Ok(limit)
  {
    if limit.Some? {
      FiguresWritten(limit.value);
      FiguresRead(limit.value);
      LimitReadAt(t, p, LimitFigures(limit.value), limit.value);
    }
  }

  // ----- the limit clause of MySQL, offset first

  lemma NumberPiece(n: int)
    ensures Piece(Itoa(n))
  {
    NumberShape(n);
    ItoaChars(n);
    PlainPiece(Itoa(n));
  }

  lemma {:induction false} PlainPiece(w: string)
    requires forall i :: 0 <= i < |w| ==> IsDigit(w[i]) || w[i] == '-'
    ensures Calm(w) && CommaFree(OUT, w)
  {
    if w != "" { PlainPiece(w[1..]); }
  }

  /** What the renderer writes after LIMIT for MySQL, the MySQL reader reads back. */
  lemma MySqlLimitRead(l: Limit)
    requires GoodLimit(Some(l))
    ensures LimitText(Some(l), MySql)[..|LIMIT|] == LIMIT && MySqlLimit(LimitText(Some(l), MySql)[|LIMIT|..]) == Ok(l)
  {
    NumberShape(l.count);
    NumberPiece(l.count);
    NumberRead(l.count);
    if l.offset.Some? {
      OffsetCountRead(l.offset.value, l.count);
      assert LimitText(Some(l), MySql) == LIMIT + (Itoa(l.offset.value) + (", " + Itoa(l.count)));
    } else {
      TrimTrimmed(Itoa(l.count));
      LastPiece(Itoa(l.count), "");
      assert LimitText(Some(l), MySql) == LIMIT + Itoa(l.count);
    }
  }

  lemma OffsetCountRead(m: int, n: int)
    requires IsInt(m) && IsInt(n)
    ensures MySqlLimit(Itoa(m) + (", " + Itoa(n))) == Ok(Limit(Some(m), n))
  {
    var ps := [Itoa(m), Itoa(n)];
    NumberShape(m);
    NumberShape(n);
    NumberPiece(m);
    NumberPiece(n);
    TrimmedAround(Itoa(m), ", ", Itoa(n));
    assert ps[1..] == [Itoa(n)];
    assert CommaList(ps) == Itoa(m) + (", " + Itoa(n));
    SplitList(ps, "");
    NumberRead(m);
    NumberRead(n);
  }

  function LimitOf(d: Dialect, t: string, l: int): Outcome<Option<Limit>>
    requires l < 0 || l + |LIMIT| <= |t|
  {
    if d == Postgres then PostgresLimitOf(t, l) else MySqlLimitOf(t, l)
  }

  lemma MySqlLimitReadAt(t: string, p: string, text: string, l: Limit)
    requires t == p + (LIMIT + text) && MySqlLimit(text) == Ok(l)
    ensures |p| + |LIMIT| <= |t| && MySqlLimitOf(t, |p|) == Ok(Some(l))
  {
    Middle(p, LIMIT, text);
  }

  lemma MySqlLimitAt(t: string, p: string, l: Limit)
    requires GoodLimit(Some(l)) && t == p + LimitText(Some(l), MySql)
    ensures |p| + |LIMIT| <= |t| && MySqlLimitOf(t, |p|) == Ok(Some(l))
  {
    var text := LimitText(Some(l), MySql);
    MySqlLimitRead(l);
    assert text == LIMIT + text[|LIMIT|..];
    MySqlLimitReadAt(t, p, text[|LIMIT|..], l);
  }

  predicate Read(d: Dialect) { d == Postgres || d == MySql }

  /** A limit clause is read back in the dialect it was written for. */
  lemma LimitIsRead(t: string, p: string, limit: Option<Limit>, d: Dialect)
    requires Read(d) && GoodLimit(limit) && t == p + LimitText(limit, d)
    ensures var l := Place(limit.Some?, |p|);
      (l < 0 || l + |LIMIT| <= |t|) && LimitOf(d, t, l) == Ok(limit)
  {
    if d == Postgres { LimitRead(t, p, limit); } else if limit.Some? { MySqlLimitAt(t, p, limit.value); }
  }

  // ----- the other clauses

  lemma SliceMiddle(t: string, head: string, x: string, rest: string)
    requires t == head + (x + rest)
    ensures Slice(t, |head|, |head| + |x|) == Ok(x) && (rest == "" ==> Slice(t, |head|, |t|) == Ok(x))
  {
    Middle(head, x, rest);
  }

  // ----- the clauses together

  /** The parts of a SELECT after its columns; f is the text of the FROM clause, and the table and the joins
      are what it is read as. */
  datatype Clauses = Clauses(d: Dialect, f: string, from: string, joins: seq<Join>, where: string, orderBy: seq<string>, limit: Option<Limit>)

  predicate GoodClauses(c: Clauses) {
    Read(c.d) && GoodFrom(c.f) && GoodWhere(c.where) && GoodOrder(c.orderBy, c.where) && GoodLimit(c.limit)
  }

  /** Looked into only where Asked(0) is asserted. */
  ghost predicate Sealed(c: Clauses) {
    forall z {:trigger Asked(z)} :: Asked(z) ==> GoodClauses(c)
  }

  /** The texts of the three clauses. (Looked into only where Asked(0) is asserted.) */
  ghost predicate Texts(c: Clauses, wt: string, ot: string, lt: string) {
    forall z {:trigger Asked(z)} :: Asked(z) ==>
      wt == WhereText(c.where) && ot == OrderText(c.orderBy) && lt == LimitText(c.limit, c.d)
  }

  /** Where the keywords are, -1 for a clause without text. */
  datatype Places = Places(w: int, o: int, l: int)

  function PlacesOf(c: Clauses, wt: string, ot: string, lt: string): Places {
    var n := |c.f|;
    Places(Place(wt != "", n), Place(ot != "", n + |wt|), Place(lt != "", n + |wt| + |ot|))
  }

  ghost predicate Found(t: string, p: Places) {
    FoundAt(t, WHERE, p.w) && FoundAt(t, ORDER_BY, p.o) && FoundAt(t, LIMIT, p.l)
  }

  /** Looked into only where Asked(0) is asserted. */
  ghost predicate WhereGives(t: string, p: Places, where: string) {
    forall z {:trigger Asked(z)} :: Asked(z) ==> WhereOf(t, p.w, p.o, p.l) == Ok(where)
  }

  /** Looked into only where Asked(0) is asserted. */
  ghost predicate OrderGives(t: string, p: Places, orderBy: seq<string>) {
    forall z {:trigger Asked(z)} :: Asked(z) ==> OrderOf(t, p.o, p.l) == Ok(orderBy)
  }

  /** Looked into only where Asked(0) is asserted. */
  ghost predicate LimitGives(d: Dialect, t: string, p: Places, limit: Option<Limit>) {
    forall z {:trigger Asked(z)} :: Asked(z) ==> (p.l < 0 || p.l + |LIMIT| <= |t|) && LimitOf(d, t, p.l) == Ok(limit)
  }

  function ClausesIn(d: Dialect, columns: seq<string>, t: string): Outcome<Statement> {
    if d == Postgres then PostgresClauses(columns, t) else MySqlClauses(columns, t)
  }

  /** Looked into only where Asked(0) is asserted. */
  ghost predicate ClausesGive(d: Dialect, columns: seq<string>, t: string, s: Statement) {
    forall z {:trigger Asked(z)} :: Asked(z) ==> ClausesIn(d, columns, t) == Ok(s)
  }

  function FromOf(d: Dialect, f: string): (string, seq<Join>) {
    if d == Postgres then FromAndJoins(f) else MySqlFromAndJoins(f)
  }

  /** Looked into only where Asked(0) is asserted. */
  ghost predicate FromReads(d: Dialect, f: string, from: string, js: seq<Join>) {
    forall z {:trigger Asked(z)} :: Asked(z) ==> FromOf(d, f) == (from, js)
  }

  function Whole(c: Clauses, wt: string, ot: string, lt: string): string { c.f + (wt + (ot + lt)) }

  lemma WhereFrom(t: string, p: Places, where: string)
    requires if p.w < 0 then where == "" else Slice(t, p.w + |WHERE|, ClauseEnd(p.w, p.o, p.l, |t|)) == Ok(where) && Trimmed(where)
    ensures WhereGives(t, p, where)
  {
    if p.w >= 0 { TrimTrimmed(where); }
  }

  lemma OrderFrom(t: string, p: Places, orderBy: seq<string>, list: string)
    requires if p.o < 0 then orderBy == []
             else Slice(t, p.o + |ORDER_BY|, if p.l > p.o then p.l else |t|) == Ok(list) && Split(list) == orderBy
    ensures OrderGives(t, p, orderBy)
  {
  }

  lemma TextsEmpty(c: Clauses, wt: string, ot: string, lt: string)
    requires Texts(c, wt, ot, lt)
    ensures (wt == "" <==> c.where == "") && (ot == "" <==> c.orderBy == []) && (lt == "" <==> c.limit.None?)
  {
    assert Asked(0);
  }

  lemma PlacesFound(c: Clauses, wt: string, ot: string, lt: string)
    requires Sealed(c) && Texts(c, wt, ot, lt)
    ensures Found(Whole(c, wt, ot, lt), PlacesOf(c, wt, ot, lt))
  {
    TextsEmpty(c, wt, ot, lt);
    SealedFound(c);
    assert Asked(0);
  }

  lemma SealedFound(c: Clauses)
    requires Sealed(c)
    ensures var t, w, o := c.f + TailText(c.where, c.orderBy, c.limit, c.d), WhereText(c.where), OrderText(c.orderBy);
      && FoundAt(t, WHERE, Place(c.where != "", |c.f|))
      && FoundAt(t, ORDER_BY, Place(c.orderBy != [], |c.f| + |w|))
      && FoundAt(t, LIMIT, Place(c.limit.Some?, |c.f| + |w| + |o|))
  {
    assert Asked(0);
    ClausesFound(c.f, c.where, c.orderBy, c.limit, c.d);
  }

  lemma WhereEnds(n: nat, wt: nat, ot: nat, lt: nat)
    requires wt > 0
    ensures ClauseEnd(n, Place(ot != 0, n + wt), Place(lt != 0, n + wt + ot), n + wt + (ot + lt)) == n + wt
  {
  }

  /** A clause: a word and what follows it, or nothing. */
  function Clause(word: string, x: string): string { if x == "" then "" else word + x }

  /** Whatever is written for WHERE. */
  lemma WhereGiven(c: Clauses, word: string, wt: string, ot: string, lt: string)
    requires Trimmed(c.where) && |word| == |WHERE| && wt == Clause(word, c.where)
    ensures WhereGives(Whole(c, wt, ot, lt), PlacesOf(c, wt, ot, lt), c.where)
  {
    var t, p := Whole(c, wt, ot, lt), PlacesOf(c, wt, ot, lt);
    if c.where != "" {
      WhereEnds(|c.f|, |wt|, |ot|, |lt|);
      assert t == (c.f + word) + (c.where + (ot + lt));
      SliceMiddle(t, c.f + word, c.where, ot + lt);
    }
    WhereFrom(t, p, c.where);
  }

  /** Whatever is written for ORDER BY. */
  lemma OrderGiven(c: Clauses, word: string, wt: string, ot: string, lt: string)
    requires |word| == |ORDER_BY| && ot == (if c.orderBy == [] then "" else word + CommaList(c.orderBy))
    requires (c.orderBy != [] ==> Split(CommaList(c.orderBy)) == c.orderBy)
    ensures OrderGives(Whole(c, wt, ot, lt), PlacesOf(c, wt, ot, lt), c.orderBy)
  {
    var t, p, list := Whole(c, wt, ot, lt), PlacesOf(c, wt, ot, lt), CommaList(c.orderBy);
    if c.orderBy != [] {
      assert t == (c.f + wt + word) + (list + lt);
      SliceMiddle(t, c.f + wt + word, list, lt);
    }
    OrderFrom(t, p, c.orderBy, list);
  }

  lemma LimitAtPlace(d: Dialect, t: string, p: string, limit: Option<Limit>, lt: string, places: Places)
    requires Read(d) && GoodLimit(limit) && lt == LimitText(limit, d) && t == p + lt && places.l == Place(limit.Some?, |p|)
    ensures LimitGives(d, t, places, limit)
  {
    LimitIsRead(t, p, limit, d);
  }

  lemma LimitGiven(c: Clauses, wt: string, ot: string, lt: string)
    requires Read(c.d) && GoodLimit(c.limit) && lt == LimitText(c.limit, c.d) && (lt == "" <==> c.limit.None?)
    ensures LimitGives(c.d, Whole(c, wt, ot, lt), PlacesOf(c, wt, ot, lt), c.limit)
  {
    var t, p := Whole(c, wt, ot, lt), c.f + wt + ot;
    assert t == p + lt;
    LimitAtPlace(c.d, t, p, c.limit, lt, PlacesOf(c, wt, ot, lt));
  }

  lemma OrderSplits(c: Clauses)
    requires Sealed(c)
    ensures c.orderBy != [] ==> Split(CommaList(c.orderBy)) == c.orderBy
  {
    assert Asked(0);
    if c.orderBy != [] { SplitList(c.orderBy, ""); }
  }

  lemma SealedBasics(c: Clauses)
    requires Sealed(c)
    ensures Trimmed(c.where) && GoodLimit(c.limit) && Read(c.d)
  {
    assert Asked(0);
  }

  lemma GivenAtPlaces(c: Clauses, wt: string, ot: string, lt: string)
    requires Sealed(c) && Texts(c, wt, ot, lt)
    ensures var t, p := Whole(c, wt, ot, lt), PlacesOf(c, wt, ot, lt);
      WhereGives(t, p, c.where) && OrderGives(t, p, c.orderBy) && LimitGives(c.d, t, p, c.limit)
  {
    TextsEmpty(c, wt, ot, lt);
    OrderSplits(c);
    SealedBasics(c);
    assert wt == WhereText(c.where) && ot == OrderText(c.orderBy) && lt == LimitText(c.limit, c.d) by { assert Asked(0); }
    WhereGiven(c, WHERE, wt, ot, lt);
    OrderGiven(c, ORDER_BY, wt, ot, lt);
    LimitGiven(c, wt, ot, lt);
  }

  lemma FromEnds(c: Clauses, wt: string, ot: string, lt: string)
    ensures var t, p := Whole(c, wt, ot, lt), PlacesOf(c, wt, ot, lt);
      var e := Earliest(p.w, p.o, p.l); e <= |t| && c.f == if e < 0 then t else t[..e]
  {
  }

  lemma Assemble(columns: seq<string>, c: Clauses, t: string, p: Places)
    requires Found(t, p) && WhereGives(t, p, c.where) && OrderGives(t, p, c.orderBy) && LimitGives(c.d, t, p, c.limit)
    requires var e := Earliest(p.w, p.o, p.l); e <= |t| && c.f == if e < 0 then t else t[..e]
    requires FromReads(c.d, c.f, c.from, c.joins)
    ensures ClausesGive(c.d, columns, t, Select(columns, c.from, c.joins, c.where, c.orderBy, c.limit))
  {
    assert Asked(0);
  }

  lemma ClausesRead(columns: seq<string>, c: Clauses, wt: string, ot: string, lt: string)
    requires Sealed(c) && Texts(c, wt, ot, lt) && FromReads(c.d, c.f, c.from, c.joins)
    ensures ClausesGive(c.d, columns, Whole(c, wt, ot, lt), Select(columns, c.from, c.joins, c.where, c.orderBy, c.limit))
  {
    PlacesFound(c, wt, ot, lt);
    GivenAtPlaces(c, wt, ot, lt);
    FromEnds(c, wt, ot, lt);
    Assemble(columns, c, Whole(c, wt, ot, lt), PlacesOf(c, wt, ot, lt));
  }
}
