/**
 The data statements the two parsers read and the renderer writes, and the identifiers in them
 (internal/syntax/syntax.go:12-93, internal/normalize/normalize.go:36-89,
 internal/render/render.go:1251-1267). The syntax layer and the normalised statements have the same
 fields; one type serves for both.
 */
module Statements {
  import opened Basics
  import opened Strings

  datatype Join = Join(kind: string, table: string, on: string)

  datatype Limit = Limit(offset: Option<int>, count: int)

  datatype Assignment = Assignment(column: string, value: string)

  datatype ConflictStyle = MySqlStyle | PostgresStyle

  datatype Conflict = Conflict(style: ConflictStyle, targets: seq<string>, assignments: seq<Assignment>)

  datatype Statement =
    | Raw(sql: string)
    | Select(columns: seq<string>, from: string, joins: seq<Join>, where: string, orderBy: seq<string>, limit: Option<Limit>)
    | Insert(table: string, columns: seq<string>, values: seq<string>, conflict: Option<Conflict>)
    | Update(table: string, assignments: seq<Assignment>, where: string)
    | Delete(table: string, where: string)

  datatype Dialect = MySql | Postgres | Sqlite | Oracle

  // ----- identifiers

  function SplitOn(s: string, sep: char): (r: seq<string>)
    ensures |r| > 0
  {
    if s == "" then [""]
    else
      var r := SplitOn(s[1..], sep);
      if s[0] == sep then [""] + r else [[s[0]] + r[0]] + r[1..]
  }

  function JoinWith(ps: seq<string>, sep: char): string {
    if ps == [] then "" else if |ps| == 1 then ps[0] else ps[0] + ([sep] + JoinWith(ps[1..], sep))
  }

  /** A quote mark or a blank, which identifiers are trimmed of. */
  predicate IsCut(c: char) { c == '`' || c == '"' || c == ' ' }

  function CutLeft(s: string): (t: string)
    ensures t != "" ==> !IsCut(t[0])
  {
    if s != "" && IsCut(s[0]) then CutLeft(s[1..]) else s
  }

  function CutRight(s: string): (t: string)
    ensures t <= s && (t != "" ==> !IsCut(t[|t| - 1]))
  {
    if s != "" && IsCut(s[|s| - 1]) then CutRight(s[..|s| - 1]) else s
  }

  function Cut(s: string): (t: string)
    ensures t != "" ==> !IsCut(t[0]) && !IsCut(t[|t| - 1])
  {
    CutRight(CutLeft(s))
  }

  function CutAll(ps: seq<string>): (r: seq<string>)
    ensures |r| == |ps| && forall i :: 0 <= i < |ps| ==> r[i] == Cut(ps[i])
  {
    if ps == [] then [] else [Cut(ps[0])] + CutAll(ps[1..])
  }

  function QuoteMark(d: Dialect): char {
    if d == Postgres || d == Oracle then '"' else '`'
  }

  function QuotePart(s: string, q: char): string { [q] + Cut(s) + [q] }

  function QuoteParts(ps: seq<string>, q: char): (r: seq<string>)
    ensures |r| == |ps| && forall i :: 0 <= i < |ps| ==> r[i] == QuotePart(ps[i], q)
  {
    if ps == [] then [] else [QuotePart(ps[0], q)] + QuoteParts(ps[1..], q)
  }

  /** Every dotted part of an identifier between quote marks. */
  function Quoted(name: string, q: char): string {
    JoinWith(QuoteParts(SplitOn(Trim(name), '.'), q), '.')
  }

  /** An identifier with its quote marks removed, part by part. */
  function Bare(name: string): string {
    JoinWith(CutAll(SplitOn(Trim(name), '.')), '.')
  }

  lemma Overwrite(want: seq<string>, given: seq<string>, i: nat)
    requires |want| == |given| && i < |given|
    ensures (want[..i] + given[i..])[i := want[i]] == want[..i + 1] + given[i + 1..]
    ensures (want[..i] + given[i..])[i] == given[i]
  {
  }

  method QuoteIdentifierChain(identifier: string, dialect: Dialect) returns (r: string)
    ensures r == Quoted(identifier, QuoteMark(dialect))
  {
    var q := QuoteMark(dialect);
    var parts := SplitOn(Trim(identifier), '.');
    ghost var given, want := parts, QuoteParts(parts, q);
    for index := 0 to |parts|
      invariant parts == want[..index] + given[index..]
    {
      Overwrite(want, given, index);
      parts := parts[index := QuotePart(parts[index], q)];
    }
    assert parts == want;
    r := JoinWith(parts, '.');
  }

  method StripIdentifier(input: string) returns (r: string)
    ensures r == Bare(input)
  {
    var parts := SplitOn(Trim(input), '.');
    ghost var given, want := parts, CutAll(parts);
    for index := 0 to |parts|
      invariant parts == want[..index] + given[index..]
    {
      Overwrite(want, given, index);
      parts := parts[index := Cut(parts[index])];
    }
    assert parts == want;
    r := JoinWith(parts, '.');
  }

  lemma {:induction false} SplitWord(p: string, sep: char)
    requires sep !in p
    ensures SplitOn(p, sep) == [p]
  {
    if p != "" {
      SplitWord(p[1..], sep);
      assert [p[0]] + p[1..] == p;
    }
  }

  lemma {:induction false} SplitHead(p: string, rest: string, sep: char)
    requires sep !in p
    ensures SplitOn(p + ([sep] + rest), sep) == [p] + SplitOn(rest, sep)
  {
    var tail := [sep] + rest;
    var t := p + tail;
    if p == "" {
      assert t == tail && tail[1..] == rest;
    } else {
      assert t[1..] == p[1..] + tail;
      SplitHead(p[1..], rest, sep);
      assert [p[0]] + p[1..] == p;
    }
  }

  lemma {:induction false} SplitJoined(ps: seq<string>, sep: char)
    requires ps != [] && forall i :: 0 <= i < |ps| ==> sep !in ps[i]
    ensures SplitOn(JoinWith(ps, sep), sep) == ps
  {
    if |ps| == 1 {
      SplitWord(ps[0], sep);
    } else {
      SplitHead(ps[0], JoinWith(ps[1..], sep), sep);
      SplitJoined(ps[1..], sep);
    }
  }

  lemma {:induction false} SplitParts(s: string, sep: char)
    ensures forall i :: 0 <= i < |SplitOn(s, sep)| ==> sep !in SplitOn(s, sep)[i]
  {
    if s != "" { SplitParts(s[1..], sep); }
  }

  lemma {:induction false} CutFrom(s: string, c: char)
    requires c !in s
    ensures c !in Cut(s)
  {
    CutLeftFrom(s, c);
    CutRightFrom(CutLeft(s), c);
  }

  lemma {:induction false} CutLeftFrom(s: string, c: char)
    requires c !in s
    ensures c !in CutLeft(s)
  {
    if s != "" && IsCut(s[0]) { CutLeftFrom(s[1..], c); }
  }

  lemma {:induction false} CutRightFrom(s: string, c: char)
    requires c !in s
    ensures c !in CutRight(s)
  {
    if s != "" && IsCut(s[|s| - 1]) { CutRightFrom(s[..|s| - 1], c); }
  }

  lemma CutQuoted(s: string, q: char)
    requires IsCut(q)
    ensures Cut(QuotePart(s, q)) == Cut(s)
  {
    var c := Cut(s);
    var u := c + [q];
    var t := [q] + c + [q];
    assert t[1..] == u && u[..|c|] == c && u[|c|] == q;
    assert CutRight(c) == c;
    if c == "" {
      assert u[1..] == "";
      assert CutLeft(u) == "";
    } else {
      assert CutLeft(u) == u;
      assert CutRight(u) == CutRight(c);
    }
  }

  lemma {:induction false} QuotedEnds(ps: seq<string>, q: char, sep: char)
    requires ps != []
    ensures var t := JoinWith(QuoteParts(ps, q), sep); |t| >= 2 && t[0] == q && t[|t| - 1] == q
  {
    if |ps| > 1 { QuotedEnds(ps[1..], q, sep); }
  }

  lemma {:induction false} CutAllQuoted(ps: seq<string>, q: char)
    requires IsCut(q)
    ensures CutAll(QuoteParts(ps, q)) == CutAll(ps)
  {
    if ps != [] {
      CutQuoted(ps[0], q);
      CutAllQuoted(ps[1..], q);
    }
  }

  lemma {:induction false} QuotePartsLack(ps: seq<string>, q: char, c: char)
    requires q != c && forall i :: 0 <= i < |ps| ==> c !in ps[i]
    ensures forall i :: 0 <= i < |ps| ==> c !in QuoteParts(ps, q)[i]
  {
    forall i | 0 <= i < |ps| ensures c !in QuoteParts(ps, q)[i] {
      CutFrom(ps[i], c);
    }
  }

  /** Removing the quote marks undoes quoting, for every name: what is left is the bare name. */
  lemma BareQuoted(name: string, q: char)
    requires q == '`' || q == '"'
    ensures Bare(Quoted(name, q)) == Bare(name)
  {
    var ps := SplitOn(Trim(name), '.');
    SplitParts(Trim(name), '.');
    BareOfParts(ps, q);
  }

  lemma TrimmedEnds(t: string, q: char)
    requires |t| >= 2 && t[0] == q && t[|t| - 1] == q && !IsSpace(q)
    ensures Trim(t) == t
  {
  }

  lemma BareOf(t: string, qs: seq<string>)
    requires Trim(t) == t && SplitOn(t, '.') == qs
    ensures Bare(t) == JoinWith(CutAll(qs), '.')
  {
  }

  lemma BareOfParts(ps: seq<string>, q: char)
    requires (q == '`' || q == '"') && ps != [] && forall i :: 0 <= i < |ps| ==> '.' !in ps[i]
    ensures Bare(JoinWith(QuoteParts(ps, q), '.')) == JoinWith(CutAll(ps), '.')
  {
    QuotedEnds(ps, q, '.');
    QuotePartsLack(ps, q, '.');
    CutAllQuoted(ps, q);
    var qs := QuoteParts(ps, q);
    var t := JoinWith(qs, '.');
    TrimmedEnds(t, q);
    SplitJoined(qs, '.');
    BareOf(t, qs);
  }

  predicate AllCut(a: string) { forall i :: 0 <= i < |a| ==> a[i] == '`' || a[i] == '"' || a[i] == ' ' }

  lemma {:induction false} CutBefore(a: string, x: string)
    requires AllCut(a) && x != "" && !IsCut(x[0])
    ensures CutLeft(a + x) == x
  {
    if a == "" {
      assert a + x == x;
    } else {
      assert (a + x)[1..] == a[1..] + x && IsCut(a[0]);
      CutBefore(a[1..], x);
    }
  }

  lemma {:induction false} CutBehind(x: string, b: string)
    requires AllCut(b) && x != "" && !IsCut(x[|x| - 1])
    ensures CutRight(x + b) == x
  {
    if b == "" {
      assert x + b == x;
    } else {
      assert (x + b)[..|x + b| - 1] == x + b[..|b| - 1] && IsCut(b[|b| - 1]);
      CutBehind(x, b[..|b| - 1]);
    }
  }

  /** Both quote marks and blanks are trimmed from the ends of a part. */
  lemma CutOff(a: string, x: string, b: string)
    requires AllCut(a) && AllCut(b) && x != "" && !IsCut(x[0]) && !IsCut(x[|x| - 1])
    ensures Cut(a + (x + b)) == x
  {
    CutBefore(a, x + b);
    CutBehind(x, b);
  }

  /** A name with a dot in it is quoted part by part, and each part is trimmed of blanks and quote marks. */
  lemma DottedQuoted(a: string, b: string, q: char)
    requires '.' !in a && '.' !in b && Trim(a + ("." + b)) == a + ("." + b)
    ensures Quoted(a + ("." + b), q) == [q] + Cut(a) + [q] + (['.'] + ([q] + Cut(b) + [q]))
  {
    SplitTwo(a, b, '.');
    var ps := QuoteParts([a, b], q);
    assert ps == [QuotePart(a, q), QuotePart(b, q)];
    assert ps[1..] == [QuotePart(b, q)] && JoinWith(ps[1..], '.') == QuotePart(b, q);
  }

  lemma {:induction false} SplitTwo(a: string, b: string, sep: char)
    requires sep !in a && sep !in b
    ensures SplitOn(a + ([sep] + b), sep) == [a, b]
  {
    var s := a + ([sep] + b);
    if a == "" {
      assert s == [sep] + b && s[1..] == b;
      SplitWord(b, sep);
    } else {
      assert s[1..] == a[1..] + ([sep] + b) && s[0] == a[0];
      SplitTwo(a[1..], b, sep);
      assert [a[0]] + a[1..] == a;
    }
  }

  /** MySQL and SQLite quote with back quotes, PostgreSQL and Oracle with double ones. */
  lemma MarksOf(d: Dialect)
    ensures QuoteMark(d) == '`' <==> d == MySql || d == Sqlite
    ensures QuoteMark(d) == '"' <==> d == Postgres || d == Oracle
  {
  }
}
