/**
 Quoted identifiers inside statement texts: the text scanners pass over them, and the readers take the
 quote marks off again (internal/render/render.go:1251-1267, internal/syntax/syntax.go:228-235,
 internal/normalize/normalize.go:82-89).
 */
module QuotedNames {
  import opened Strings
  import opened TopLevel
  import opened TopLevelLaws
  import opened Statements
  import opened DmlReaders
  import opened Rendering

  /** The marks that names are quoted with. */
  predicate Marks(q: char) { q == '`' || q == '"' }

  /** At top level there are only quote marks and dots. */
  predicate Tame(m: Mode, p: string, q: char)
    decreases |p|
  {
    p == "" || ((m == OUT || Step(m, p[0]) == OUT ==> p[0] == q || p[0] == '.') && Tame(Step(m, p[0]), p[1..], q))
  }

  lemma {:induction false} TameAppend(m: Mode, a: string, b: string, q: char)
    ensures Tame(m, a + b, q) <==> Tame(m, a, q) && Tame(Run(m, a), b, q)
    decreases |a|
  {
    if a == "" {
      assert a + b == b;
    } else {
      var t := a + b;
      assert t[1..] == a[1..] + b;
      TameAppend(Step(m, a[0]), a[1..], b, q);
    }
  }

  lemma {:induction false} TameIsQuiet(m: Mode, p: string, rest: string, kw: string, q: char)
    requires Marks(q) && Tame(m, p, q) && kw != "" && kw[0] == ' '
    ensures Quiet(m, p, rest, kw)
    decreases |p|
  {
    if p != "" {
      assert Matches(p + rest, kw) ==> UpperChar((p + rest)[0]) == UpperChar(kw[0]);
      TameIsQuiet(Step(m, p[0]), p[1..], rest, kw, q);
    }
  }

  lemma {:induction false} TameIsCommaFree(m: Mode, p: string, q: char)
    requires Marks(q) && Tame(m, p, q)
    ensures CommaFree(m, p)
    decreases |p|
  {
    if p != "" { TameIsCommaFree(Step(m, p[0]), p[1..], q); }
  }

  lemma {:induction false} TameInside(m: Mode, p: string, q: char)
    requires Marks(q) && Tame(m, p, q) && m.depth == 0 && (m == OUT || m.quote == q)
    ensures NeverOut(Deeper(m), p)
    decreases |p|
  {
    if p != "" { TameInside(Step(m, p[0]), p[1..], q); }
  }

  // ----- one quoted part

  lemma {:induction false} InsideQuotes(c: string, q: char)
    requires Marks(q) && q !in c
    ensures Run(Mode(q, 0), c + [q]) == OUT && Tame(Mode(q, 0), c + [q], q)
  {
    var t := c + [q];
    if c == "" {
      assert t == [q] && t[1..] == "";
    } else {
      assert t[0] == c[0] && t[1..] == c[1..] + [q];
      InsideQuotes(c[1..], q);
    }
  }

  lemma PartTame(s: string, q: char)
    requires Marks(q) && q !in s
    ensures Calm(QuotePart(s, q)) && Tame(OUT, QuotePart(s, q), q)
  {
    var c := Cut(s);
    var t := [q] + c + [q];
    CutFrom(s, q);
    InsideQuotes(c, q);
    assert t[1..] == c + [q] && t[0] == q;
  }

  // ----- a quoted name

  lemma {:induction false} PartsTame(ps: seq<string>, q: char)
    requires Marks(q) && ps != [] && forall i :: 0 <= i < |ps| ==> q !in ps[i]
    ensures var t := JoinWith(QuoteParts(ps, q), '.'); Calm(t) && Tame(OUT, t, q)
  {
    PartTame(ps[0], q);
    if |ps| > 1 {
      PartsTame(ps[1..], q);
      var rest := JoinWith(QuoteParts(ps[1..], q), '.');
      DotTame(rest, q);
      TameAppend(OUT, QuotePart(ps[0], q), ['.'] + rest, q);
      RunAppend(OUT, QuotePart(ps[0], q), ['.'] + rest);
    }
  }

  lemma DotTame(rest: string, q: char)
    requires Calm(rest) && Tame(OUT, rest, q)
    ensures Calm(['.'] + rest) && Tame(OUT, ['.'] + rest, q)
  {
    assert (['.'] + rest)[1..] == rest;
  }

  lemma {:induction false} SplitLacks(s: string, sep: char, c: char)
    requires c !in s
    ensures forall i :: 0 <= i < |SplitOn(s, sep)| ==> c !in SplitOn(s, sep)[i]
  {
    if s != "" { SplitLacks(s[1..], sep, c); }
  }

  lemma {:induction false} TrimLacks(s: string, c: char)
    requires c !in s
    ensures c !in Trim(s)
  {
    TrimLeftIs(s);
    TrimRightIs(TrimLeft(s));
    var l, r := TrimLeft(s), Trim(s);
    forall i | 0 <= i < |r| ensures r[i] != c {
      assert r[i] == l[i] && l[i] == s[|s| - |l| + i];
    }
  }

  /** A quoted name without the quote mark in it. */
  lemma QuotedTame(name: string, q: char)
    requires Marks(q) && q !in name
    ensures var t := Quoted(name, q);
      Calm(t) && Tame(OUT, t, q) && |t| >= 2 && t[0] == q && t[|t| - 1] == q && Trimmed(t)
  {
    TrimLacks(name, q);
    SplitLacks(Trim(name), '.', q);
    var ps := SplitOn(Trim(name), '.');
    PartsTame(ps, q);
    QuotedEnds(ps, q, '.');
  }

  lemma {:induction false} JoinLacks(ps: seq<string>, sep: char, c: char)
    requires c != sep && forall i :: 0 <= i < |ps| ==> c !in ps[i]
    ensures c !in JoinWith(ps, sep)
  {
    if |ps| > 1 { JoinLacks(ps[1..], sep, c); }
  }

  lemma QuotedLacks(name: string, c: char, q: char)
    requires c !in name && c != q && c != '.'
    ensures c !in Quoted(name, q)
  {
    TrimLacks(name, c);
    SplitLacks(Trim(name), '.', c);
    var ps := SplitOn(Trim(name), '.');
    QuotePartsLack(ps, q, c);
    JoinLacks(QuoteParts(ps, q), '.', c);
  }

  // ----- a column name, without dots

  lemma OnePart(name: string, q: char)
    requires '.' !in name && Bare(name) == name
    ensures Quoted(name, q) == [q] + name + [q] && Cut(name) == name
  {
    TrimLacks(name, '.');
    SplitWord(Trim(name), '.');
    assert QuoteParts([Trim(name)], q) == [QuotePart(Trim(name), q)];
    assert CutAll([Trim(name)]) == [Cut(Trim(name))];
    CutTwice(Trim(name));
  }

  lemma CutTwice(s: string)
    ensures Cut(Cut(s)) == Cut(s)
  {
    var c := Cut(s);
    assert CutLeft(c) == c && CutRight(c) == c;
  }

  lemma OuterQuoted(name: string, q: char)
    requires Marks(q) && q !in name && Cut(name) == name
    ensures Outer([q] + name + [q]) == name
  {
    var t := [q] + name + [q];
    TrimTrimmed(t);
    EndsDropped(name, q);
    EndsKept(t, name, q);
  }

  lemma EndsDropped(name: string, q: char)
    ensures DropTrailing(DropLeading([q] + name + [q], q), q) == name
  {
    var t := [q] + name + [q];
    assert t[1..] == name + [q];
    assert (name + [q])[..|name|] == name;
  }

  /** The marks of the other kind are not taken off. */
  lemma EndsKept(t: string, name: string, q: char)
    requires Marks(q) && t == [q] + name + [q] && Cut(name) == name
    ensures if q == '`' then DropTrailing(DropLeading(t, '"'), '"') == t
            else DropTrailing(DropLeading(name, '`'), '`') == name
  {
    assert t[0] == q && t[|t| - 1] == q;
    assert name != "" ==> !IsCut(name[0]) && !IsCut(name[|name| - 1]);
  }

  predicate SimpleColumn(name: string, q: char) {
    '.' !in name && q !in name && Bare(name) == name
  }

  lemma ColumnPiece(name: string, q: char)
    requires Marks(q) && SimpleColumn(name, q)
    ensures Piece(Quoted(name, q)) && Closed(Quoted(name, q)) && Outer(Quoted(name, q)) == name
  {
    QuotedTame(name, q);
    TameIsCommaFree(OUT, Quoted(name, q), q);
    TameInside(OUT, Quoted(name, q), q);
    OnePart(name, q);
    OuterQuoted(name, q);
  }

  lemma {:induction false} ColumnPieces(names: seq<string>, q: char)
    requires Marks(q) && forall i :: 0 <= i < |names| ==> SimpleColumn(names[i], q)
    ensures var qs := QuotedAll(names, q);
      |qs| == |names| && AllPieces(qs) && (forall i :: 0 <= i < |qs| ==> Closed(qs[i])) && OuterAll(qs) == names
  {
    if names != [] {
      ColumnPiece(names[0], q);
      ColumnPieces(names[1..], q);
      var first, qs := Quoted(names[0], q), QuotedAll(names[1..], q);
      PieceCons(first, qs, names[0], names[1..]);
      assert QuotedAll(names, q) == [first] + qs && names == [names[0]] + names[1..];
    }
  }

  lemma PieceCons(first: string, qs: seq<string>, name: string, names: seq<string>)
    requires Piece(first) && Closed(first) && Outer(first) == name
    requires AllPieces(qs) && (forall i :: 0 <= i < |qs| ==> Closed(qs[i])) && OuterAll(qs) == names
    ensures var l := [first] + qs; AllPieces(l) && (forall i :: 0 <= i < |l| ==> Closed(l[i])) && OuterAll(l) == [name] + names
  {
    var l := [first] + qs;
    assert l[1..] == qs;
    forall i | 0 <= i < |l| ensures Piece(l[i]) && Closed(l[i]) {
      if i > 0 { assert l[i] == qs[i - 1]; }
    }
  }
}
