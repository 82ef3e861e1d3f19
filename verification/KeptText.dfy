/**
 The text of a statement written for the dialect it came from: every fragment trimmed, nothing
 renumbered (internal/render/render.go:106-197, 1164-1168).
 */
module KeptText {
  import opened Basics
  import opened Strings
  import opened TopLevelLaws
  import opened Statements
  import opened Rendering
  import opened JoinReading
  import opened ClauseReading

  function Plainly(ps: seq<Part>): string {
    if ps == [] then "" else (if ps[0].Fixed? then ps[0].text else Trim(ps[0].text)) + Plainly(ps[1..])
  }

  /** Between equal dialects the written text is the parts themselves. */
  lemma {:induction false} KeptIsPlain(ps: seq<Part>, d: Dialect, k: nat)
    ensures Text(ps, WriterOf(TreatmentOf(d, d)), k) == Plainly(ps)
  {
    if ps != [] {
      var w := WriterOf(TreatmentOf(d, d));
      assert w.taken(ps[0]) == 0;
      KeptIsPlain(ps[1..], d, k);
    }
  }

  lemma {:induction false} PlainlyAppend(a: seq<Part>, b: seq<Part>)
    ensures Plainly(a + b) == Plainly(a) + Plainly(b)
  {
    if a == [] {
      assert a + b == b;
    } else {
      var c := a + b;
      assert c[1..] == a[1..] + b && c[0] == a[0];
      PlainlyAppend(a[1..], b);
      Assoc(if a[0].Fixed? then a[0].text else Trim(a[0].text), Plainly(a[1..]), Plainly(b));
    }
  }

  lemma PlainlyOne(p: Part)
    ensures Plainly([p]) == if p.Fixed? then p.text else Trim(p.text)
  {
    assert [p][1..] == [];
  }

  lemma PlainlyPair(head: string, x: string)
    requires Trimmed(x)
    ensures Plainly([Fixed(head), Fragment(x)]) == head + x
  {
    PlainlyAppend([Fixed(head)], [Fragment(x)]);
    PlainlyOne(Fixed(head));
    PlainlyOne(Fragment(x));
    TrimTrimmed(x);
    assert [Fixed(head)] + [Fragment(x)] == [Fixed(head), Fragment(x)];
  }

  lemma {:induction false} PlainList(ps: seq<string>)
    requires forall i :: 0 <= i < |ps| ==> Trimmed(ps[i])
    ensures Plainly(ListParts(ps)) == CommaList(ps)
  {
    if ps != [] {
      PlainlyOne(Fragment(ps[0]));
      TrimTrimmed(ps[0]);
      if |ps| > 1 {
        PlainList(ps[1..]);
        PlainlyOne(Fixed(", "));
        var head := FragmentParts(ps[0]);
        PlainlyAppend(head + COMMA, ListParts(ps[1..]));
        PlainlyAppend(head, COMMA);
        Assoc(ps[0], ", ", CommaList(ps[1..]));
      }
    }
  }

  lemma PlainJoinOn(kind: string, table: string, on: string)
    requires Trimmed(kind) && Trimmed(table) && Trimmed(on) && on != ""
    ensures Plainly(JoinParts(Join(kind, table, on))) == " " + kind + " " + table + (" ON " + on)
  {
    TrimTrimmed(kind);
    PlainlyPair(" " + kind + " ", table);
    PlainlyPair(" ON ", on);
    PlainlyAppend([Fixed(" " + kind + " "), Fragment(table)], [Fixed(" ON "), Fragment(on)]);
  }

  lemma JoinBasics(j: Join)
    requires GoodJoin(j)
    ensures Trimmed(j.kind) && Trimmed(j.table) && Trimmed(j.on) && j.on != ""
  {
    KindTrimmed(j.kind);
  }

  lemma JoinSpelled(j: Join)
    ensures " " + j.kind + " " + j.table + (" ON " + j.on) == " " + JoinText(j, "")
  {
    assert j.on + "" == j.on;
  }

  lemma PlainJoin(j: Join)
    requires GoodJoin(j)
    ensures Plainly(JoinParts(j)) == " " + JoinText(j, "")
  {
    JoinBasics(j);
    PlainJoinOn(j.kind, j.table, j.on);
    JoinSpelled(j);
    assert Join(j.kind, j.table, j.on) == j;
  }

  lemma PlainStep<T>(xs: seq<T>, f: T -> seq<Part>, head: string, rest: string)
    requires xs != [] && Plainly(f(xs[0])) == head && Plainly(Separated(xs[1..], f, [])) == rest
    ensures Plainly(Separated(xs, f, [])) == head + rest
  {
    if |xs| == 1 {
      assert head + "" == head;
    } else {
      PlainlyAppend(f(xs[0]) + [], Separated(xs[1..], f, []));
      assert f(xs[0]) + [] == f(xs[0]);
    }
  }

  lemma {:induction false} PlainJoins(js: seq<Join>)
    requires GoodJoins(js)
    ensures Plainly(JoinsParts(js)) == JoinsText(js)
  {
    if js != [] {
      var rest := JoinsText(js[1..]);
      FirstGood(js);
      PlainJoin(js[0]);
      PlainJoins(js[1..]);
      PlainStep(js, JoinParts, " " + JoinText(js[0], ""), rest);
      JoinTextSplits(js[0], rest);
      JoinsTextTail(js);
      Assoc(" ", JoinText(js[0], ""), rest);
    }
  }

  lemma FirstGood(js: seq<Join>)
    requires js != [] && GoodJoins(js)
    ensures GoodJoin(js[0]) && GoodJoins(js[1..])
  {
  }

  lemma JoinTextSplits(j: Join, rest: string)
    ensures JoinText(j, rest) == JoinText(j, "") + rest
  {
    assert j.on + "" == j.on;
    assert j.table + (" ON " + (j.on + rest)) == j.table + (" ON " + j.on) + rest;
  }

  lemma PlainWhere(where: string)
    requires Trimmed(where)
    ensures Plainly(WhereParts(where)) == WhereText(where)
  {
    if where != "" { PlainlyPair(" WHERE ", where); }
  }

  lemma PlainOrder(orderBy: seq<string>)
    requires forall i :: 0 <= i < |orderBy| ==> Trimmed(orderBy[i])
    ensures Plainly(OrderParts(orderBy)) == OrderText(orderBy)
  {
    if orderBy != [] {
      PlainList(orderBy);
      PlainlyOne(Fixed(" ORDER BY "));
      PlainlyAppend([Fixed(" ORDER BY ")], ListParts(orderBy));
    }
  }

  lemma EightParts(a: seq<Part>, b: seq<Part>, c: seq<Part>, d: seq<Part>, e: seq<Part>, f: seq<Part>, g: seq<Part>, h: seq<Part>)
    ensures Plainly(a + b + c + d + e + f + g + h)
         == Plainly(a) + (Plainly(b) + (Plainly(c) + (Plainly(d) + Plainly(e) + (Plainly(f) + (Plainly(g) + Plainly(h))))))
  {
    PlainlyAppend(a + b + c + d + e + f + g, h);
    PlainlyAppend(a + b + c + d + e + f, g);
    PlainlyAppend(a + b + c + d + e, f);
    FiveParts(a, b, c, d, e);
    Nested(Plainly(a), Plainly(b), Plainly(c), Plainly(d) + Plainly(e), Plainly(f), Plainly(g), Plainly(h));
  }

  lemma FiveParts(a: seq<Part>, b: seq<Part>, c: seq<Part>, d: seq<Part>, e: seq<Part>)
    ensures Plainly(a + b + c + d + e) == Plainly(a) + (Plainly(b) + (Plainly(c) + (Plainly(d) + Plainly(e))))
  {
    PlainlyAppend(a + b + c + d, e);
    PlainlyAppend(a + b + c, d);
    PlainlyAppend(a + b, c);
    PlainlyAppend(a, b);
    Nested(Plainly(a), Plainly(b), Plainly(c), Plainly(d), Plainly(e), "", "");
  }

  lemma Nested(a: string, b: string, c: string, d: string, e: string, f: string, g: string)
    ensures a + (b + (c + d)) + e + f + g == a + (b + (c + (d + (e + (f + g)))))
    ensures a + b + c + d + e == a + (b + (c + (d + e)))
  {
  }
}
