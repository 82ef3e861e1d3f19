/**
 Numbering while writing is numbering the finished text: fragments, statements and whole batches
 (internal/render/render.go:27-47, 1164-1249).
 */
module RenderNumbers {
  import opened Basics
  import opened Strings
  import opened Numerals
  import opened TopLevel
  import opened Placeholders
  import opened Rewriting
  import opened Statements
  import opened Rendering
  import opened Renderer

  /** The words the renderer writes itself hold no question mark. */
  predicate NoMarks(ps: seq<Part>) {
    forall i :: 0 <= i < |ps| && ps[i].Fixed? ==> '?' !in ps[i].text
  }

  lemma {:induction false} NoQuestions(s: string, k: nat, mark: char)
    requires '?' !in s
    ensures Questions(s) == 0 && Numbered(s, k, mark) == s
  {
    if s != "" { NoQuestions(s[1..], k, mark); }
  }

  lemma PartNumbers(p: Part, f: string -> string, mark: char, k: nat)
    requires p.Fixed? ==> '?' !in p.text
    ensures var plain := WriterOf(Rewrite(f)).text(p, k);
      && WriterOf(Number(f, mark)).text(p, k) == Numbered(plain, k, mark)
      && WriterOf(Number(f, mark)).taken(p) == Questions(plain)
  {
    if p.Fixed? { NoQuestions(p.text, k, mark); }
  }

  /** Two writers, one of which numbers what the other leaves. */
  ghost predicate Follows(w: Writer, plain: Writer, mark: char, p: Part) {
    && (forall k {:trigger w.text(p, k)} :: w.text(p, k) == Numbered(plain.text(p, 0), k, mark))
    && w.taken(p) == Questions(plain.text(p, 0))
    && plain.taken(p) == 0
  }

  lemma PartFollows(p: Part, f: string -> string, mark: char)
    requires p.Fixed? ==> '?' !in p.text
    ensures Follows(WriterOf(Number(f, mark)), WriterOf(Rewrite(f)), mark, p)
  {
    var w, plain := WriterOf(Number(f, mark)), WriterOf(Rewrite(f));
    forall k {:trigger w.text(p, k)} ensures w.text(p, k) == Numbered(plain.text(p, 0), k, mark) {
      PartNumbers(p, f, mark, k);
      assert plain.text(p, k) == plain.text(p, 0);
    }
    PartNumbers(p, f, mark, 0);
  }

  lemma {:induction false} TextFollows(ps: seq<Part>, w: Writer, plain: Writer, mark: char, k: nat)
    requires forall i :: 0 <= i < |ps| ==> Follows(w, plain, mark, ps[i])
    ensures Text(ps, w, k) == Numbered(Text(ps, plain, 0), k, mark)
    ensures TextTaken(ps, w) == Questions(Text(ps, plain, 0)) && TextTaken(ps, plain) == 0
  {
    if ps != [] {
      assert Follows(w, plain, mark, ps[0]);
      TextFollows(ps[1..], w, plain, mark, k + w.taken(ps[0]));
      NumberedAppend(plain.text(ps[0], 0), Text(ps[1..], plain, 0), k, mark);
    }
  }

  // ----- blank texts

  predicate AllSpace(s: string) { forall i :: 0 <= i < |s| ==> IsSpace(s[i]) }

  lemma {:induction false} BlankIsSpace(s: string)
    ensures Blank(s) <==> AllSpace(s)
  {
    var t := TrimLeft(s);
    TrimLeftIs(s);
    if t == "" {
      LeftBlank(s);
    } else {
      assert s[|s| - |t|] == t[0];
      RightStops(t);
    }
  }

  lemma {:induction false} LeftBlank(s: string)
    requires TrimLeft(s) == ""
    ensures AllSpace(s)
  {
    if s != "" {
      var r := s[1..];
      assert IsSpace(s[0]) && TrimLeft(r) == "";
      LeftBlank(r);
      forall i | 0 <= i < |s| ensures IsSpace(s[i]) {
        if i > 0 { assert r[i - 1] == s[i]; }
      }
    }
  }

  lemma {:induction false} RightStops(s: string)
    requires s != "" && !IsSpace(s[0])
    ensures TrimRight(s) != ""
  {
    if |s| > 1 && IsSpace(s[|s| - 1]) { RightStops(s[..|s| - 1]); }
  }

  /** Numbering neither blanks a text nor fills a blank one. */
  lemma {:induction false} NumberedBlank(s: string, k: nat, mark: char)
    requires !IsSpace(mark)
    ensures Blank(Numbered(s, k, mark)) <==> Blank(s)
  {
    BlankIsSpace(s);
    BlankIsSpace(Numbered(s, k, mark));
    SpaceNumbered(s, k, mark);
  }

  lemma {:induction false} SpaceNumbered(s: string, k: nat, mark: char)
    requires !IsSpace(mark)
    ensures AllSpace(Numbered(s, k, mark)) <==> AllSpace(s)
  {
    if s != "" {
      var n := Numbered(s, k, mark);
      if s[0] == '?' {
        assert n[0] == mark;
      } else {
        SpaceNumbered(s[1..], k, mark);
        var rest := Numbered(s[1..], k, mark);
        assert n == [s[0]] + rest;
        SpaceCons(s[0], rest);
        SpaceCons(s[0], s[1..]);
        assert s == [s[0]] + s[1..];
      }
    }
  }

  lemma SpaceCons(c: char, s: string)
    ensures AllSpace([c] + s) <==> IsSpace(c) && AllSpace(s)
  {
    var t := [c] + s;
    if AllSpace(t) {
      assert IsSpace(t[0]);
      forall i | 0 <= i < |s| ensures IsSpace(s[i]) { assert IsSpace(t[i + 1]); }
    }
  }

  // ----- batches

  lemma SequencedCons(x: string, rest: seq<string>)
    ensures Sequenced([x] + rest) == if rest == [] then x else x + ("; " + Sequenced(rest))
  {
    assert ([x] + rest)[1..] == rest;
  }

  /** The two writers agree up to numbering on all parts of all statements. */
  ghost predicate AllFollow(ss: seq<Statement>, parts: Statement -> seq<Part>, w: Writer, plain: Writer, mark: char) {
    forall i :: 0 <= i < |ss| ==> StatementFollows(parts(ss[i]), w, plain, mark)
  }

  ghost predicate StatementFollows(ps: seq<Part>, w: Writer, plain: Writer, mark: char) {
    forall i :: 0 <= i < |ps| ==> Follows(w, plain, mark, ps[i])
  }

  /** Dropping blank texts does not see the numbers. */
  ghost predicate KeepsAlike(keep: string -> seq<string>, mark: char) {
    forall x, k {:trigger keep(Numbered(x, k, mark))} ::
      if keep(x) == [] then keep(Numbered(x, k, mark)) == [] && Questions(x) == 0
      else keep(x) == [x] && keep(Numbered(x, k, mark)) == [Numbered(x, k, mark)]
  }

  lemma KeeperAlike(mark: char)
    requires !IsSpace(mark)
    ensures KeepsAlike(Keeper(), mark)
  {
    forall x, k {:trigger Keeper()(Numbered(x, k, mark))} ensures
      if Keeper()(x) == [] then Keeper()(Numbered(x, k, mark)) == [] && Questions(x) == 0
      else Keeper()(x) == [x] && Keeper()(Numbered(x, k, mark)) == [Numbered(x, k, mark)]
    {
      NumberedBlank(x, k, mark);
      if Blank(x) { BlankHolds(x, k, mark); }
    }
  }

  lemma FollowHeadTail(ss: seq<Statement>, parts: Statement -> seq<Part>, w: Writer, plain: Writer, mark: char)
    requires ss != [] && AllFollow(ss, parts, w, plain, mark)
    ensures StatementFollows(parts(ss[0]), w, plain, mark) && AllFollow(ss[1..], parts, w, plain, mark)
  {
  }

  /** The second list of texts is the first one, numbered. (Looked into only where Asked(0) is asserted.) */
  ghost predicate Twins(xs: seq<string>, ys: seq<string>, k: nat, mark: char) {
    forall i {:trigger Asked(i)} :: Asked(i) ==> |xs| == |ys| && Sequenced(ys) == Numbered(Sequenced(xs), k, mark)
  }

  lemma {:induction false} BatchFollows(ss: seq<Statement>, parts: Statement -> seq<Part>, keep: string -> seq<string>,
                                        w: Writer, plain: Writer, mark: char, k: nat)
    requires AllFollow(ss, parts, w, plain, mark) && KeepsAlike(keep, mark)
    ensures Twins(BatchTexts(ss, parts, keep, plain, 0), BatchTexts(ss, parts, keep, w, k), k, mark)
  {
    if ss != [] {
      var ps := parts(ss[0]);
      FollowHeadTail(ss, parts, w, plain, mark);
      TextFollows(ps, w, plain, mark, k);
      var k' := k + TextTaken(ps, w);
      BatchFollows(ss[1..], parts, keep, w, plain, mark, k');
      KeptNumbers(Text(ps, plain, 0), BatchTexts(ss[1..], parts, keep, plain, 0), BatchTexts(ss[1..], parts, keep, w, k'), keep, k, mark);
    }
  }

  lemma DroppedTwins(xs: seq<string>, ys: seq<string>, k: nat, mark: char)
    requires Twins(xs, ys, k, mark)
    ensures Twins([] + xs, [] + ys, k, mark)
  {
    assert [] + xs == xs && [] + ys == ys;
  }

  lemma AddedTwins(x: string, y: string, xs: seq<string>, ys: seq<string>, k: nat, mark: char)
    requires y == Numbered(x, k, mark) && Twins(xs, ys, k + Questions(x), mark)
    ensures Twins([x] + xs, [y] + ys, k, mark)
  {
    assert Asked(0);
    JoinNumbers(x, xs, ys, k, mark);
  }

  lemma KeptOne(x: string, keep: string -> seq<string>, k: nat, mark: char)
    requires KeepsAlike(keep, mark)
    ensures if keep(x) == [] then keep(Numbered(x, k, mark)) == [] && Questions(x) == 0
            else keep(x) == [x] && keep(Numbered(x, k, mark)) == [Numbered(x, k, mark)]
  {
    assert keep(Numbered(x, k, mark)) == keep(Numbered(x, k, mark));
  }

  lemma KeptNumbers(x: string, xs: seq<string>, ys: seq<string>, keep: string -> seq<string>, k: nat, mark: char)
    requires KeepsAlike(keep, mark) && Twins(xs, ys, k + Questions(x), mark)
    ensures Twins(keep(x) + xs, keep(Numbered(x, k, mark)) + ys, k, mark)
  {
    KeptOne(x, keep, k, mark);
    if keep(x) == [] { DroppedTwins(xs, ys, k, mark); } else { AddedTwins(x, Numbered(x, k, mark), xs, ys, k, mark); }
  }

  lemma BlankHolds(x: string, k: nat, mark: char)
    requires Blank(x)
    ensures Questions(x) == 0
  {
    BlankIsSpace(x);
    NoQuestions(x, k, mark);
  }

  lemma JoinNumbers(x: string, xs: seq<string>, ys: seq<string>, k: nat, mark: char)
    requires |xs| == |ys| && Sequenced(ys) == Numbered(Sequenced(xs), k + Questions(x), mark)
    ensures Sequenced([Numbered(x, k, mark)] + ys) == Numbered(Sequenced([x] + xs), k, mark)
  {
    SequencedCons(x, xs);
    SequencedCons(Numbered(x, k, mark), ys);
    if xs != [] { AfterBreak(x, Sequenced(xs), k, mark); }
  }

  lemma AfterBreak(x: string, rest: string, k: nat, mark: char)
    ensures Numbered(x + ("; " + rest), k, mark) == Numbered(x, k, mark) + ("; " + Numbered(rest, k + Questions(x), mark))
  {
    NoQuestions("; ", k + Questions(x), mark);
    NumberedAppend("; ", rest, k + Questions(x), mark);
    NumberedAppend(x, "; " + rest, k, mark);
  }

  lemma BatchNumbered(ss: seq<Statement>, to: Dialect, f: string -> string, mark: char)
    requires !IsSpace(mark)
    requires forall i :: 0 <= i < |ss| ==> NoMarks(Parts(ss[i], to))
    ensures BatchText(ss, to, Number(f, mark)) == Numbered(BatchText(ss, to, Rewrite(f)), 0, mark)
  {
    var w, plain, parts := WriterOf(Number(f, mark)), WriterOf(Rewrite(f)), PartsFor(to);
    forall i | 0 <= i < |ss| ensures StatementFollows(parts(ss[i]), w, plain, mark) {
      var ps := Parts(ss[i], to);
      assert NoMarks(ps);
      forall j | 0 <= j < |ps| ensures Follows(w, plain, mark, ps[j]) {
        PartFollows(ps[j], f, mark);
      }
    }
    KeeperAlike(mark);
    BatchFollows(ss, parts, Keeper(), w, plain, mark, 0);
    assert Asked(0);
  }

  // ----- from MySQL to a dialect that numbers its parameters

  predicate Numbers(to: Dialect) { to == Postgres || to == Oracle }

  function MarkOf(to: Dialect): char { if to == Postgres then '$' else ':' }

  /** A MySQL batch written for the other dialect, before its parameters are numbered. */
  function PlainBatch(ss: seq<Statement>, to: Dialect): string
    requires Numbers(to)
  {
    BatchText(ss, to, Rewrite(TreatmentOf(MySql, to).f))
  }

  /** Rendering a MySQL batch numbers the question marks of its text 1..n, in the order of the text. */
  lemma BatchNumbers(ss: seq<Statement>, to: Dialect)
    requires Numbers(to)
    requires forall i :: 0 <= i < |ss| ==> NoMarks(Parts(ss[i], to))
    ensures BatchText(ss, to, TreatmentOf(MySql, to)) == Numbered(PlainBatch(ss, to), 0, MarkOf(to))
  {
    BatchNumbered(ss, to, TreatmentOf(MySql, to).f, MarkOf(to));
  }

  /** Binding argument k to number k in a rendered batch puts it where the k-th question mark stood. */
  lemma BatchBinds(ss: seq<Statement>, to: Dialect, args: seq<string>)
    requires Numbers(to)
    requires forall i :: 0 <= i < |ss| ==> NoMarks(Parts(ss[i], to))
    requires var plain := PlainBatch(ss, to); Plain(plain, MarkOf(to)) && Questions(plain) <= |args|
    ensures BindNumbers(BatchText(ss, to, TreatmentOf(MySql, to)), args, MarkOf(to))
         == BindQuestions(PlainBatch(ss, to), args, 0)
  {
    BatchNumbers(ss, to);
    BindsTheSame(PlainBatch(ss, to), 0, args, MarkOf(to));
  }

  // ----- question marks inside quotes are numbered too

  /** Binding to parameters: a question mark inside quotes is none. */
  function BindParameters(m: Mode, s: string, args: seq<string>, k: nat): string
    requires k + Questions(s) <= |args|
    decreases |s|
  {
    if s == "" then ""
    else if s[0] == '?' && m.quote == NO_QUOTE then args[k] + BindParameters(Step(m, s[0]), s[1..], args, k + 1)
    else [s[0]] + BindParameters(Step(m, s[0]), s[1..], args, k)
  }

  function Parameters(m: Mode, s: string): nat
    decreases |s|
  {
    if s == "" then 0
    else (if s[0] == '?' && m.quote == NO_QUOTE then 1 else 0) + Parameters(Step(m, s[0]), s[1..])
  }

  /** No question mark stands inside quotes. */
  predicate QuotesHoldNone(m: Mode, s: string)
    decreases |s|
  {
    s == "" || ((s[0] == '?' ==> m.quote == NO_QUOTE) && QuotesHoldNone(Step(m, s[0]), s[1..]))
  }

  lemma {:induction false} ParametersAre(m: Mode, s: string)
    ensures Parameters(m, s) <= Questions(s)
    ensures Parameters(m, s) == Questions(s) <==> QuotesHoldNone(m, s)
    decreases |s|
  {
    if s != "" { ParametersAre(Step(m, s[0]), s[1..]); }
  }

  lemma {:induction false} SameBinding(m: Mode, s: string, args: seq<string>, k: nat)
    requires QuotesHoldNone(m, s) && k + Questions(s) <= |args|
    ensures BindQuestions(s, args, k) == BindParameters(m, s, args, k)
    decreases |s|
  {
    if s != "" { SameBinding(Step(m, s[0]), s[1..], args, if s[0] == '?' then k + 1 else k); }
  }

  predicate Pairs(args: seq<string>) { forall i :: 0 <= i < |args| ==> |args[i]| == 2 }

  /** With arguments of two characters, the lengths tell how many were put in. */
  lemma {:induction false} Lengths(m: Mode, s: string, args: seq<string>, k: nat)
    requires Pairs(args) && k + Questions(s) <= |args|
    ensures |BindQuestions(s, args, k)| == |s| + Questions(s)
    ensures |BindParameters(m, s, args, k)| == |s| + Parameters(m, s)
    decreases |s|
  {
    if s != "" {
      Lengths(Step(m, s[0]), s[1..], args, if s[0] == '?' then k + 1 else k);
      Lengths(Step(m, s[0]), s[1..], args, k);
    }
  }

  ghost predicate BindsParameters(s: string, mark: char) {
    forall args :: |args| == Questions(s) ==> BindNumbers(Numbered(s, 0, mark), args, mark) == BindParameters(OUT, s, args, 0)
  }

  /** Numbering and binding serves the parameters of a text, in order, exactly when no question mark in it
      stands inside quotes. */
  lemma ParametersExactly(s: string, mark: char)
    requires mark != '?' && !IsDigit(mark) && Plain(s, mark)
    ensures BindsParameters(s, mark) <==> QuotesHoldNone(OUT, s)
  {
    ParametersAre(OUT, s);
    if QuotesHoldNone(OUT, s) {
      forall args | |args| == Questions(s)
        ensures BindNumbers(Numbered(s, 0, mark), args, mark) == BindParameters(OUT, s, args, 0)
      {
        BindsTheSame(s, 0, args, mark);
        SameBinding(OUT, s, args, 0);
      }
    } else {
      var args := seq(Questions(s), i => "xx");
      BindsTheSame(s, 0, args, mark);
      Lengths(OUT, s, args, 0);
      assert BindNumbers(Numbered(s, 0, mark), args, mark) != BindParameters(OUT, s, args, 0);
    }
  }

  /** Binding by number serves the parameters of a rendered batch, in the order of its text. */
  ghost predicate BatchServes(ss: seq<Statement>, to: Dialect)
    requires Numbers(to)
  {
    forall args :: |args| == Questions(PlainBatch(ss, to)) ==>
      BindNumbers(BatchText(ss, to, TreatmentOf(MySql, to)), args, MarkOf(to)) == BindParameters(OUT, PlainBatch(ss, to), args, 0)
  }

  /** For a whole MySQL batch: argument k goes where the k-th parameter stood, exactly when no question mark
      of its text stands inside quotes. */
  lemma BatchParametersExactly(ss: seq<Statement>, to: Dialect)
    requires Numbers(to)
    requires forall i :: 0 <= i < |ss| ==> NoMarks(Parts(ss[i], to))
    requires Plain(PlainBatch(ss, to), MarkOf(to))
    ensures BatchServes(ss, to) <==> QuotesHoldNone(OUT, PlainBatch(ss, to))
  {
    BatchNumbers(ss, to);
    ParametersExactly(PlainBatch(ss, to), MarkOf(to));
  }

  /** The question marks of all fragments, as they are before any rewriting. */
  function SourceQuestions(ps: seq<Part>): nat {
    if ps == [] then 0 else (if ps[0].Fixed? then 0 else Questions(ps[0].text)) + SourceQuestions(ps[1..])
  }

  /** A MySQL statement takes as many numbers as its fragments have question marks: rewriting loses none. */
  lemma {:induction false} NumbersTaken(ps: seq<Part>, to: Dialect)
    requires Numbers(to)
    ensures TextTaken(ps, WriterOf(TreatmentOf(MySql, to))) == SourceQuestions(ps)
  {
    if ps != [] {
      NumbersTaken(ps[1..], to);
      if ps[0].Fragment? {
        TrimKeeps(ps[0].text);
        MarksKept(Trim(ps[0].text), to);
      }
    }
  }

  lemma {:induction false} ParametersAppend(m: Mode, a: string, b: string)
    ensures Parameters(m, a + b) == Parameters(m, a) + Parameters(Run(m, a), b)
    decreases |a|
  {
    if a == "" {
      assert a + b == b;
    } else {
      assert (a + b)[1..] == a[1..] + b;
      ParametersAppend(Step(m, a[0]), a[1..], b);
    }
  }

  /** `'?'=?` has one parameter, which is given the second number. */
  lemma QuotedMarkCounts()
    ensures Numbered("'?'=?", 0, '$') == "'$1'=$2"
    ensures Parameters(OUT, "'?'=?") == 1
  {
    var a, b, c := "'", "?", "'=";
    assert "'?'=?" == a + (b + (c + "?"));
    NumberedAppend(a, b + (c + "?"), 0, '$');
    NumberedAppend(b, c + "?", 0, '$');
    NumberedAppend(c, "?", 1, '$');
    NoQuestions(a, 0, '$');
    NoQuestions(c, 1, '$');
    NumberedOne('?', 0, '$');
    NumberedOne('?', 1, '$');
    assert Decimal(1) == "1" && Decimal(2) == "2";
    QuotedMarkParameters(a, b, c);
  }

  lemma QuotedMarkParameters(a: string, b: string, c: string)
    requires a == "'" && b == "?" && c == "'="
    ensures Parameters(OUT, a + (b + (c + "?"))) == 1
  {
    var q := Mode('\'', 0);
    ParametersAppend(OUT, a, b + (c + "?"));
    ParametersAppend(q, b, c + "?");
    ParametersAppend(q, c, "?");
    assert a[1..] == "" && b[1..] == "" && c[1..] == "=" && "="[1..] == "";
    assert Run(OUT, a) == q && Run(q, b) == q && Run(q, c) == OUT;
  }
}
