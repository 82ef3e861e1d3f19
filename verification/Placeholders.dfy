/**
 Numbering placeholders and reading them back (internal/render/render.go:1164-1249).
 */
module Placeholders {
  import opened Basics
  import opened Numerals

  /** How many digits a text starts with. */
  function DigitRun(s: string): (r: nat)
    ensures r <= |s| && (forall i :: 0 <= i < r ==> IsDigit(s[i])) && (r < |s| ==> !IsDigit(s[r]))
  {
    if s != "" && IsDigit(s[0]) then 1 + DigitRun(s[1..]) else 0
  }

  lemma {:induction false} RunOfDigits(d: string, t: string)
    requires forall i :: 0 <= i < |d| ==> IsDigit(d[i])
    ensures DigitRun(d + t) == |d| + DigitRun(t)
  {
    if d == "" {
      assert d + t == t;
    } else {
      assert (d + t)[1..] == d[1..] + t;
      RunOfDigits(d[1..], t);
    }
  }

  // ----- numbering

  /** How many question marks a text holds. */
  function Questions(s: string): nat {
    if s == "" then 0 else (if s[0] == '?' then 1 else 0) + Questions(s[1..])
  }

  /** Every question mark becomes the mark and the next number after `k`. */
  function Numbered(s: string, k: nat, mark: char): string {
    if s == "" then ""
    else if s[0] == '?' then [mark] + Decimal(k + 1) + Numbered(s[1..], k + 1, mark)
    else [s[0]] + Numbered(s[1..], k, mark)
  }

  class RenderState {
    var placeholder: nat

    constructor ()
      ensures placeholder == 0
    {
      placeholder := 0;
    }
  }

  method ReplaceQuestionPlaceholders(input: string, mark: char, st: RenderState) returns (out: string)
    modifies st
    ensures out == Numbered(input, old(st.placeholder), mark)
    ensures st.placeholder == old(st.placeholder) + Questions(input)
  {
    out := "";
    assert input[..0] == "";
    for i := 0 to |input|
      invariant out == Numbered(input[..i], old(st.placeholder), mark)
      invariant st.placeholder == old(st.placeholder) + Questions(input[..i])
    {
      NumberedSnoc(input, i, old(st.placeholder), mark);
      if input[i] != '?' {
        out := out + [input[i]];
        continue;
      }
      st.placeholder := st.placeholder + 1;
      out := out + ([mark] + Decimal(st.placeholder));
    }
    assert input[..|input|] == input;
  }

  lemma NumberedSnoc(s: string, i: nat, k: nat, mark: char)
    requires i < |s|
    ensures Numbered(s[..i + 1], k, mark)
         == Numbered(s[..i], k, mark) + (if s[i] == '?' then [mark] + Decimal(k + Questions(s[..i]) + 1) else [s[i]])
    ensures Questions(s[..i + 1]) == Questions(s[..i]) + if s[i] == '?' then 1 else 0
  {
    assert s[..i + 1] == s[..i] + [s[i]];
    NumberedAppend(s[..i], [s[i]], k, mark);
    NumberedOne(s[i], k + Questions(s[..i]), mark);
  }

  lemma NumberedOne(c: char, k: nat, mark: char)
    ensures Numbered([c], k, mark) == if c == '?' then [mark] + Decimal(k + 1) else [c]
    ensures Questions([c]) == if c == '?' then 1 else 0
  {
    assert [c][1..] == "";
  }

  lemma {:induction false} QuestionsAppend(s: string, t: string)
    ensures Questions(s + t) == Questions(s) + Questions(t)
  {
    if s == "" {
      assert s + t == t;
    } else {
      assert (s + t)[1..] == s[1..] + t;
      QuestionsAppend(s[1..], t);
    }
  }

  /** The first character's share of a numbered text. */
  function Head(c: char, k: nat, mark: char): string {
    if c == '?' then [mark] + Decimal(k + 1) else [c]
  }

  function Next(c: char, k: nat): nat { if c == '?' then k + 1 else k }

  lemma NumberedCons(s: string, k: nat, mark: char)
    requires s != ""
    ensures Numbered(s, k, mark) == Head(s[0], k, mark) + Numbered(s[1..], Next(s[0], k), mark)
  {
  }

  lemma {:induction false} NumberedAppend(s: string, t: string, k: nat, mark: char)
    ensures Numbered(s + t, k, mark) == Numbered(s, k, mark) + Numbered(t, k + Questions(s), mark)
    ensures Questions(s + t) == Questions(s) + Questions(t)
  {
    QuestionsAppend(s, t);
    if s == "" {
      assert s + t == t;
    } else {
      NumberedAppendStep(s, t, k, mark);
      NumberedAppend(s[1..], t, Next(s[0], k), mark);
      Assoc(Head(s[0], k, mark), Numbered(s[1..], Next(s[0], k), mark), Numbered(t, k + Questions(s), mark));
    }
  }

  lemma NumberedAppendStep(s: string, t: string, k: nat, mark: char)
    requires s != ""
    ensures Numbered(s + t, k, mark) == Head(s[0], k, mark) + Numbered(s[1..] + t, Next(s[0], k), mark)
    ensures Numbered(s, k, mark) == Head(s[0], k, mark) + Numbered(s[1..], Next(s[0], k), mark)
    ensures k + Questions(s) == Next(s[0], k) + Questions(s[1..])
  {
    var u := s + t;
    assert u[1..] == s[1..] + t && u[0] == s[0];
    NumberedCons(u, k, mark);
    NumberedCons(s, k, mark);
  }

  // ----- reading back

  predicate OpensNumber(s: string, mark: char) {
    |s| >= 2 && s[0] == mark && IsDigit(s[1])
  }

  /** Every mark with its digits, as long as possible, becomes a question mark. */
  function Unnumbered(s: string, mark: char): string {
    if s == "" then ""
    else if OpensNumber(s, mark) then "?" + Unnumbered(s[1 + DigitRun(s[1..])..], mark)
    else [s[0]] + Unnumbered(s[1..], mark)
  }

  /** No mark and no question mark is followed by a digit. */
  predicate Plain(s: string, mark: char) {
    forall i :: 0 <= i < |s| - 1 && (s[i] == mark || s[i] == '?') ==> !IsDigit(s[i + 1])
  }

  /** The text after numbering starts with a digit exactly when it did before. */
  lemma NumberedHead(s: string, k: nat, mark: char)
    requires !IsDigit(mark)
    ensures s != "" ==> Numbered(s, k, mark) != "" && (IsDigit(Numbered(s, k, mark)[0]) <==> IsDigit(s[0]))
    ensures s == "" ==> Numbered(s, k, mark) == ""
  {
  }

  lemma PlainTail(s: string, mark: char)
    requires s != ""
    ensures Plain(s, mark) <==> Plain(s[1..], mark) && (|s| >= 2 && (s[0] == mark || s[0] == '?') ==> !IsDigit(s[1]))
  {
    if Plain(s[1..], mark) && (|s| >= 2 && (s[0] == mark || s[0] == '?') ==> !IsDigit(s[1])) {
      forall i | 0 <= i < |s| - 1 && (s[i] == mark || s[i] == '?') ensures !IsDigit(s[i + 1]) {
        if i > 0 { assert s[1..][i - 1] == s[i] && s[1..][i] == s[i + 1]; }
      }
    }
    if Plain(s, mark) {
      forall i | 0 <= i < |s[1..]| - 1 && (s[1..][i] == mark || s[1..][i] == '?') ensures !IsDigit(s[1..][i + 1]) {
        assert s[i + 1] == s[1..][i] && s[i + 2] == s[1..][i + 1];
      }
    }
  }

  /** A numeral that the following text does not prolong. */
  lemma NumeralEnds(d: string, t: string, mark: char)
    requires |d| >= 1 && (forall i :: 0 <= i < |d| ==> IsDigit(d[i])) && (t != "" ==> !IsDigit(t[0]))
    ensures var s := [mark] + d + t; OpensNumber(s, mark) && DigitRun(s[1..]) == |d| && s[1 + |d|..] == t && s[1..1 + |d|] == d
  {
    var s := [mark] + d + t;
    assert s[1..] == d + t;
    RunOfDigits(d, t);
  }

  lemma {:induction false} ReadsBack(s: string, k: nat, mark: char)
    requires mark != '?' && !IsDigit(mark) && Plain(s, mark)
    ensures Unnumbered(Numbered(s, k, mark), mark) == s
  {
    if s != "" {
      var tail := s[1..];
      PlainTail(s, mark);
      NumberedHead(tail, k, mark);
      NumberedHead(tail, k + 1, mark);
      if s[0] == '?' {
        NumeralEnds(Decimal(k + 1), Numbered(tail, k + 1, mark), mark);
        ReadsBack(tail, k + 1, mark);
      } else {
        var n := Numbered(s, k, mark);
        assert n[1..] == Numbered(tail, k, mark);
        ReadsBack(tail, k, mark);
      }
    }
  }

  // ----- and when it does not

  lemma DigitStep(s: string, r: nat, head: string, rest: string)
    requires 1 <= r <= |s| && head == s[1..][..r - 1] + rest
    ensures [s[0]] + head == s[..r] + rest
  {
    assert s[..r] == [s[0]] + s[1..][..r - 1];
    Assoc([s[0]], s[1..][..r - 1], rest);
  }

  /** Digits are not changed by numbering. */
  lemma {:induction false} DigitsStay(s: string, r: nat, k: nat, mark: char)
    requires r <= DigitRun(s)
    ensures Numbered(s, k, mark) == s[..r] + Numbered(s[r..], k, mark)
    decreases r
  {
    if r == 0 {
      assert s[0..] == s;
    } else {
      DigitsStay(s[1..], r - 1, k, mark);
      assert s[1..][r - 1..] == s[r..];
      NumberedCons(s, k, mark);
      DigitStep(s, r, Numbered(s[1..], k, mark), Numbered(s[r..], k, mark));
    }
  }

  /** Reading back never lengthens a text, and shortens it unless it is plain. */
  lemma {:induction false} Shortens(s: string, k: nat, mark: char)
    requires mark != '?' && !IsDigit(mark)
    ensures |Unnumbered(Numbered(s, k, mark), mark)| <= |s|
    ensures !Plain(s, mark) ==> |Unnumbered(Numbered(s, k, mark), mark)| < |s|
    decreases |s|
  {
    if s != "" {
      PlainTail(s, mark);
      var r := DigitRun(s[1..]);
      if s[0] == '?' {
        Swallows(s[1..], Decimal(k + 1), r, k + 1, mark);
        Shortens(s[1..][r..], k + 1, mark);
        PlainAfter(s[1..], r, mark);
      } else if s[0] == mark && r > 0 {
        Swallows(s[1..], "", r, k, mark);
        assert [mark] + "" == [mark];
        Shortens(s[1..][r..], k, mark);
      } else {
        PassesOver(s, k, mark);
        Shortens(s[1..], k, mark);
      }
    }
  }

  /** A character that is no question mark and opens no number. */
  lemma PassesOver(s: string, k: nat, mark: char)
    requires s != "" && s[0] != '?' && (s[0] == mark ==> DigitRun(s[1..]) == 0) && !IsDigit(mark)
    ensures Unnumbered(Numbered(s, k, mark), mark) == [s[0]] + Unnumbered(Numbered(s[1..], k, mark), mark)
  {
    var n := Numbered(s, k, mark);
    NumberedHead(s[1..], k, mark);
    assert n[1..] == Numbered(s[1..], k, mark);
  }

  /** A number swallows the digits that follow it. */
  lemma Swallows(tail: string, d: string, r: nat, k: nat, mark: char)
    requires !IsDigit(mark) && r == DigitRun(tail) && |d| + r > 0
    requires forall i :: 0 <= i < |d| ==> IsDigit(d[i])
    ensures Unnumbered([mark] + d + Numbered(tail, k, mark), mark) == "?" + Unnumbered(Numbered(tail[r..], k, mark), mark)
  {
    var ds, rest := tail[..r], Numbered(tail[r..], k, mark);
    DigitsStay(tail, r, k, mark);
    NumberedHead(tail[r..], k, mark);
    Reassociate(mark, d, ds, rest);
    NumeralReads(d + ds, rest, mark);
  }

  lemma Reassociate(mark: char, d: string, e: string, t: string)
    ensures [mark] + d + (e + t) == [mark] + (d + e) + t
  {
  }

  lemma NumeralReads(d: string, t: string, mark: char)
    requires |d| >= 1 && (forall i :: 0 <= i < |d| ==> IsDigit(d[i])) && (t != "" ==> !IsDigit(t[0]))
    ensures Unnumbered([mark] + d + t, mark) == "?" + Unnumbered(t, mark)
  {
    NumeralEnds(d, t, mark);
  }

  lemma PlainAfter(s: string, r: nat, mark: char)
    requires r <= |s| && (forall i :: 0 <= i < r ==> IsDigit(s[i])) && !IsDigit(mark)
    ensures Plain(s[r..], mark) ==> Plain(s, mark)
  {
    if Plain(s[r..], mark) {
      forall i | 0 <= i < |s| - 1 && (s[i] == mark || s[i] == '?') ensures !IsDigit(s[i + 1]) {
        assert i >= r && s[r..][i - r] == s[i] && s[r..][i - r + 1] == s[i + 1];
      }
    }
  }

  /** Numbering and reading back restores a text exactly when no mark and no question mark in it is
      followed by a digit. */
  lemma ReadsBackExactly(s: string, k: nat, mark: char)
    requires mark != '?' && !IsDigit(mark)
    ensures Unnumbered(Numbered(s, k, mark), mark) == s <==> Plain(s, mark)
  {
    if Plain(s, mark) { ReadsBack(s, k, mark); } else { Shortens(s, k, mark); }
  }

  // ----- binding arguments

  /** Positional binding: the next argument after `k` for each question mark. */
  function BindQuestions(s: string, args: seq<string>, k: nat): string
    requires k + Questions(s) <= |args|
  {
    if s == "" then ""
    else if s[0] == '?' then args[k] + BindQuestions(s[1..], args, k + 1)
    else [s[0]] + BindQuestions(s[1..], args, k)
  }

  function Argument(d: string, args: seq<string>, otherwise: string): string
    requires forall i :: 0 <= i < |d| ==> IsDigit(d[i])
  {
    var n := Value(d);
    if 1 <= n <= |args| then args[n - 1] else otherwise
  }

  /** Numbered binding: argument `n` for each mark with the number `n`. */
  function BindNumbers(s: string, args: seq<string>, mark: char): string {
    if s == "" then ""
    else if OpensNumber(s, mark) then
      var r := DigitRun(s[1..]);
      Argument(s[1..1 + r], args, s[..1 + r]) + BindNumbers(s[1 + r..], args, mark)
    else [s[0]] + BindNumbers(s[1..], args, mark)
  }

  lemma NumeralBinds(d: string, t: string, args: seq<string>, mark: char)
    requires |d| >= 1 && (forall i :: 0 <= i < |d| ==> IsDigit(d[i])) && (t != "" ==> !IsDigit(t[0]))
    ensures BindNumbers([mark] + d + t, args, mark) == Argument(d, args, [mark] + d) + BindNumbers(t, args, mark)
  {
    var s := [mark] + d + t;
    NumeralEnds(d, t, mark);
    assert s[..1 + |d|] == [mark] + d;
  }

  /** Binding by number puts each argument where its question mark stood. */
  lemma {:induction false} BindsTheSame(s: string, k: nat, args: seq<string>, mark: char)
    requires mark != '?' && !IsDigit(mark) && Plain(s, mark) && k + Questions(s) <= |args|
    ensures BindNumbers(Numbered(s, k, mark), args, mark) == BindQuestions(s, args, k)
  {
    if s != "" {
      var tail := s[1..];
      PlainTail(s, mark);
      NumberedHead(tail, k, mark);
      NumberedHead(tail, k + 1, mark);
      if s[0] == '?' {
        ValueDecimal(k + 1);
        NumeralBinds(Decimal(k + 1), Numbered(tail, k + 1, mark), args, mark);
        BindsTheSame(tail, k + 1, args, mark);
      } else {
        var n := Numbered(s, k, mark);
        assert n[1..] == Numbered(tail, k, mark);
        BindsTheSame(tail, k, args, mark);
      }
    }
  }

  // ----- numbers that become question marks

  /** The numbers of a text, in its order. */
  function NumbersOf(s: string, mark: char): seq<nat> {
    if s == "" then []
    else if OpensNumber(s, mark) then
      var r := DigitRun(s[1..]);
      [Value(s[1..1 + r])] + NumbersOf(s[1 + r..], mark)
    else NumbersOf(s[1..], mark)
  }

  /** The numbers follow k one by one. */
  predicate InOrder(ns: seq<nat>, k: nat) {
    forall i :: 0 <= i < |ns| ==> ns[i] == k + i + 1
  }

  lemma InOrderCons(n: nat, ns: seq<nat>, k: nat)
    ensures InOrder([n] + ns, k) <==> n == k + 1 && InOrder(ns, k + 1)
  {
    var l := [n] + ns;
    if InOrder(l, k) {
      assert l[0] == k + 1;
      forall i | 0 <= i < |ns| ensures ns[i] == k + 1 + i + 1 { assert l[i + 1] == ns[i]; }
    }
  }

  lemma QuestionsCons(c: char, t: string)
    ensures Questions([c] + t) == (if c == '?' then 1 else 0) + Questions(t)
  {
    assert ([c] + t)[1..] == t;
  }

  lemma BindCons(c: char, t: string, args: seq<string>, k: nat)
    requires k + Questions([c] + t) <= |args|
    ensures Questions([c] + t) == (if c == '?' then 1 else 0) + Questions(t)
    ensures BindQuestions([c] + t, args, k)
         == if c == '?' then args[k] + BindQuestions(t, args, k + 1) else [c] + BindQuestions(t, args, k)
  {
    QuestionsCons(c, t);
    assert ([c] + t)[1..] == t;
  }

  lemma NumberHasNone(s: string, mark: char)
    requires OpensNumber(s, mark) && mark != '?'
    ensures '?' in s <==> '?' in s[1 + DigitRun(s[1..])..]
  {
    var r := DigitRun(s[1..]);
    assert s == s[..1 + r] + s[1 + r..];
    forall i | 0 <= i < 1 + r ensures s[i] != '?' {
      if i > 0 { assert s[1..][i - 1] == s[i]; }
    }
  }

  lemma {:induction false} OrderBinds(s: string, k: nat, args: seq<string>, mark: char)
    requires mark != '?' && '?' !in s && InOrder(NumbersOf(s, mark), k) && k + Questions(Unnumbered(s, mark)) <= |args|
    ensures BindNumbers(s, args, mark) == BindQuestions(Unnumbered(s, mark), args, k)
    decreases |s|
  {
    if s != "" {
      if OpensNumber(s, mark) {
        var r := DigitRun(s[1..]);
        var rest := s[1 + r..];
        NumberHasNone(s, mark);
        InOrderCons(Value(s[1..1 + r]), NumbersOf(rest, mark), k);
        BindCons('?', Unnumbered(rest, mark), args, k);
        OrderBinds(rest, k + 1, args, mark);
      } else {
        BindCons(s[0], Unnumbered(s[1..], mark), args, k);
        OrderBinds(s[1..], k, args, mark);
      }
    }
  }

  lemma FirstDiffers(a: string, b: string, x: string, y: string)
    requires a != "" && b != "" && a[0] != b[0]
    ensures a + x != b + y
  {
    assert (a + x)[0] == a[0] && (b + y)[0] == b[0];
  }

  /** Arguments that tell argument k from all others. */
  function Telling(n: nat, k: nat): (args: seq<string>)
    ensures |args| == n && forall i :: 0 <= i < n ==> args[i] == if i == k then "0" else "1"
  {
    seq(n, i => if i == k then "0" else "1")
  }

  /** The first number is not the next one: the argument it names is not the next one either. */
  lemma WrongNumber(s: string, k: nat, n: nat, mark: char)
    requires !IsDigit(mark) && OpensNumber(s, mark) && k < n && Value(s[1..1 + DigitRun(s[1..])]) != k + 1
    requires k + Questions(Unnumbered(s, mark)) <= n
    ensures BindNumbers(s, Telling(n, k), mark) != BindQuestions(Unnumbered(s, mark), Telling(n, k), k)
  {
    var r := DigitRun(s[1..]);
    var d, rest, args := s[1..1 + r], s[1 + r..], Telling(n, k);
    NumberFirst(s, args, mark, rest);
    BindCons('?', Unnumbered(rest, mark), args, k);
    FirstDiffers(Argument(d, args, s[..1 + r]), args[k], BindNumbers(rest, args, mark),
                 BindQuestions(Unnumbered(rest, mark), args, k + 1));
  }

  lemma OwnQuestion(s: string, k: nat, n: nat, mark: char)
    requires s != "" && s[0] == '?' && mark != '?' && k < n && k + Questions(Unnumbered(s, mark)) <= n
    ensures BindNumbers(s, Telling(n, k), mark) != BindQuestions(Unnumbered(s, mark), Telling(n, k), k)
  {
    var rest, args := Unnumbered(s[1..], mark), Telling(n, k);
    BindCons('?', rest, args, k);
    FirstDiffers("?", args[k], BindNumbers(s[1..], args, mark), BindQuestions(rest, args, k + 1));
  }

  /** A number in front, and what it is written as and bound to. */
  lemma NumberFirst(s: string, args: seq<string>, mark: char, rest: string)
    requires OpensNumber(s, mark) && rest == s[1 + DigitRun(s[1..])..]
    ensures var r := DigitRun(s[1..]);
      BindNumbers(s, args, mark) == Argument(s[1..1 + r], args, s[..1 + r]) + BindNumbers(rest, args, mark)
    ensures Unnumbered(s, mark) == "?" + Unnumbered(rest, mark)
  {
  }

  /** Behind the next number, or behind a plain character, arguments that show a difference still do. */
  lemma NextNumber(s: string, k: nat, args: seq<string>, mark: char)
    requires OpensNumber(s, mark) && k + Questions(Unnumbered(s, mark)) <= |args|
    requires Value(s[1..1 + DigitRun(s[1..])]) == k + 1
    requires var rest := s[1 + DigitRun(s[1..])..];
      k + 1 + Questions(Unnumbered(rest, mark)) <= |args|
      && BindNumbers(rest, args, mark) != BindQuestions(Unnumbered(rest, mark), args, k + 1)
    ensures BindNumbers(s, args, mark) != BindQuestions(Unnumbered(s, mark), args, k)
  {
    var rest := s[1 + DigitRun(s[1..])..];
    NumberFirst(s, args, mark, rest);
    BindCons('?', Unnumbered(rest, mark), args, k);
    SameFront(args[k], BindNumbers(rest, args, mark), BindQuestions(Unnumbered(rest, mark), args, k + 1));
  }

  lemma SameFront(x: string, a: string, b: string)
    requires a != b
    ensures x + a != x + b
  {
    assert (x + a)[|x|..] == a && (x + b)[|x|..] == b;
  }

  lemma NextPlain(s: string, k: nat, args: seq<string>, mark: char)
    requires s != "" && !OpensNumber(s, mark) && s[0] != '?' && k + Questions(Unnumbered(s, mark)) <= |args|
    requires k + Questions(Unnumbered(s[1..], mark)) <= |args|
    requires BindNumbers(s[1..], args, mark) != BindQuestions(Unnumbered(s[1..], mark), args, k)
    ensures BindNumbers(s, args, mark) != BindQuestions(Unnumbered(s, mark), args, k)
  {
    BindCons(s[0], Unnumbered(s[1..], mark), args, k);
    SameFront([s[0]], BindNumbers(s[1..], args, mark), BindQuestions(Unnumbered(s[1..], mark), args, k));
  }

  /** What is left behind the next number is still out of order. */
  lemma LeftDisorder(s: string, k: nat, mark: char)
    requires mark != '?' && OpensNumber(s, mark) && Value(s[1..1 + DigitRun(s[1..])]) == k + 1
    requires '?' in s || !InOrder(NumbersOf(s, mark), k)
    ensures var rest := s[1 + DigitRun(s[1..])..];
      && ('?' in rest || !InOrder(NumbersOf(rest, mark), k + 1))
      && Questions(Unnumbered(s, mark)) == 1 + Questions(Unnumbered(rest, mark))
  {
    var rest := s[1 + DigitRun(s[1..])..];
    NumberHasNone(s, mark);
    InOrderCons(k + 1, NumbersOf(rest, mark), k);
    QuestionsCons('?', Unnumbered(rest, mark));
  }

  /** Some arguments show a number out of order, and a question mark that stood in the text before. */
  lemma {:induction false} DisorderShows(s: string, k: nat, n: nat, mark: char) returns (args: seq<string>)
    requires mark != '?' && !IsDigit(mark) && k + Questions(Unnumbered(s, mark)) <= n
    requires '?' in s || !InOrder(NumbersOf(s, mark), k)
    ensures |args| == n && BindNumbers(s, args, mark) != BindQuestions(Unnumbered(s, mark), args, k)
    decreases |s|
  {
    args := Telling(n, k);
    if OpensNumber(s, mark) {
      var r := DigitRun(s[1..]);
      if Value(s[1..1 + r]) == k + 1 {
        LeftDisorder(s, k, mark);
        args := DisorderShows(s[1 + r..], k + 1, n, mark);
        NextNumber(s, k, args, mark);
      } else {
        QuestionsCons('?', Unnumbered(s[1 + r..], mark));
        WrongNumber(s, k, n, mark);
      }
    } else {
      QuestionsCons(s[0], Unnumbered(s[1..], mark));
      if s[0] == '?' {
        OwnQuestion(s, k, n, mark);
      } else {
        args := DisorderShows(s[1..], k, n, mark);
        NextPlain(s, k, args, mark);
      }
    }
  }

  /** Whatever the arguments, question marks bind as the numbers did that they replace. */
  ghost predicate BindsAsNumbered(s: string, mark: char) {
    forall args :: Questions(Unnumbered(s, mark)) <= |args| ==> BindNumbers(s, args, mark) == BindQuestions(Unnumbered(s, mark), args, 0)
  }

  /** Replacing the numbers of a text by question marks keeps what the arguments are bound to exactly when the
      numbers are 1, 2, 3 and so on in the order of the text, which has no question marks of its own. */
  lemma BindsAsNumberedExactly(s: string, mark: char)
    requires mark != '?' && !IsDigit(mark)
    ensures BindsAsNumbered(s, mark) <==> '?' !in s && InOrder(NumbersOf(s, mark), 0)
  {
    if '?' !in s && InOrder(NumbersOf(s, mark), 0) {
      forall args | Questions(Unnumbered(s, mark)) <= |args|
        ensures BindNumbers(s, args, mark) == BindQuestions(Unnumbered(s, mark), args, 0)
      {
        OrderBinds(s, 0, args, mark);
      }
    } else {
      var args := DisorderShows(s, 0, Questions(Unnumbered(s, mark)), mark);
    }
  }

  lemma OneNumber(d: string, rest: string, mark: char)
    requires |d| == 1 && IsDigit(d[0]) && (rest != "" ==> !IsDigit(rest[0]))
    ensures var s := [mark] + d + rest;
      Unnumbered(s, mark) == "?" + Unnumbered(rest, mark) && NumbersOf(s, mark) == [Value(d)] + NumbersOf(rest, mark)
  {
    var s := [mark] + d + rest;
    NumeralEnds(d, rest, mark);
    assert DigitRun(s[1..]) == 1 && s[1..2] == d && s[2..] == rest;
  }

  lemma TwoNumbers(s: string, d: string, e: string)
    requires |d| == 1 && IsDigit(d[0]) && |e| == 1 && IsDigit(e[0]) && s == "$" + d + (", " + ("$" + e + ""))
    ensures Unnumbered(s, '$') == "?, ?" && NumbersOf(s, '$') == [Value(d), Value(e)]
  {
    var second := "$" + e + "";
    var rest := ", " + second;
    assert rest[1..] == " " + second && (" " + second)[1..] == second;
    OneNumber(e, "", '$');
    OneNumber(d, rest, '$');
    assert Unnumbered(rest, '$') == "," + Unnumbered(" " + second, '$');
    assert Unnumbered(" " + second, '$') == " " + Unnumbered(second, '$');
    assert NumbersOf(rest, '$') == NumbersOf(" " + second, '$');
  }

  lemma OutOfOrder(s: string, mark: char)
    requires mark != '?' && !IsDigit(mark) && NumbersOf(s, mark) != [] && NumbersOf(s, mark)[0] != 1
    ensures !BindsAsNumbered(s, mark)
  {
    BindsAsNumberedExactly(s, mark);
  }

  /** `$2, $1` is read as `?, ?`, which binds the arguments the other way round. */
  lemma SwappedNumbers(s: string)
    requires s == "$2, $1"
    ensures Unnumbered(s, '$') == "?, ?" && NumbersOf(s, '$') == [2, 1] && !BindsAsNumbered(s, '$')
  {
    var d, e := "2", "1";
    assert s == "$" + d + (", " + ("$" + e + ""));
    assert d[..0] == "" && e[..0] == "" && Value(d) == 2 && Value(e) == 1;
    TwoNumbers(s, d, e);
    OutOfOrder(s, '$');
  }
}
