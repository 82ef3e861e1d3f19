/**
 Lists of literals collapse: a parenthesised list of rows of literals, of any number of rows and
 any widths, normalises to one parenthesised placeholder.
 */
module DigestLists {
  import opened Basics
  import opened DigestTokens
  import opened DigestRuns

  // The scanner's codes for single characters are the characters themselves.
  const OPEN := Token(Other(40), Open)
  const CLOSE := Token(Other(41), Close)
  const COMMA := Token(Other(44), Comma)

  /** A literal, and before a numeric one an optional sign. */
  datatype Entry = Entry(sign: Option<Token>, lit: Token)

  predicate Fine(e: Entry) {
    && IsLit(e.lit) && e.lit.lit != Star && e.lit.kind != Invalid
    && (e.sign.Some? ==> e.sign.value.kind.Other? && (e.sign.value.lit == Minus || e.sign.value.lit == Plus) && IsNumLit(e.lit.kind))
  }

  predicate FineRow(row: seq<Entry>) {
    |row| >= 1 && forall e :: e in row ==> Fine(e)
  }

  predicate FineRows(rows: seq<seq<Entry>>) {
    |rows| >= 1 && forall row :: row in rows ==> FineRow(row)
  }

  function EntryTokens(e: Entry): seq<Token> {
    (if e.sign.Some? then [e.sign.value] else []) + [e.lit]
  }

  function RowBody(row: seq<Entry>): seq<Token>
    requires |row| >= 1
  {
    if |row| == 1 then EntryTokens(row[0]) else EntryTokens(row[0]) + [COMMA] + RowBody(row[1..])
  }

  function RowTokens(row: seq<Entry>): seq<Token>
    requires |row| >= 1
  {
    [OPEN] + RowBody(row) + [CLOSE]
  }

  function RowsTokens(rows: seq<seq<Entry>>): seq<Token>
    requires FineRows(rows)
  {
    assert FineRow(rows[0]) && forall row :: row in rows[1..] ==> row in rows;
    if |rows| == 1 then RowTokens(rows[0]) else RowTokens(rows[0]) + [COMMA] + RowsTokens(rows[1..])
  }

  /** How many literals the rows hold. */
  function Literals(rows: seq<seq<Entry>>): nat {
    if rows == [] then 0 else |rows[0]| + Literals(rows[1..])
  }

  predicate At(input: seq<Token>, i: nat, toks: seq<Token>) {
    i + |toks| <= |input| && input[i..i + |toks|] == toks
  }

  lemma AtSplit(input: seq<Token>, i: nat, a: seq<Token>, b: seq<Token>)
    requires At(input, i, a + b)
    ensures At(input, i, a) && At(input, i + |a|, b)
  {
    assert input[i..i + |a|] == (a + b)[..|a|];
    assert input[i + |a|..i + |a| + |b|] == (a + b)[|a|..];
  }

  lemma Punctuation(r: (nat, seq<Token>) -> seq<Token>, input: seq<Token>, i: nat, s: seq<Token>, p: Token, env: Env)
    requires IsRun(r, input, env) && At(input, i, [p]) && (p == OPEN || p == CLOSE || p == COMMA)
    ensures r(i, s) == r(i + 1, s + [p])
  {
    assert input[i] == input[i..i + 1][0];
    PassRun(r, input, i, s, env, s + [p]);
  }

  /** A literal on top of `u` leaves `below` and the placeholder `x`. */
  ghost predicate Lands(u: seq<Token>, below: seq<Token>, x: Token) {
    forall w {:trigger Folds(w)} :: w == u ==>
      && |u| >= 1 && (u[|u| - 1].lit == Open || u[|u| - 1].lit == Comma)
      && below == Popped(u, GENERIC.(kind := StringLit))
      && x == (if Folds(u) then LIST else GENERIC)
      && (Folds(u) || !OrderOrGroupFrom(u, 2))
  }

  /** An entry after an opening parenthesis or a comma, its sign included. */
  lemma EntryStep(r: (nat, seq<Token>) -> seq<Token>, input: seq<Token>, i: nat, u: seq<Token>, e: Entry,
                  below: seq<Token>, x: Token, env: Env)
    requires IsRun(r, input, env) && At(input, i, EntryTokens(e)) && Fine(e) && Lands(u, below, x)
    ensures r(i, u) == r(i + |EntryTokens(e)|, below + [x])
  {
    if e.sign.Some? {
      AtSplit(input, i, [e.sign.value], [e.lit]);
      assert input[i] == input[i..i + 1][0];
      SignStep(r, input, i, u, e.sign.value, env);
      SignedStep(u, e.sign.value, Renamed(e.lit), below, x);
      LiteralStep(r, input, i + 1, u + [e.sign.value], e.lit, below, x, env);
    } else {
      assert EntryTokens(e) == [e.lit];
      PlainStep(u, Renamed(e.lit), below, x);
      LiteralStep(r, input, i, u, e.lit, below, x, env);
    }
  }

  lemma SignStep(r: (nat, seq<Token>) -> seq<Token>, input: seq<Token>, i: nat, u: seq<Token>, sign: Token, env: Env)
    requires IsRun(r, input, env)
    requires i < |input| && input[i] == sign && sign.kind.Other? && (sign.lit == Minus || sign.lit == Plus)
    ensures r(i, u) == r(i + 1, u + [sign])
  {
    PassRun(r, input, i, u, env, u + [sign]);
  }

  lemma LiteralStep(r: (nat, seq<Token>) -> seq<Token>, input: seq<Token>, i: nat, s: seq<Token>, c: Token,
                    below: seq<Token>, x: Token, env: Env)
    requires IsRun(r, input, env) && At(input, i, [c]) && c.kind != Invalid
    requires |s| >= 1 && !IndexHint(s[|s| - 1].lit) && IsGeneric(x)
    requires Popped(s, Renamed(c)) == below && Reduced(s, Renamed(c)) == x
    ensures r(i, s) == r(i + 1, below + [x])
  {
    assert input[i] == input[i..i + 1][0];
    PassRun(r, input, i, s, env, below + [x]);
  }

  lemma PlainStep(u: seq<Token>, c: Token, below: seq<Token>, x: Token)
    requires IsLit(c) && c.lit != Star && Lands(u, below, x)
    ensures |u| >= 1 && !IndexHint(u[|u| - 1].lit) && IsGeneric(x)
    ensures Popped(u, c) == below && Reduced(u, c) == x
  {
    assert Folds(u) || !Folds(u);
    assert Unsigned(u, c.kind) == u && Unsigned(u, StringLit) == u;
  }

  lemma SignedStep(u: seq<Token>, sign: Token, c: Token, below: seq<Token>, x: Token)
    requires IsNumLit(c.kind) && c.lit != Star && Lands(u, below, x) && (sign.lit == Minus || sign.lit == Plus)
    ensures Popped(u + [sign], c) == below && Reduced(u + [sign], c) == x
    ensures !IndexHint((u + [sign])[|u|].lit) && IsGeneric(x)
  {
    assert Folds(u) || !Folds(u);
    DropSign(u, sign, c.kind);
    PlainStep(u, c, below, x);
  }

  lemma DropSign(u: seq<Token>, sign: Token, k: Kind)
    requires IsNumLit(k) && (sign.lit == Minus || sign.lit == Plus)
    requires |u| >= 1 && (u[|u| - 1].lit == Open || u[|u| - 1].lit == Comma)
    ensures Unsigned(u + [sign], k) == u && Unsigned(u, k) == u
  {
    var s := u + [sign];
    assert s[|s| - 2] == u[|u| - 1] && s[|s| - 1] == sign;
    assert Drop(s, 1) == u;
  }

  // ----- the three places an entry can stand in

  /** A stack on which an opening parenthesis starts a list of its own. */
  predicate Opens(s: seq<Token>) {
    |s| >= 1 && s[|s| - 1].lit != Comma && s[|s| - 1].lit != By
  }

  lemma FirstEntry(s: seq<Token>)
    requires Opens(s)
    ensures Lands(s + [OPEN], s + [OPEN], GENERIC)
  {
    var u := s + [OPEN];
    assert u[|u| - 1] == OPEN && u[|u| - 2] == s[|s| - 1];
    OpenFoldsNothing(u);
    OpenKeepsNothing(u);
  }

  lemma OpenFoldsNothing(u: seq<Token>)
    requires |u| >= 2 && u[|u| - 1] == OPEN && u[|u| - 2].lit != Comma
    ensures !Folds(u) && Popped(u, GENERIC.(kind := StringLit)) == u
  {
    assert Back(u, 2) == [u[|u| - 2], OPEN];
    if |u| >= 4 { assert Back(u, 4)[3] == OPEN && Back(u, 4)[2] == u[|u| - 2]; }
  }

  lemma OpenKeepsNothing(u: seq<Token>)
    requires |u| >= 2 && u[|u| - 1] == OPEN && u[|u| - 2].lit != By
    ensures !OrderOrGroupFrom(u, 2)
  {
  }

  lemma NextEntry(s: seq<Token>, x: Token)
    requires IsGeneric(x)
    ensures Lands(s + [OPEN] + [x] + [COMMA], s + [OPEN], LIST)
  {
    var u := s + [OPEN] + [x] + [COMMA];
    assert Back(u, 2) == [x, COMMA];
    assert Folds(u);
    assert Drop(u, 2) == s + [OPEN];
  }

  lemma NextRow(s: seq<Token>, x: Token)
    requires IsGeneric(x)
    ensures Lands(s + [OPEN] + [x] + [CLOSE] + [COMMA] + [OPEN], s + [OPEN], LIST)
  {
    var u := s + [OPEN] + [x] + [CLOSE] + [COMMA] + [OPEN];
    assert Back(u, 2) == [COMMA, OPEN];
    assert Back(u, 4) == [x, CLOSE, COMMA, OPEN];
    assert Folds(u);
    assert Drop(u, 4) == s + [OPEN];
  }

  // ----- rows; `open` is a stack that ends in the parenthesis of the list

  lemma {:induction false} RowRest(r: (nat, seq<Token>) -> seq<Token>, input: seq<Token>, i: nat, s: seq<Token>, x: Token,
                                   row: seq<Entry>, env: Env)
    requires IsRun(r, input, env) && FineRow(row) && At(input, i, [COMMA] + RowBody(row)) && IsGeneric(x)
    ensures r(i, s + [OPEN] + [x]) == r(i + 1 + |RowBody(row)|, s + [OPEN] + [LIST])
    decreases |row|
  {
    AtSplit(input, i, [COMMA], RowBody(row));
    Punctuation(r, input, i, s + [OPEN] + [x], COMMA, env);
    NextEntry(s, x);
    EntryOfRow(r, input, i + 1, s + [OPEN] + [x] + [COMMA], s + [OPEN], LIST, row, env);
    if |row| > 1 {
      RowTail(input, i + 1, row);
      RowRest(r, input, i + 1 + |EntryTokens(row[0])|, s, LIST, row[1..], env);
    }
  }

  lemma RowTail(input: seq<Token>, i: nat, row: seq<Entry>)
    requires FineRow(row) && |row| > 1 && At(input, i, RowBody(row))
    ensures FineRow(row[1..]) && At(input, i + |EntryTokens(row[0])|, [COMMA] + RowBody(row[1..]))
    ensures |RowBody(row)| == |EntryTokens(row[0])| + 1 + |RowBody(row[1..])|
  {
    RowBodyCons(row);
    AtSplit(input, i, EntryTokens(row[0]), [COMMA] + RowBody(row[1..]));
  }

  lemma RowBodyCons(row: seq<Entry>)
    requires |row| > 1
    ensures RowBody(row) == EntryTokens(row[0]) + ([COMMA] + RowBody(row[1..]))
  {
    Assoc(EntryTokens(row[0]), RowBody(row[1..]));
  }

  lemma Assoc(e: seq<Token>, rest: seq<Token>)
    ensures (e + [COMMA]) + rest == e + ([COMMA] + rest)
  {
  }

  /** The first entry of a row. */
  lemma EntryOfRow(r: (nat, seq<Token>) -> seq<Token>, input: seq<Token>, i: nat, u: seq<Token>, below: seq<Token>, x: Token,
                   row: seq<Entry>, env: Env)
    requires IsRun(r, input, env) && FineRow(row) && At(input, i, RowBody(row)) && Lands(u, below, x)
    ensures r(i, u) == r(i + |EntryTokens(row[0])|, below + [x])
    ensures |row| == 1 ==> RowBody(row) == EntryTokens(row[0])
  {
    RowHead(input, i, row);
    EntryStep(r, input, i, u, row[0], below, x, env);
  }

  lemma RowHead(input: seq<Token>, i: nat, row: seq<Entry>)
    requires FineRow(row) && At(input, i, RowBody(row))
    ensures At(input, i, EntryTokens(row[0])) && Fine(row[0])
    ensures |row| == 1 ==> RowBody(row) == EntryTokens(row[0])
  {
    if |row| > 1 {
      RowBodyCons(row);
      AtSplit(input, i, EntryTokens(row[0]), [COMMA] + RowBody(row[1..]));
    }
  }

  /** A whole row after its opening parenthesis, from any stack on which the first literal leaves
      `s`, the parenthesis and a placeholder. */
  lemma RowFrom(r: (nat, seq<Token>) -> seq<Token>, input: seq<Token>, i: nat, u: seq<Token>, s: seq<Token>, x: Token,
                row: seq<Entry>, env: Env)
    requires IsRun(r, input, env) && FineRow(row) && At(input, i, RowBody(row)) && Lands(u, s + [OPEN], x) && IsGeneric(x)
    ensures r(i, u) == r(i + |RowBody(row)|, s + [OPEN] + [if |row| == 1 then x else LIST])
  {
    EntryOfRow(r, input, i, u, s + [OPEN], x, row, env);
    if |row| > 1 {
      RowTail(input, i, row);
      RowRest(r, input, i + |EntryTokens(row[0])|, s, x, row[1..], env);
    }
  }

  lemma RowParts(input: seq<Token>, i: nat, row: seq<Entry>)
    requires FineRow(row) && At(input, i, RowTokens(row))
    ensures At(input, i, [OPEN]) && At(input, i + 1, RowBody(row)) && At(input, i + 1 + |RowBody(row)|, [CLOSE])
    ensures |RowTokens(row)| == |RowBody(row)| + 2
  {
    AtSplit(input, i, [OPEN] + RowBody(row), [CLOSE]);
    AtSplit(input, i, [OPEN], RowBody(row));
  }

  lemma FirstRow(r: (nat, seq<Token>) -> seq<Token>, input: seq<Token>, i: nat, s: seq<Token>, row: seq<Entry>, env: Env)
    requires IsRun(r, input, env) && FineRow(row) && At(input, i, RowTokens(row)) && Opens(s)
    ensures r(i, s) == r(i + |RowTokens(row)|, s + [OPEN] + [if |row| == 1 then GENERIC else LIST] + [CLOSE])
  {
    RowParts(input, i, row);
    Punctuation(r, input, i, s, OPEN, env);
    FirstEntry(s);
    RowFrom(r, input, i + 1, s + [OPEN], s, GENERIC, row, env);
    Punctuation(r, input, i + 1 + |RowBody(row)|, s + [OPEN] + [if |row| == 1 then GENERIC else LIST], CLOSE, env);
  }

  lemma LaterRow(r: (nat, seq<Token>) -> seq<Token>, input: seq<Token>, i: nat, s: seq<Token>, x: Token, row: seq<Entry>, env: Env)
    requires IsRun(r, input, env) && FineRow(row) && At(input, i, [COMMA] + RowTokens(row)) && IsGeneric(x)
    ensures r(i, s + [OPEN] + [x] + [CLOSE]) == r(i + 1 + |RowTokens(row)|, s + [OPEN] + [LIST] + [CLOSE])
  {
    AtSplit(input, i, [COMMA], RowTokens(row));
    RowParts(input, i + 1, row);
    Punctuation(r, input, i, s + [OPEN] + [x] + [CLOSE], COMMA, env);
    Punctuation(r, input, i + 1, s + [OPEN] + [x] + [CLOSE] + [COMMA], OPEN, env);
    NextRow(s, x);
    RowFrom(r, input, i + 2, s + [OPEN] + [x] + [CLOSE] + [COMMA] + [OPEN], s, LIST, row, env);
    Punctuation(r, input, i + 2 + |RowBody(row)|, s + [OPEN] + [LIST], CLOSE, env);
  }

  lemma RowsTail(rows: seq<seq<Entry>>)
    requires FineRows(rows) && |rows| > 1
    ensures FineRow(rows[0]) && FineRows(rows[1..])
    ensures RowsTokens(rows) == RowTokens(rows[0]) + ([COMMA] + RowsTokens(rows[1..]))
  {
    FineTail(rows);
    Assoc(RowTokens(rows[0]), RowsTokens(rows[1..]));
  }

  lemma FineTail(rows: seq<seq<Entry>>)
    requires FineRows(rows) && |rows| > 1
    ensures FineRow(rows[0]) && FineRows(rows[1..])
  {
    assert FineRow(rows[0]) && forall row :: row in rows[1..] ==> row in rows;
  }

  lemma {:induction false} LaterRows(r: (nat, seq<Token>) -> seq<Token>, input: seq<Token>, i: nat, s: seq<Token>, x: Token,
                                     rows: seq<seq<Entry>>, env: Env)
    requires IsRun(r, input, env) && FineRows(rows) && At(input, i, [COMMA] + RowsTokens(rows)) && IsGeneric(x)
    ensures r(i, s + [OPEN] + [x] + [CLOSE]) == r(i + 1 + |RowsTokens(rows)|, s + [OPEN] + [LIST] + [CLOSE])
    decreases |rows|
  {
    if |rows| == 1 {
      LaterRow(r, input, i, s, x, rows[0], env);
    } else {
      RowsTail(rows);
      var row, rest := RowTokens(rows[0]), [COMMA] + RowsTokens(rows[1..]);
      assert [COMMA] + (row + rest) == ([COMMA] + row) + rest;
      AtSplit(input, i, [COMMA] + row, rest);
      LaterRow(r, input, i, s, x, rows[0], env);
      LaterRows(r, input, i + 1 + |row|, s, LIST, rows[1..], env);
    }
  }

  lemma RowsFrom(r: (nat, seq<Token>) -> seq<Token>, input: seq<Token>, i: nat, s: seq<Token>, rows: seq<seq<Entry>>, env: Env)
    requires IsRun(r, input, env) && FineRows(rows) && At(input, i, RowsTokens(rows)) && Opens(s)
    ensures r(i, s) == r(i + |RowsTokens(rows)|, s + [OPEN] + [if |rows| == 1 && |rows[0]| == 1 then GENERIC else LIST] + [CLOSE])
  {
    if |rows| == 1 {
      FirstRow(r, input, i, s, rows[0], env);
    } else {
      RowsTail(rows);
      var row, rest := RowTokens(rows[0]), [COMMA] + RowsTokens(rows[1..]);
      AtSplit(input, i, row, rest);
      FirstRow(r, input, i, s, rows[0], env);
      LaterRows(r, input, i + |row|, s, if |rows[0]| == 1 then GENERIC else LIST, rows[1..], env);
    }
  }

  lemma CountLiterals(rows: seq<seq<Entry>>)
    requires FineRows(rows)
    ensures Literals(rows) >= 2 <==> !(|rows| == 1 && |rows[0]| == 1)
  {
    assert FineRow(rows[0]);
    if |rows| > 1 {
      assert rows[1..][0] == rows[1] && FineRow(rows[1]);
    } else {
      assert rows[1..] == [];
    }
  }

  /** A list of rows of literals leaves one parenthesised placeholder on the stack: the list
      placeholder if there are at least two literals in all, the single one otherwise. */
  lemma RowsCollapse(input: seq<Token>, i: nat, s: seq<Token>, rows: seq<seq<Entry>>, env: Env)
    requires FineRows(rows) && At(input, i, RowsTokens(rows)) && Opens(s)
    ensures Run(input, i, s, env)
         == Run(input, i + |RowsTokens(rows)|, s + [OPEN, if Literals(rows) >= 2 then LIST else GENERIC, CLOSE], env)
  {
    var r := RunOf(input, env);
    RowsFrom(r, input, i, s, rows, env);
    CountLiterals(rows);
    var x := if Literals(rows) >= 2 then LIST else GENERIC;
    assert s + [OPEN] + [x] + [CLOSE] == s + [OPEN, x, CLOSE];
  }
}
