/**
 The loops of the statement readers, proved to do what the functions of Readers and DmlReaders say
 (internal/syntax/postgres/parser.go:29-75, 198-276, internal/syntax/mysql/parser.go:194-298).
 */
module ParserLoops {
  import opened Basics
  import opened Strings
  import opened TopLevel
  import opened Statements
  import opened Readers
  import opened DmlReaders
  import opened JoinReading
  import opened MySqlJoins

  method FindFirstJoin(s: string) returns (best: int, keyword: string)
    ensures (best, keyword) == FindJoin(s)
  {
    var keywords := [LEFT_JOIN, INNER_JOIN, JOIN];
    best, keyword := -1, "";
    ghost var first := Earlier(-1, "", Find(OUT, s, LEFT_JOIN), LEFT_JOIN);
    ghost var second := Earlier(first.0, first.1, Find(OUT, s, INNER_JOIN), INNER_JOIN);
    for i := 0 to 3
      invariant (best, keyword) == if i == 0 then (-1, "") else if i == 1 then first else if i == 2 then second else FindJoin(s)
    {
      var index := FindTopLevelKeyword(s, keywords[i]);
      if index >= 0 && (best < 0 || index < best) {
        best, keyword := index, keywords[i];
      }
    }
  }

  /** One round: the keyword is dropped, the table ends at ON, the condition at the next join. */
  method ReadOneJoin(given: string) returns (r: JoinRead)
    ensures JoinGives(given, r)
  {
    var at, keyword := FindFirstJoin(" " + given);
    keyword := Trim(keyword);
    var remainder := Trim(DropPrefix(given, keyword));
    var onIdx := FindTopLevelKeyword(remainder, ON);
    if onIdx < 0 { return Stop; }
    var table, afterOn := Trim(remainder[..onIdx]), Trim(remainder[onIdx + |ON|..]);
    var nextIdx, nextKeyword := FindFirstJoin(" " + afterOn);
    FindJoinFits(" " + afterOn);
    if nextIdx < 0 { return Last(Join(keyword, table, Trim(afterOn))); }
    var onExpr := Trim(afterOn[..nextIdx]);
    r := More(Join(keyword, table, onExpr), Trim(afterOn[nextIdx..]));
  }

  /** What is read and what is left make up what there was. (Looked into only where Asked(0) is asserted.) */
  ghost predicate Progress(joins: seq<Join>, remainder: string, start: string) {
    forall z {:trigger Asked(z)} :: Asked(z) ==> joins + JoinsFrom(remainder) == JoinsFrom(start)
  }

  lemma ProgressStarts(start: string)
    ensures Progress([], start, start)
  {
    assert [] + JoinsFrom(start) == JoinsFrom(start);
  }

  lemma ProgressEnds(joins: seq<Join>, start: string)
    requires Progress(joins, "", start)
    ensures JoinsGive(start, joins)
  {
    assert Asked(0);
    assert joins + [] == joins;
  }

  lemma ProgressStops(joins: seq<Join>, remainder: string, start: string)
    requires Progress(joins, remainder, start) && remainder != "" && JoinGives(remainder, Stop)
    ensures JoinsGive(start, joins)
  {
    assert Asked(0);
    assert joins + [] == joins;
  }

  lemma ProgressLasts(joins: seq<Join>, remainder: string, start: string, j: Join)
    requires Progress(joins, remainder, start) && remainder != "" && JoinGives(remainder, Last(j))
    ensures JoinsGive(start, joins + [j])
  {
    assert Asked(0);
  }

  lemma ProgressGoesOn(joins: seq<Join>, remainder: string, start: string, j: Join, rest: string)
    requires Progress(joins, remainder, start) && remainder != "" && JoinGives(remainder, More(j, rest))
    ensures Progress(joins + [j], rest, start) && |rest| < |remainder|
  {
    assert Asked(0);
    ReadJoinShortens(remainder);
    assert joins + ([j] + JoinsFrom(rest)) == joins + [j] + JoinsFrom(rest);
  }

  method ReadJoins(start: string) returns (joins: seq<Join>)
    ensures JoinsGive(start, joins)
  {
    joins := [];
    var remainder := start;
    ProgressStarts(start);
    while remainder != ""
      invariant Progress(joins, remainder, start)
      decreases |remainder|
    {
      var r := ReadOneJoin(remainder);
      match r {
        case Stop =>
          ProgressStops(joins, remainder, start);
          return;
        case Last(j) =>
          ProgressLasts(joins, remainder, start, j);
          joins := joins + [j];
          return;
        case More(j, rest) =>
          ProgressGoesOn(joins, remainder, start, j, rest);
          joins, remainder := joins + [j], rest;
      }
    }
    ProgressEnds(joins, start);
  }

  method ReadFromAndJoins(input: string) returns (from: string, joins: seq<Join>)
    ensures FromGives(input, from, joins)
  {
    var base := Trim(input);
    var index, keyword := FindFirstJoin(base);
    FindJoinFits(base);
    if index < 0 { return base, []; }
    from := Trim(base[..index]);
    joins := ReadJoins(Trim(base[index..]));
    assert FromGives(input, from, joins) by { assert Asked(0); }
  }

  method ReadClauses(columns: seq<string>, after: string) returns (r: Outcome<Statement>)
    ensures r == PostgresClauses(columns, after)
  {
    var whereIdx := FindTopLevelKeyword(after, WHERE);
    var orderIdx := FindTopLevelKeyword(after, ORDER_BY);
    var limitIdx := FindTopLevelKeyword(after, LIMIT);
    var fromEnd := Earliest(whereIdx, orderIdx, limitIdx);
    if fromEnd < 0 { fromEnd := |after|; }
    assert after[..|after|] == after;
    var from, joins := ReadFromAndJoins(after[..fromEnd]);
    r := ReadRest(columns, after, whereIdx, orderIdx, limitIdx, from, joins);
  }

  method ReadRest(columns: seq<string>, after: string, w: int, o: int, l: int, from: string, joins: seq<Join>)
    returns (r: Outcome<Statement>)
    requires Earliest(w, o, l) <= |after| && (l < 0 || l + |LIMIT| <= |after|)
    requires FromGives(FromPart(after, w, o, l), from, joins)
    ensures r == PostgresClausesAt(columns, after, w, o, l)
  {
    assert Asked(0);
    var where := WhereOf(after, w, o, l);
    if !where.Ok? { return Panics; }
    var order: Outcome<seq<string>> := Ok([]);
    if o >= 0 {
      var part := Slice(after, o + |ORDER_BY|, if l > o then l else |after|);
      if !part.Ok? { return Panics; }
      var pieces := SplitTopLevelCSV(part.value);
      order := Ok(pieces);
    }
    var limit := PostgresLimitOf(after, l);
    if !limit.Ok? { return Failed; }
    r := Ok(Select(columns, from, joins, where.value, order.value, limit.value));
  }

  method ReadSelect(sql: string) returns (r: Outcome<Statement>)
    requires |sql| >= |SELECT|
    ensures r == PostgresSelect(sql)
  {
    var body := Trim(sql[|SELECT|..]);
    var fromIdx := FindTopLevelKeyword(body, FROM);
    if fromIdx < 0 { return Ok(Raw(sql)); }
    var columns := SplitTopLevelCSV(body[..fromIdx]);
    r := ReadClauses(columns, body[fromIdx + |FROM|..]);
  }

  function Prepended(done: seq<Assignment>, rest: Outcome<seq<Assignment>>): Outcome<seq<Assignment>> {
    if rest.Ok? then Ok(done + rest.value) else Failed
  }

  lemma PairStep(done: seq<Assignment>, parts: seq<string>, i: nat)
    requires i < |parts|
    ensures var head := CutEquals(parts[i]);
      Prepended(done, PairUp(parts[i..])) == if head.Ok? then Prepended(done + [head.value], PairUp(parts[i + 1..])) else Failed
  {
    var tail := parts[i..];
    assert tail[1..] == parts[i + 1..] && tail[0] == parts[i];
    var head, rest := CutEquals(parts[i]), PairUp(parts[i + 1..]);
    if head.Ok? && rest.Ok? {
      assert done + ([head.value] + rest.value) == done + [head.value] + rest.value;
    }
  }

  /** The whole list fails with its first part that has no equals sign. */
  method ReadAssignmentList(input: string) returns (r: Outcome<seq<Assignment>>)
    ensures r == ReadAssignments(input)
  {
    var parts := SplitTopLevelCSV(input);
    r := PairList(parts);
  }

  method PairList(parts: seq<string>) returns (r: Outcome<seq<Assignment>>)
    ensures r == PairUp(parts)
  {
    var assignments: seq<Assignment> := [];
    ghost var all := PairUp(parts);
    assert parts[0..] == parts;
    assert Prepended([], all) == all by { assert all.Ok? ==> [] + all.value == all.value; }
    for i := 0 to |parts|
      invariant Prepended(assignments, PairUp(parts[i..])) == all
    {
      PairStep(assignments, parts, i);
      var a := CutEquals(parts[i]);
      if !a.Ok? { return Failed; }
      assignments := assignments + [a.value];
    }
    assert parts[|parts|..] == [] && assignments + [] == assignments;
    r := Ok(assignments);
  }

  method NormalizeIdentifiers(values: seq<string>) returns (r: seq<string>)
    ensures r == OuterAll(values)
  {
    r := [];
    assert values[0..] == values;
    for i := 0 to |values|
      invariant r + OuterAll(values[i..]) == OuterAll(values)
    {
      assert values[i..][1..] == values[i + 1..] && values[i..][0] == values[i];
      r := r + [Outer(values[i])];
    }
    assert values[|values|..] == [];
  }

  // ----- the joins of the MySQL reader

  method SplitJoin(input: string) returns (r: Remainder)
    ensures r == SplitRemainder(input)
  {
    var onIdx := FindTopLevelKeyword(input, ON);
    if onIdx < 0 { return Remainder(input, "", ""); }
    var table, afterOn := Trim(input[..onIdx]), Trim(input[onIdx + |ON|..]);
    var nextIdx, keyword := FindFirstJoin(afterOn);
    FindJoinFits(afterOn);
    r := SplitOnAt(table, afterOn, nextIdx);
  }

  /** The loop's answer from here on. (Looked into only where Asked(0) is asserted.) */
  ghost predicate Answers(base: string, joins: seq<Join>, from: string, all: seq<Join>) {
    forall z {:trigger Asked(z)} :: Asked(z) ==> MySqlFrom(base, joins) == (from, all)
  }

  /** What one round finds: whether there is a join, the text before it, the join and what follows. */
  datatype Round = Round(found: bool, table: string, join: Join, tail: string)

  /** Looked into only where Asked(0) is asserted. */
  ghost predicate RoundIs(base: string, r: Round) {
    forall z {:trigger Asked(z)} :: Asked(z) ==>
      (r.found <==> FindJoin(base).0 >= 0) && (r.found ==>
        && FindJoin(base).0 <= |base| && r.table == Trim(base[..FindJoin(base).0])
        && r.join == AsJoin(FindJoin(base).1, SplitRemainder(AfterKeyword(base)))
        && r.tail == Trim(SplitRemainder(AfterKeyword(base)).tail))
  }

  lemma RoundFrom(base: string, i: nat, keyword: string, after: string, rest: Remainder)
    requires FindJoin(base) == (i, keyword) && i + |keyword| <= |base| && after == Trim(base[i + |keyword|..])
    requires rest == SplitRemainder(after)
    ensures RoundIs(base, Round(true, Trim(base[..i]), AsJoin(keyword, rest), Trim(rest.tail)))
  {
    assert AfterKeyword(base) == after;
  }

  method OneRound(base: string) returns (r: Round)
    ensures RoundIs(base, r)
  {
    var index, keyword := FindFirstJoin(base);
    FindJoinFits(base);
    if index < 0 { return Round(false, "", Join("", "", ""), ""); }
    var after := Trim(base[index + |keyword|..]);
    var rest := SplitJoin(after);
    RoundFrom(base, index, keyword, after, rest);
    r := Round(true, Trim(base[..index]), AsJoin(keyword, rest), Trim(rest.tail));
  }

  lemma RoundEnds(base: string, joins: seq<Join>, from: string, all: seq<Join>, r: Round)
    requires Answers(base, joins, from, all) && RoundIs(base, r) && !r.found
    ensures from == Trim(base) && all == joins
  {
    assert Asked(0);
  }

  lemma RoundReturns(base: string, joins: seq<Join>, from: string, all: seq<Join>, r: Round)
    requires Answers(base, joins, from, all) && RoundIs(base, r) && r.found && r.table != ""
    ensures from == r.table && all == joins + [r.join] + AppendJoins(r.tail)
  {
    assert Asked(0);
  }

  lemma RoundGoesOn(base: string, joins: seq<Join>, from: string, all: seq<Join>, r: Round)
    requires Answers(base, joins, from, all) && RoundIs(base, r) && r.found && r.table == ""
    ensures Answers(r.tail, joins + [r.join], from, all) && |r.tail| < |base|
  {
    assert Asked(0);
    TailShorter(base);
  }

  method ReadMySqlFrom(input: string, given: seq<Join>) returns (from: string, joins: seq<Join>)
    ensures Answers(input, given, from, joins)
  {
    var base := input;
    joins := given;
    ghost var first, all := MySqlFrom(input, given).0, MySqlFrom(input, given).1;
    assert Answers(input, given, first, all);
    while true
      invariant Answers(base, joins, first, all)
      decreases |base|
    {
      var r := OneRound(base);
      if !r.found {
        RoundEnds(base, joins, first, all, r);
        return Trim(base), joins;
      }
      if r.table != "" {
        RoundReturns(base, joins, first, all, r);
        return r.table, joins + [r.join] + AppendJoins(r.tail);
      }
      RoundGoesOn(base, joins, first, all, r);
      joins, base := joins + [r.join], r.tail;
    }
  }

  method ReadMySqlSelect(sql: string) returns (r: Outcome<Statement>)
    requires |sql| >= |SELECT|
    ensures r == MySqlSelect(sql)
  {
    var body := Trim(sql[|SELECT|..]);
    var fromIdx := FindTopLevelKeyword(body, FROM);
    if fromIdx < 0 { return Ok(Raw(sql)); }
    var columns := SplitTopLevelCSV(body[..fromIdx]);
    r := ReadMySqlClauses(columns, body[fromIdx + |FROM|..]);
  }

  method ReadMySqlClauses(columns: seq<string>, after: string) returns (r: Outcome<Statement>)
    ensures r == MySqlClauses(columns, after)
  {
    var whereIdx := FindTopLevelKeyword(after, WHERE);
    var orderIdx := FindTopLevelKeyword(after, ORDER_BY);
    var limitIdx := FindTopLevelKeyword(after, LIMIT);
    var from, joins := ReadMySqlFrom(Trim(FromPart(after, whereIdx, orderIdx, limitIdx)), []);
    assert Asked(0);
    var limit := MySqlLimitOf(after, limitIdx);
    r := Assembled(columns, (from, joins), after, whereIdx, orderIdx, limitIdx, limit);
  }
}
