/**
 The feature list of a versioned comment, read by a three-state automaton
 (internal/parser/tidb/lexer.go:972-1016).
 */
module ScanFeatures {
  import opened ScanText

  datatype State = Init | ExpectChar | ObtainChar

  datatype Features = Accepts(ids: seq<string>, end: nat) | Rejects

  /** The automaton from position j on; `name` is the name being read and `ids` those before it. */
  function Automaton(s: string, j: nat, state: State, name: string, ids: seq<string>): (r: Features)
    requires j <= |s|
    ensures r.Accepts? ==> j < r.end <= |s|
    decreases |s| - j
  {
    if j == |s| then Rejects
    else
      match state
      case Init => if s[j] == '[' then Automaton(s, j + 1, ExpectChar, name, ids) else Rejects
      case ExpectChar => if IsIdentChar(s[j]) then Automaton(s, j + 1, ObtainChar, name + [s[j]], ids) else Rejects
      case ObtainChar =>
        if IsIdentChar(s[j]) then Automaton(s, j + 1, ObtainChar, name + [s[j]], ids)
        else if s[j] == ',' then Automaton(s, j + 1, ExpectChar, "", ids + [name])
        else if s[j] == ']' then Accepts(ids + [name], j + 1)
        else Rejects
  }

  // ----- the language

  predicate IsName(n: string) { n != "" && AllIdent(n) }

  predicate AllIdent(n: string) { forall i :: 0 <= i < |n| ==> IsIdentChar(n[i]) }

  predicate Names(ids: seq<string>) {
    ids != [] && forall i :: 0 <= i < |ids| ==> IsName(ids[i])
  }

  function Commas(ids: seq<string>): string
    requires ids != []
  {
    if |ids| == 1 then ids[0] else ids[0] + ("," + Commas(ids[1..]))
  }

  /** From i to end there is a bracketed list of names, with commas between them. */
  predicate IsList(s: string, i: nat, end: nat, ids: seq<string>) {
    i <= end <= |s| && Names(ids) && s[i..end] == "[" + (Commas(ids) + "]")
  }

  // ----- every list is accepted

  lemma SliceParts(s: string, j: nat, end: nat, a: string, b: string)
    requires j <= end <= |s| && s[j..end] == a + b
    ensures j + |a| <= end && s[j..j + |a|] == a && s[j + |a|..end] == b
  {
    assert s[j..j + |a|] == s[j..end][..|a|];
    assert s[j + |a|..end] == s[j..end][|a|..];
  }

  lemma {:induction false} NamePassed(s: string, j: nat, n: string, name: string, ids: seq<string>)
    requires j + |n| <= |s| && s[j..j + |n|] == n && AllIdent(n)
    ensures Automaton(s, j, ObtainChar, name, ids) == Automaton(s, j + |n|, ObtainChar, name + n, ids)
    decreases |n|
  {
    if n == "" {
      assert name + n == name;
    } else {
      assert s[j] == s[j..j + |n|][0] && s[j + 1..j + |n|] == s[j..j + |n|][1..];
      NamePassed(s, j + 1, n[1..], name + [n[0]], ids);
      assert name + [n[0]] + n[1..] == name + n;
    }
  }

  lemma FirstNamePassed(s: string, j: nat, n: string, ids: seq<string>)
    requires j + |n| <= |s| && s[j..j + |n|] == n && IsName(n)
    ensures Automaton(s, j, ExpectChar, "", ids) == Automaton(s, j + |n|, ObtainChar, n, ids)
  {
    assert s[j] == s[j..j + |n|][0] && s[j + 1..j + |n|] == s[j..j + |n|][1..];
    NamePassed(s, j + 1, n[1..], [n[0]], ids);
    assert "" + [n[0]] == [n[0]] && [n[0]] + n[1..] == n;
  }

  lemma LastAccepted(s: string, k: nat, end: nat, n: string, done: seq<string>)
    requires k <= end <= |s| && s[k..end] == "]"
    ensures Automaton(s, k, ObtainChar, n, done) == Accepts(done + [n], end)
  {
    assert s[k] == s[k..end][0];
  }

  lemma CommaPassed(s: string, k: nat, end: nat, n: string, rest: string, done: seq<string>)
    requires k <= end <= |s| && s[k..end] == "," + rest
    ensures k + 1 <= end && s[k + 1..end] == rest
    ensures Automaton(s, k, ObtainChar, n, done) == Automaton(s, k + 1, ExpectChar, "", done + [n])
  {
    assert s[k] == s[k..end][0] && s[k + 1..end] == s[k..end][1..];
  }

  lemma CommasSpelled(ids: seq<string>)
    requires ids != []
    ensures Commas(ids) + "]" == ids[0] + if |ids| == 1 then "]" else "," + (Commas(ids[1..]) + "]")
  {
  }

  lemma {:induction false} NamesAccepted(s: string, j: nat, end: nat, ids: seq<string>, done: seq<string>)
    requires j <= end <= |s| && Names(ids) && s[j..end] == Commas(ids) + "]"
    ensures Automaton(s, j, ExpectChar, "", done) == Accepts(done + ids, end)
    decreases |ids|
  {
    var n := ids[0];
    var rest := if |ids| == 1 then "]" else "," + (Commas(ids[1..]) + "]");
    CommasSpelled(ids);
    SliceParts(s, j, end, n, rest);
    FirstNamePassed(s, j, n, done);
    if |ids| == 1 {
      LastAccepted(s, j + |n|, end, n, done);
      assert [n] == ids;
    } else {
      CommaPassed(s, j + |n|, end, n, Commas(ids[1..]) + "]", done);
      NamesAccepted(s, j + |n| + 1, end, ids[1..], done + [n]);
      HeadMoved(done, ids);
    }
  }

  lemma HeadMoved(done: seq<string>, ids: seq<string>)
    requires ids != []
    ensures done + [ids[0]] + ids[1..] == done + ids
  {
  }

  // ----- nothing else is

  lemma CommasFirst(n: string, more: seq<string>)
    requires more != []
    ensures Commas([n] + more) == n + ("," + Commas(more))
  {
    assert ([n] + more)[1..] == more;
  }

  /** What was accepted from the middle of a name, or from its start, is the rest of a list. */
  lemma {:induction false} AcceptedIsNames(s: string, j: nat, name: string, done: seq<string>, starts: bool) returns (more: seq<string>)
    requires j <= |s| && AllIdent(name) && (starts <==> name == "")
    requires Automaton(s, j, if starts then ExpectChar else ObtainChar, name, done).Accepts?
    ensures var r := Automaton(s, j, if starts then ExpectChar else ObtainChar, name, done);
      r.ids == done + more && Names(more) && name + s[j..r.end] == Commas(more) + "]"
    decreases |s| - j
  {
    var r := Automaton(s, j, if starts then ExpectChar else ObtainChar, name, done);
    assert s[j..r.end] == [s[j]] + s[j + 1..r.end];
    if IsIdentChar(s[j]) {
      more := AcceptedIsNames(s, j + 1, name + [s[j]], done, false);
      assert name + [s[j]] + s[j + 1..r.end] == name + s[j..r.end];
    } else if s[j] == ',' {
      var tail := AcceptedIsNames(s, j + 1, "", done + [name], true);
      more := [name] + tail;
      CommasFirst(name, tail);
      assert done + [name] + tail == done + more;
      assert name + s[j..r.end] == name + ("," + ("" + s[j + 1..r.end]));
    } else {
      more := [name];
      assert s[j..r.end] == "]";
    }
  }

  lemma ListAccepted(s: string, i: nat, ids: seq<string>, end: nat)
    requires IsList(s, i, end, ids)
    ensures Automaton(s, i, Init, "", []) == Accepts(ids, end)
  {
    SliceParts(s, i, end, "[", Commas(ids) + "]");
    assert s[i] == s[i..i + 1][0];
    NamesAccepted(s, i + 1, end, ids, []);
    assert [] + ids == ids;
  }

  lemma AcceptedList(s: string, i: nat, ids: seq<string>, end: nat)
    requires i <= |s| && Automaton(s, i, Init, "", []) == Accepts(ids, end)
    ensures IsList(s, i, end, ids)
  {
    var more := AcceptedIsNames(s, i + 1, "", [], true);
    assert [] + more == more;
    Bracketed(s, i, end, Commas(ids) + "]");
  }

  lemma Bracketed(s: string, i: nat, end: nat, rest: string)
    requires i < end <= |s| && s[i] == '[' && "" + s[i + 1..end] == rest
    ensures s[i..end] == "[" + rest
  {
  }

  /** The automaton accepts exactly the bracketed lists of names, with these names, and stops after the bracket. */
  lemma FeaturesExactly(s: string, i: nat, ids: seq<string>, end: nat)
    requires i <= |s|
    ensures Automaton(s, i, Init, "", []) == Accepts(ids, end) <==> IsList(s, i, end, ids)
  {
    if IsList(s, i, end, ids) { ListAccepted(s, i, ids, end); }
    if Automaton(s, i, Init, "", []) == Accepts(ids, end) { AcceptedList(s, i, ids, end); }
  }

  /** A list of names has only name characters and commas between its brackets. */
  lemma {:induction false} CommasChars(ids: seq<string>)
    requires Names(ids)
    ensures var t := Commas(ids); t != "" && forall i :: 0 <= i < |t| ==> IsIdentChar(t[i]) || t[i] == ','
  {
    assert IsName(ids[0]);
    if |ids| > 1 { CommasChars(ids[1..]); }
  }

  lemma ListIsFeatureText(s: string, i: nat, end: nat, ids: seq<string>)
    requires IsList(s, i, end, ids)
    ensures FeatureText(s[i..end])
  {
    CommasChars(ids);
  }
}
