/**
 Trimming and letter case on ASCII text.
 */
module Strings {

  predicate IsSpace(c: char) { 9 <= c as int <= 13 || c == ' ' }

  function TrimLeft(s: string): string {
    if s != "" && IsSpace(s[0]) then TrimLeft(s[1..]) else s
  }

  function TrimRight(s: string): string {
    if s != "" && IsSpace(s[|s| - 1]) then TrimRight(s[..|s| - 1]) else s
  }

  lemma {:induction false} TrimLeftIs(s: string)
    ensures var t := TrimLeft(s); |t| <= |s| && t == s[|s| - |t|..] && (t != "" ==> !IsSpace(t[0]))
  {
    if s != "" && IsSpace(s[0]) { TrimLeftIs(s[1..]); }
  }

  lemma {:induction false} TrimRightIs(s: string)
    ensures var t := TrimRight(s); t <= s && (t != "" ==> !IsSpace(t[|t| - 1]))
  {
    if s != "" && IsSpace(s[|s| - 1]) { TrimRightIs(s[..|s| - 1]); }
  }

  /** Trimming takes white space off both ends, and nothing else. */
  lemma TrimIs(s: string)
    ensures Trimmed(Trim(s)) && |Trim(s)| <= |s|
  {
    TrimLeftIs(s);
    TrimRightIs(TrimLeft(s));
  }

  /** Tab, line feed, vertical tab, form feed, carriage return and blank. */
  lemma SpacesAre(c: char)
    ensures IsSpace(c) <==> c == '\t' || c == '\n' || c as int == 11 || c as int == 12 || c == '\r' || c == ' '
  {
  }

  function Trim(s: string): string {
    TrimRight(TrimLeft(s))
  }

  /** Neither end is white space. */
  predicate Trimmed(s: string) {
    s != "" ==> !IsSpace(s[0]) && !IsSpace(s[|s| - 1])
  }

  function LowerChar(c: char): char { if 'A' <= c <= 'Z' then (c as int + 32) as char else c }

  function UpperChar(c: char): char { if 'a' <= c <= 'z' then (c as int - 32) as char else c }

  function Lower(s: string): (t: string)
    ensures |t| == |s| && forall i :: 0 <= i < |s| ==> t[i] == LowerChar(s[i])
  {
    if s == "" then "" else [LowerChar(s[0])] + Lower(s[1..])
  }

  function Upper(s: string): (t: string)
    ensures |t| == |s| && forall i :: 0 <= i < |s| ==> t[i] == UpperChar(s[i])
  {
    if s == "" then "" else [UpperChar(s[0])] + Upper(s[1..])
  }

  /** The same character, or a letter from A to Z and the same one from a to z. */
  predicate SameLetter(c: char, d: char) {
    || c == d
    || ('a' <= c <= 'z' && d as int == c as int - 'a' as int + 'A' as int)
    || ('a' <= d <= 'z' && c as int == d as int - 'a' as int + 'A' as int)
  }

  /** The same text but for the case of its letters. */
  predicate Alike(s: string, t: string) {
    |s| == |t| && forall i :: 0 <= i < |s| ==> SameLetter(s[i], t[i])
  }

  lemma OneCase(c: char, d: char)
    ensures UpperChar(c) == UpperChar(d) <==> SameLetter(c, d)
    ensures LowerChar(c) == LowerChar(d) <==> SameLetter(c, d)
  {
  }

  /** Texts are alike exactly when one case makes them equal, whichever it is. */
  lemma AlikeExactly(s: string, t: string)
    ensures Alike(s, t) <==> Upper(s) == Upper(t)
    ensures Alike(s, t) <==> Lower(s) == Lower(t)
  {
    if |s| == |t| {
      forall i | 0 <= i < |s|
        ensures SameLetter(s[i], t[i]) <==> Upper(s)[i] == Upper(t)[i]
        ensures SameLetter(s[i], t[i]) <==> Lower(s)[i] == Lower(t)[i]
      {
        OneCase(s[i], t[i]);
      }
      if Alike(s, t) {
        assert Upper(s) == Upper(t) && Lower(s) == Lower(t);
      }
    }
  }

  lemma AlikeItself(s: string)
    ensures Alike(s, s)
  {
  }

  lemma AlikeAppend(a: string, b: string, x: string, y: string)
    requires Alike(a, b) && Alike(x, y)
    ensures Alike(a + x, b + y)
  {
  }

  lemma AlikeEnds(s: string, t: string)
    requires Alike(s, t)
    ensures Trimmed(s) <==> Trimmed(t)
  {
  }

  /** The pieces with ", " between them. */
  function CommaList(ps: seq<string>): string {
    if ps == [] then "" else if |ps| == 1 then ps[0] else ps[0] + (", " + CommaList(ps[1..]))
  }
}
