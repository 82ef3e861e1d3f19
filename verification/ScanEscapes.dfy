/**
 Texts written with backslashes and scanned back: what each escape stands for
 (internal/parser/tidb/lexer.go:756-817).
 */
module ScanEscapes {
  import opened Basics
  import opened ScanLiterals

  /** How a character is written between two quote marks where backslashes escape. */
  function Slashed(c: char, q: char): string {
    if c == '\n' then "\\n"
    else if c == '\t' then "\\t"
    else if c == '\r' then "\\r"
    else if c as int == 0 then "\\0"
    else if c as int == 8 then "\\b"
    else if c as int == 26 then "\\Z"
    else if c == '\\' then "\\\\"
    else if c == q then ['\\', q]
    else [c]
  }

  function AllSlashed(x: string, q: char): string { if x == "" then "" else Slashed(x[0], q) + AllSlashed(x[1..], q) }

  lemma OneRead(s: string, i: nat, c: char, q: char, read: string)
    requires i + |Slashed(c, q)| <= |s| && s[i..i + |Slashed(c, q)|] == Slashed(c, q) && (q == '\'' || q == '"')
    ensures ReadQuoted(s, i, q, false, read) == ReadQuoted(s, i + |Slashed(c, q)|, q, false, read + [c])
  {
    var w := Slashed(c, q);
    assert s[i] == w[0];
    if |w| == 2 {
      assert s[i + 1] == w[1];
      assert Escaped(w[1]) == [c];
    }
  }

  lemma Split(s: string, i: nat, w: string, more: string)
    requires i + |w + more| <= |s| && s[i..i + |w + more|] == w + more
    ensures i + |w| <= |s| && s[i..i + |w|] == w && i + |w| + |more| <= |s| && s[i + |w|..i + |w| + |more|] == more
  {
    assert s[i..i + |w|] == s[i..i + |w + more|][..|w|];
    assert s[i + |w|..i + |w| + |more|] == s[i..i + |w + more|][|w|..];
  }

  /** The text stands at i, and behind it the closing quote mark, which is no doubled one. */
  predicate Enclosed(s: string, i: nat, w: string, q: char) {
    i + |w| < |s| && s[i..i + |w|] == w && s[i + |w|] == q && (i + |w| + 1 < |s| ==> s[i + |w| + 1] != q)
  }

  lemma EnclosedNext(s: string, i: nat, w: string, more: string, q: char)
    requires Enclosed(s, i, w + more, q)
    ensures i + |w| <= |s| && s[i..i + |w|] == w && Enclosed(s, i + |w|, more, q)
  {
    Split(s, i, w, more);
  }

  /** Looked into only where Asked(0) is asserted. */
  ghost predicate Reads(s: string, i: nat, q: char, read: string, r: Quote) {
    forall z {:trigger Asked(z)} :: Asked(z) ==> i <= |s| && ReadQuoted(s, i, q, false, read) == r
  }

  lemma ReadEnd(s: string, i: nat, q: char, read: string)
    requires Enclosed(s, i, "", q)
    ensures Reads(s, i, q, read, Closed(read, i + 1))
  {
  }

  lemma ReadOne(s: string, i: nat, c: char, q: char, read: string, r: Quote)
    requires i + |Slashed(c, q)| <= |s| && s[i..i + |Slashed(c, q)|] == Slashed(c, q) && (q == '\'' || q == '"')
    requires Reads(s, i + |Slashed(c, q)|, q, read + [c], r)
    ensures Reads(s, i, q, read, r)
  {
    assert Asked(0);
    OneRead(s, i, c, q, read);
  }

  lemma {:induction false} AllRead(s: string, i: nat, x: string, q: char, read: string)
    requires Enclosed(s, i, AllSlashed(x, q), q) && (q == '\'' || q == '"')
    ensures Reads(s, i, q, read, Closed(read + x, i + |AllSlashed(x, q)| + 1))
    decreases |x|
  {
    if x == "" {
      assert read + "" == read;
      ReadEnd(s, i, q, read);
    } else {
      var w := Slashed(x[0], q);
      EnclosedNext(s, i, w, AllSlashed(x[1..], q), q);
      AllRead(s, i + |w|, x[1..], q, read + [x[0]]);
      assert read + [x[0]] + x[1..] == read + x;
      ReadOne(s, i, x[0], q, read, Closed(read + x, i + |AllSlashed(x, q)| + 1));
    }
  }

  /** Whatever the text, its escaped form is read back as the text. */
  lemma SlashedRead(s: string, i: nat, x: string, q: char)
    requires Enclosed(s, i, AllSlashed(x, q), q) && (q == '\'' || q == '"')
    ensures ReadQuoted(s, i, q, false, "") == Closed(x, i + |AllSlashed(x, q)| + 1)
  {
    AllRead(s, i, x, q, "");
    assert Asked(0) && "" + x == x;
  }

  /** The letters that stand for another character, the two that keep their backslash, and the others. */
  lemma EscapesExactly(b: char)
    ensures |Escaped(b)| == 2 <==> b == '%' || b == '_'
    ensures |Escaped(b)| == 2 ==> Escaped(b) == "\\" + [b]
    ensures |Escaped(b)| == 1 && Escaped(b) != [b] <==> b in "n0bZrt"
    ensures Escaped('n') == "\n" && Escaped('t') == "\t" && Escaped('r') == "\r"
    ensures Escaped('0')[0] as int == 0 && Escaped('b')[0] as int == 8 && Escaped('Z')[0] as int == 26
  {
  }
}
