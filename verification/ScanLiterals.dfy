/**
 What a quoted text stands for (internal/parser/tidb/lexer.go:687-710, 756-817), and what the renderer writes for a text
 (internal/render/render.go:1078-1080, 1259-1267).
 */
module ScanLiterals {

  /** The text between the quotes and where the scan stops, or nothing when the quote is not closed. */
  datatype Quote = Closed(content: string, end: nat) | Unclosed

  /** What a backslash and the character after it stand for. */
  function Escaped(b: char): string {
    if b == 'n' then "\n"
    else if b == '0' then [0 as char]
    else if b == 'b' then [8 as char]
    else if b == 'Z' then [26 as char]
    else if b == 'r' then "\r"
    else if b == 't' then "\t"
    else if b == '%' || b == '_' then ['\\', b]
    else [b]
  }

  /** A text from i on, inside quotes; `plain` means that a backslash is a character like any other. */
  function ReadQuoted(s: string, i: nat, q: char, plain: bool, read: string): (r: Quote)
    requires i <= |s|
    ensures r.Closed? ==> i < r.end <= |s|
    decreases |s| - i
  {
    if i == |s| then Unclosed
    else if s[i] == q then
      (if i + 1 < |s| && s[i + 1] == q then ReadQuoted(s, i + 2, q, plain, read + [q]) else Closed(read, i + 1))
    else if s[i] == '\\' && !plain then
      (if i + 1 == |s| then Unclosed else ReadQuoted(s, i + 2, q, plain, read + Escaped(s[i + 1])))
    else ReadQuoted(s, i + 1, q, plain, read + [s[i]])
  }

  /** Every quote doubled. */
  function Doubled(x: string, q: char): string {
    if x == "" then "" else (if x[0] == q then [q, q] else [x[0]]) + Doubled(x[1..], q)
  }

  /** The literal the renderer writes for a text. */
  function Literal(x: string): string { "'" + (Doubled(x, '\'') + "'") }

  /** Every backslash stands before a percent sign or an underscore, where reading keeps both. */
  predicate Kept(x: string) {
    forall i :: 0 <= i < |x| && x[i] == '\\' ==> i + 1 < |x| && (x[i + 1] == '%' || x[i + 1] == '_')
  }

  lemma KeptTail(x: string, n: nat)
    requires n <= |x| && n <= 2 && (n > 0 ==> x[0] != '\\' || n == 2) && (n == 2 ==> (x[1] == '%' || x[1] == '_') && x[0] == '\\')
    ensures Kept(x) <==> Kept(x[n..])
  {
    var y := x[n..];
    if Kept(y) {
      forall i | 0 <= i < |x| && x[i] == '\\' ensures i + 1 < |x| && (x[i + 1] == '%' || x[i + 1] == '_') {
        if i >= n { assert y[i - n] == x[i]; }
      }
    }
    if Kept(x) {
      forall i | 0 <= i < |y| && y[i] == '\\' ensures i + 1 < |y| && (y[i + 1] == '%' || y[i + 1] == '_') {
        assert x[i + n] == y[i];
      }
    }
  }

  /** What stands at i: the rest of a doubled text, the closing quote and something else. */
  predicate Stands(s: string, i: nat, x: string, q: char) {
    var d := Doubled(x, q);
    && i + |d| < |s| && s[i..i + |d|] == d && s[i + |d|] == q && (i + |d| + 1 < |s| ==> s[i + |d| + 1] != q)
  }

  lemma StandsNext(s: string, i: nat, x: string, q: char)
    requires Stands(s, i, x, q) && x != ""
    ensures var n := if x[0] == q then 2 else 1;
      && i + n + |Doubled(x[1..], q)| == i + |Doubled(x, q)| && Stands(s, i + n, x[1..], q)
      && s[i] == x[0] && (x[0] == q ==> i + 1 < |s| && s[i + 1] == q)
  {
    var d, e, n := Doubled(x, q), Doubled(x[1..], q), if x[0] == q then 2 else 1;
    assert d[n..] == e && d[0] == x[0];
    assert s[i + n..i + n + |e|] == s[i..i + |d|][n..];
    assert s[i] == s[i..i + |d|][0];
    if n == 2 { assert s[i + 1] == s[i..i + |d|][1] && d[1] == q; }
  }

  /** A kept text is read back. */
  lemma {:induction false} ReadsKept(s: string, i: nat, x: string, q: char, plain: bool, read: string)
    requires Stands(s, i, x, q) && q != '\\' && q != '%' && q != '_' && (plain || Kept(x))
    ensures ReadQuoted(s, i, q, plain, read) == Closed(read + x, i + |Doubled(x, q)| + 1)
    decreases |x|
  {
    if x == "" {
      assert read + "" == read;
    } else {
      StandsNext(s, i, x, q);
      if x[0] == '\\' && !plain {
        KeptEscape(s, i, x, q, read);
        ReadsKept(s, i + 2, x[2..], q, plain, read + Escaped(x[1]));
      } else {
        if !plain { KeptTail(x, 1); }
        ReadsKept(s, if x[0] == q then i + 2 else i + 1, x[1..], q, plain, read + [x[0]]);
        assert read + [x[0]] + x[1..] == read + x;
      }
    }
  }

  lemma KeptEscape(s: string, i: nat, x: string, q: char, read: string)
    requires Stands(s, i, x, q) && q != '\\' && q != '%' && q != '_' && x != "" && x[0] == '\\' && Kept(x)
    ensures |x| > 1 && i + 2 <= |s| && Stands(s, i + 2, x[2..], q) && Kept(x[2..])
    ensures i + 2 + |Doubled(x[2..], q)| == i + |Doubled(x, q)|
    ensures ReadQuoted(s, i, q, false, read) == ReadQuoted(s, i + 2, q, false, read + Escaped(x[1]))
    ensures read + Escaped(x[1]) + x[2..] == read + x
  {
    assert x[1] == '%' || x[1] == '_';
    StandsNext(s, i, x, q);
    StandsNext(s, i + 1, x[1..], q);
    KeptTail(x, 2);
    assert x[1..][1..] == x[2..];
  }

  /** Once a quote of a pair has been escaped, the closing quote is not read as one. */
  lemma {:induction false} Misaligned(s: string, i: nat, y: string, q: char, read: string)
    requires i < |s| && s[i] == q && q != '\\' && Stands(s, i + 1, y, q)
    ensures var r := ReadQuoted(s, i, q, false, read); r.Closed? ==> r.end != i + 1 + |Doubled(y, q)| + 1
    decreases |y|
  {
    if y != "" {
      StandsNext(s, i + 1, y, q);
      if y[0] == q { Misaligned(s, i + 2, y[1..], q, read + [q]); }
    }
  }

  /** What is read up to the closing quote is never longer than the text, and shorter unless it is kept. */
  lemma {:induction false} ReadsAtMost(s: string, i: nat, x: string, q: char, read: string)
    requires Stands(s, i, x, q) && q != '\\' && q != '%' && q != '_'
    ensures var r := ReadQuoted(s, i, q, false, read);
      r.Closed? && r.end == i + |Doubled(x, q)| + 1 ==> |r.content| <= |read| + |x| && (!Kept(x) ==> |r.content| < |read| + |x|)
    decreases |x|
  {
    if x != "" {
      StandsNext(s, i, x, q);
      if x[0] == '\\' {
        BackslashAtMost(s, i, x, q, read);
        if |x| > 1 && x[1] != q {
          StandsNext(s, i + 1, x[1..], q);
          assert x[1..][1..] == x[2..];
          ReadsAtMost(s, i + 2, x[2..], q, read + Escaped(x[1]));
          if x[1] == '%' || x[1] == '_' { KeptTail(x, 2); }
        }
      } else {
        KeptTail(x, 1);
        ReadsAtMost(s, if x[0] == q then i + 2 else i + 1, x[1..], q, read + [x[0]]);
      }
    }
  }

  /** A backslash before a quote, or at the end, hides the closing quote. */
  lemma BackslashAtMost(s: string, i: nat, x: string, q: char, read: string)
    requires Stands(s, i, x, q) && q != '\\' && x != "" && x[0] == '\\'
    ensures |x| == 1 || x[1] == q ==> var r := ReadQuoted(s, i, q, false, read); r.Closed? ==> r.end != i + |Doubled(x, q)| + 1
    ensures |x| > 1 && x[1] != q ==> i + 1 < |s| && s[i + 1] == x[1]
    ensures |x| > 1 && x[1] != q ==> ReadQuoted(s, i, q, false, read) == ReadQuoted(s, i + 2, q, false, read + Escaped(x[1]))
  {
    StandsNext(s, i, x, q);
    if |x| > 1 {
      StandsNext(s, i + 1, x[1..], q);
      if x[1] == q {
        assert x[1..][1..] == x[2..];
        Misaligned(s, i + 2, x[2..], q, read + Escaped(q));
      }
    } else {
      assert x[1..] == "";
    }
  }

  lemma LiteralStands(before: string, x: string, after: string)
    requires after == "" || after[0] != '\''
    ensures Stands(before + (Literal(x) + after), |before| + 1, x, '\'')
  {
    var d := Doubled(x, '\'');
    var s, head := before + (Literal(x) + after), before + "'";
    assert s == head + (d + ("'" + after));
    assert s[|head|..] == d + ("'" + after);
  }

  /**
   Scanning the literal of a text gives the text back and stops just past the literal exactly when the
   scanner takes backslashes as they are, or every backslash in the text is one that reading keeps.
   */
  lemma LiteralUndoneExactly(before: string, x: string, after: string, plain: bool)
    requires after == "" || after[0] != '\''
    ensures ReadQuoted(before + (Literal(x) + after), |before| + 1, '\'', plain, "") == Closed(x, |before| + |Literal(x)|)
      <==> plain || Kept(x)
  {
    LiteralStands(before, x, after);
    var s, i := before + (Literal(x) + after), |before| + 1;
    if plain || Kept(x) {
      ReadsKept(s, i, x, '\'', plain, "");
      assert "" + x == x;
    } else {
      ReadsAtMost(s, i, x, '\'', "");
    }
  }

  // ----- identifiers, whose quotes the renderer does not double

  /** What stands at i: a text, the closing quote and something else. */
  predicate Bounded(s: string, i: nat, x: string, q: char) {
    i + |x| < |s| && s[i..i + |x|] == x && s[i + |x|] == q && (i + |x| + 1 < |s| ==> s[i + |x| + 1] != q)
  }

  lemma BoundedNext(s: string, i: nat, x: string, q: char)
    requires Bounded(s, i, x, q) && x != ""
    ensures s[i] == x[0] && Bounded(s, i + 1, x[1..], q) && (|x| > 1 ==> s[i + 1] == x[1]) && (|x| == 1 ==> s[i + 1] == q)
  {
    assert s[i] == s[i..i + |x|][0];
    assert s[i + 1..i + |x|] == s[i..i + |x|][1..];
    if |x| > 1 { assert s[i + 1] == s[i..i + |x|][1]; }
  }

  lemma {:induction false} ReadsName(s: string, i: nat, x: string, q: char, read: string)
    requires Bounded(s, i, x, q) && q !in x
    ensures ReadQuoted(s, i, q, true, read) == Closed(read + x, i + |x| + 1)
    decreases |x|
  {
    if x == "" {
      assert read + "" == read;
    } else {
      BoundedNext(s, i, x, q);
      ReadsName(s, i + 1, x[1..], q, read + [x[0]]);
      assert read + [x[0]] + x[1..] == read + x;
    }
  }

  lemma {:induction false} ReadsLess(s: string, i: nat, x: string, q: char, read: string)
    requires Bounded(s, i, x, q)
    ensures var r := ReadQuoted(s, i, q, true, read);
      r.Closed? && r.end == i + |x| + 1 ==> |r.content| <= |read| + |x| && (q in x ==> |r.content| < |read| + |x|)
    decreases |x|
  {
    if x != "" {
      BoundedNext(s, i, x, q);
      if x[0] != q {
        ReadsLess(s, i + 1, x[1..], q, read + [x[0]]);
        assert q in x <==> q in x[1..];
      } else if |x| > 1 && x[1] == q {
        BoundedNext(s, i + 1, x[1..], q);
        ReadsLess(s, i + 2, x[1..][1..], q, read + [q]);
      }
    }
  }

  /** What the renderer writes for an identifier part. */
  function BackQuoted(name: string): string { "`" + (name + "`") }

  lemma NameStands(before: string, name: string, after: string)
    requires after == "" || after[0] != '`'
    ensures Bounded(before + (BackQuoted(name) + after), |before| + 1, name, '`')
  {
    var s, head := before + (BackQuoted(name) + after), before + "`";
    assert s == head + (name + ("`" + after));
    assert s[|head|..] == name + ("`" + after);
  }

  /** A name between back quotes is scanned back, and to its end, exactly when there is none in it. */
  lemma NameUndoneExactly(before: string, name: string, after: string)
    requires after == "" || after[0] != '`'
    ensures ReadQuoted(before + (BackQuoted(name) + after), |before| + 1, '`', true, "") == Closed(name, |before| + |BackQuoted(name)|)
      <==> '`' !in name
  {
    NameStands(before, name, after);
    var s, i := before + (BackQuoted(name) + after), |before| + 1;
    if '`' !in name {
      ReadsName(s, i, name, '`', "");
      assert "" + name == name;
    } else {
      ReadsLess(s, i, name, '`', "");
    }
  }
}
