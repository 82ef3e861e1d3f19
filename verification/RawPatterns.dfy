/**
 What each pattern of the rewriting does to a text that has one match of it
 (internal/render/render.go:14-20, 1164-1197).
 */
module RawPatterns {
  import opened Basics
  import opened Strings
  import opened Numerals
  import opened Placeholders
  import opened Readers
  import opened LetterCase
  import opened Rewriting
  import opened LimitTurns

  // ----- plain replacements

  /** The word does not start in `a` when `tail` follows. */
  predicate Before(a: string, tail: string, word: string) {
    a == "" || (!(word <= a + tail) && Before(a[1..], tail, word))
  }

  lemma {:induction false} FirstIsBefore(a: string, tail: string, word: string)
    requires word != "" && IndexOf(a + tail, word) == |a|
    ensures Before(a, tail, word) && word <= tail
  {
    var s := a + tail;
    if a == "" {
      assert s == tail;
    } else {
      assert s[1..] == a[1..] + tail;
      FirstIsBefore(a[1..], tail, word);
    }
  }

  lemma {:induction false} ReplacedBehind(a: string, tail: string, word: string, put: string)
    requires word != "" && Before(a, tail, word)
    ensures Replaced(a + tail, word, put) == a + Replaced(tail, word, put)
    decreases |a|
  {
    if a == "" {
      assert a + tail == tail && "" + Replaced(tail, word, put) == Replaced(tail, word, put);
    } else {
      var s := a + tail;
      assert s[1..] == a[1..] + tail && s[0] == a[0];
      ReplacedBehind(a[1..], tail, word, put);
      ReplacedNext(s, word, put);
      Assoc([a[0]], a[1..], Replaced(tail, word, put));
      assert [a[0]] + a[1..] == a;
    }
  }

  lemma WordReplaced(word: string, rest: string, put: string)
    requires word != ""
    ensures Replaced(word + rest, word, put) == put + Replaced(rest, word, put)
  {
    assert word <= word + rest && (word + rest)[|word|..] == rest;
  }

  /** The leftmost match is replaced, and the search goes on behind it. */
  lemma ReplacedFirst(a: string, word: string, rest: string, put: string)
    requires word != "" && IndexOf(a + (word + rest), word) == |a|
    ensures Replaced(a + (word + rest), word, put) == a + (put + Replaced(rest, word, put))
  {
    FirstIsBefore(a, word + rest, word);
    ReplacedBehind(a, word + rest, word, put);
    WordReplaced(word, rest, put);
  }

  /** A word whose last character stands nowhere before its own end. */
  lemma {:induction false} LastIsBefore(a: string, word: string, rest: string)
    requires word != "" && word[|word| - 1] !in a && word[|word| - 1] !in word[..|word| - 1]
    ensures Before(a, word + rest, word)
    decreases |a|
  {
    if a != "" {
      LastIsLater(a, word, rest, word[..|word| - 1], word[|word| - 1]);
      LastIsBefore(a[1..], word, rest);
    }
  }

  lemma LastIsLater(a: string, word: string, rest: string, head: string, last: char)
    requires a != "" && word == head + [last] && last !in a && last !in head
    ensures !(word <= a + (word + rest))
  {
    var s, n := a + (word + rest), |head|;
    assert s == (a + head) + ([last] + rest);
    assert s[n] == (a + head)[n];
    assert last !in a + head;
    assert word[n] == last;
  }

  predicate NoParens(s: string) { '(' !in s && ')' !in s }

  lemma ParensGone(a: string, b: string, c: string)
    requires NoParens(a) && NoParens(b) && NoParens(c)
    ensures NoParens(a + (b + c))
  {
  }

  /** One match of a word that ends in a parenthesis. */
  lemma OneReplaced(a: string, word: string, rest: string, put: string)
    requires word != "" && word[|word| - 1] !in a && word[|word| - 1] !in word[..|word| - 1] && word[|word| - 1] !in rest
    ensures Replaced(a + (word + rest), word, put) == a + (put + rest)
  {
    LastIsBefore(a, word, rest);
    ReplacedBehind(a, word + rest, word, put);
    WordReplaced(word, rest, put);
    NotReplaced(rest, word, put);
  }

  lemma NoneReplaced(s: string)
    requires NoParens(s)
    ensures Replaced(s, NOW, STAMP) == s && Replaced(s, STAMP_CALL, STAMP) == s && Replaced(s, KEY, KEY_SPACED) == s
  {
    NotReplaced(s, NOW, STAMP);
    NotReplaced(s, STAMP_CALL, STAMP);
    NotReplaced(s, KEY, KEY_SPACED);
  }

  /** NOW() becomes CURRENT_TIMESTAMP. */
  lemma NowReplaced(a: string, rest: string)
    requires NoParens(a) && NoParens(rest)
    ensures Worded(a + ("NOW()" + rest)) == a + ("CURRENT_TIMESTAMP" + rest)
  {
    assert NOW[..4] == "NOW(";
    OneReplaced(a, NOW, rest, STAMP);
    ParensGone(a, STAMP, rest);
    NoneReplaced(a + (STAMP + rest));
  }

  /** CURRENT_TIMESTAMP() loses its parentheses. */
  lemma StampReplaced(a: string, rest: string)
    requires NoParens(a) && NoParens(rest)
    ensures Worded(a + ("CURRENT_TIMESTAMP()" + rest)) == a + ("CURRENT_TIMESTAMP" + rest)
  {
    assert STAMP_CALL[..18] == "CURRENT_TIMESTAMP(";
    var b := a + STAMP;
    assert a + (STAMP_CALL + rest) == b + ("()" + rest) by { assert STAMP_CALL == STAMP + "()"; }
    assert b[|b| - 1] == 'P';
    NotNow(b, rest);
    OneReplaced(a, STAMP_CALL, rest, STAMP);
    ParensGone(a, STAMP, rest);
    NoneReplaced(a + (STAMP + rest));
  }

  /** Parentheses behind another word are no NOW(). */
  lemma NotNow(a: string, rest: string)
    requires NoParens(a) && NoParens(rest) && a != "" && a[|a| - 1] != 'W'
    ensures Replaced(a + ("()" + rest), NOW, STAMP) == a + ("()" + rest)
  {
    var t := "()" + rest;
    NowIsLater(a, rest);
    ReplacedBehind(a, t, NOW, STAMP);
    ParensKept(rest);
  }

  lemma ParensKept(rest: string)
    requires NoParens(rest)
    ensures Replaced("()" + rest, NOW, STAMP) == "()" + rest
  {
    assert ("()" + rest)[0] == '(' && (")" + rest)[0] == ')' && "()"[1..] == ")" && ")"[1..] == "";
    assert Before(")", rest, NOW);
    ReplacedBehind("()", rest, NOW, STAMP);
    NotReplaced(rest, NOW, STAMP);
  }

  lemma {:induction false} NowIsLater(a: string, rest: string)
    requires NoParens(a) && NoParens(rest) && a != "" && a[|a| - 1] != 'W'
    ensures Before(a, "()" + rest, NOW)
    decreases |a|
  {
    NotNowHere(a, rest);
    if |a| > 1 { NowIsLater(a[1..], rest); }
  }

  lemma NotNowHere(a: string, rest: string)
    requires NoParens(a) && a != "" && a[|a| - 1] != 'W'
    ensures !(NOW <= a + ("()" + rest))
  {
    var s := a + ("()" + rest);
    assert s[|a|] == '(' && s[|a| - 1] == a[|a| - 1];
    assert |a| > 3 ==> s[3] == a[3];
    assert NOW[3] == '(' && NOW[2] == 'W' && NOW[0] != '(' && NOW[1] != '(';
  }

  /** A blank is put before the parenthesis of a primary key. */
  lemma KeyReplaced(a: string, rest: string)
    requires NoParens(a) && NoParens(rest)
    ensures Worded(a + ("PRIMARY KEY(" + rest)) == a + ("PRIMARY KEY (" + rest)
  {
    var s := a + (KEY + rest);
    assert ')' !in KEY && ')' !in s;
    NotReplaced(s, NOW, STAMP);
    NotReplaced(s, STAMP_CALL, STAMP);
    assert KEY[..11] == "PRIMARY KEY";
    OneReplaced(a, KEY, rest, KEY_SPACED);
  }

  // ----- charset introducers

  predicate Alnums(s: string) { s != "" && forall i :: 0 <= i < |s| ==> IsAlnum(s[i]) }

  lemma IntroducerIs(name: string, b: string, rest: string)
    requires Alnums(name) && Blanks(b)
    ensures Introducer("_" + (name + (b + ("'" + rest)))) == |name| + |b| + 2
  {
    var t, u := name + (b + ("'" + rest)), b + ("'" + rest);
    var s := "_" + t;
    assert u[0] == '\'' || IsBlank(u[0]) by { if b != "" { assert IsBlank(b[0]); } }
    StretchIs(name, u, IsAlnum);
    assert s[1..] == t && t[|name|..] == u;
    StretchIs(b, "'" + rest, IsBlank);
    assert u[|b|] == '\'';
  }

  /** Without a quote mark before the underscore, there are no blanks with a quote mark behind them. */
  lemma NoBlankQuote(a: string, more: string)
    requires '\'' !in a
    ensures BlankQuote(a + ("_" + more)) == 0
  {
    var u := a + ("_" + more);
    StretchTail(a, "_" + more, IsBlank);
    assert Stretch("_" + more, IsBlank) == 0;
    var k := Stretch(a, IsBlank);
    assert u[k] == if k < |a| then a[k] else '_';
  }

  lemma NoNameQuote(a: string, more: string)
    requires '\'' !in a
    ensures NameQuote(a + ("_" + more)) == 0
  {
    var n := Stretch(a, IsAlnum);
    StretchTail(a, "_" + more, IsAlnum);
    assert Stretch("_" + more, IsAlnum) == 0;
    assert (a + ("_" + more))[n..] == a[n..] + ("_" + more);
    NoBlankQuote(a[n..], more);
    NameQuoteAt(a + ("_" + more), n, 0);
  }

  lemma NoQuoteHere(a: string, more: string)
    requires a != "" && '\'' !in a
    ensures Introducer(a + ("_" + more)) == 0
  {
    assert (a + ("_" + more))[1..] == a[1..] + ("_" + more);
    NoNameQuote(a[1..], more);
  }

  lemma OneKept(a: string, more: string)
    requires a != "" && '\'' !in a
    ensures Unintroduced(a + ("_" + more)) == [a[0]] + Unintroduced(a[1..] + ("_" + more))
  {
    var s := a + ("_" + more);
    NoQuoteHere(a, more);
    assert s[1..] == a[1..] + ("_" + more) && s[0] == a[0];
    UnintroducedStep(s, 1, [s[0]]);
  }

  /** The introducer of a text literal is taken away, the literal stays. */
  lemma {:induction false} IntroducerDropped(a: string, name: string, b: string, rest: string)
    requires Alnums(name) && Blanks(b) && '\'' !in a
    ensures Unintroduced(a + ("_" + (name + (b + ("'" + rest))))) == a + ("'" + Unintroduced(rest))
    decreases |a|
  {
    var more, out := name + (b + ("'" + rest)), "'" + Unintroduced(rest);
    if a == "" {
      BehindIntroducer(name, b, rest);
      assert "" + ("_" + more) == "_" + more && "" + out == out;
    } else {
      OneKept(a, more);
      IntroducerDropped(a[1..], name, b, rest);
      Assoc([a[0]], a[1..], out);
      assert [a[0]] + a[1..] == a;
    }
  }

  lemma BehindIntroducer(name: string, b: string, rest: string)
    requires Alnums(name) && Blanks(b)
    ensures Unintroduced("_" + (name + (b + ("'" + rest)))) == "'" + Unintroduced(rest)
  {
    var s := "_" + (name + (b + ("'" + rest)));
    IntroducerIs(name, b, rest);
    assert s == "_" + name + b + "'" + rest;
    assert s[|name| + |b| + 2..] == rest;
    UnintroducedStep(s, |name| + |b| + 2, "'");
  }

  // ----- ILIKE

  lemma LikedStep(s: string, i: nat, n: nat, put: string)
    requires s != "" && Ilike(s) == i && n == (if i > 0 then i else 1) && put == if i > 0 then " LIKE " else [s[0]]
    ensures n <= |s| && Liked(s) == put + Liked(s[n..])
  {
  }

  lemma RestIs(a: string, b: string, c: string, rest: string)
    ensures (a + (b + (c + rest)))[|a| + |b| + |c|..] == rest
  {
    assert (c + rest)[|c|..] == rest;
    assert (b + (c + rest))[|b| + |c|..] == rest;
  }

  lemma LikedAt(s: string, n: nat, rest: string)
    requires s != "" && Ilike(s) == n > 0 && n <= |s| && s[n..] == rest
    ensures Liked(s) == " LIKE " + Liked(rest)
  {
    LikedStep(s, n, n, " LIKE ");
  }

  lemma LikeHere(b: string, word: string, d: string, rest: string)
    requires Blanks(b) && Blanks(d) && b != "" && d != "" && Alike(word, "ILIKE") && (rest == "" || !IsBlank(rest[0]))
    ensures Liked(b + (word + (d + rest))) == " LIKE " + Liked(rest)
  {
    var s := b + (word + (d + rest));
    IlikeIs(b, word, d, rest);
    RestIs(b, word, d, rest);
    LikedAt(s, |b| + |word| + |d|, rest);
  }

  lemma OneLikedKept(a: string, tail: string)
    requires a != "" && !IsBlank(a[0])
    ensures Liked(a + tail) == [a[0]] + Liked(a[1..] + tail)
  {
    var s := a + tail;
    assert s[0] == a[0] && Stretch(s, IsBlank) == 0;
    assert s[1..] == a[1..] + tail;
    LikedStep(s, 0, 1, [s[0]]);
  }

  lemma {:induction false} LikeBehind(a: string, tail: string, out: string)
    requires (forall i :: 0 <= i < |a| ==> !IsBlank(a[i])) && Liked(tail) == out
    ensures Liked(a + tail) == a + out
    decreases |a|
  {
    if a == "" {
      assert "" + tail == tail && "" + out == out;
    } else {
      OneLikedKept(a, tail);
      LikeBehind(a[1..], tail, out);
      Assoc([a[0]], a[1..], out);
      assert [a[0]] + a[1..] == a;
    }
  }

  /** ILIKE, in any case of letters and with white space around it, becomes LIKE between two blanks. */
  lemma LikeWritten(a: string, b: string, word: string, d: string, rest: string)
    requires (forall i :: 0 <= i < |a| ==> !IsBlank(a[i])) && Blanks(b) && Blanks(d) && b != "" && d != "" && Alike(word, "ILIKE")
    requires rest == "" || !IsBlank(rest[0])
    ensures Liked(a + (b + (word + (d + rest)))) == a + (" LIKE " + Liked(rest))
  {
    LikeHere(b, word, d, rest);
    LikeBehind(a, b + (word + (d + rest)), " LIKE " + Liked(rest));
  }

  lemma IlikeIs(b: string, word: string, d: string, rest: string)
    requires Blanks(b) && Blanks(d) && b != "" && d != "" && Alike(word, "ILIKE") && (rest == "" || !IsBlank(rest[0]))
    ensures Ilike(b + (word + (d + rest))) == |b| + 5 + |d|
  {
    var t, u := word + (d + rest), d + rest;
    var s := b + t;
    assert SameLetter(word[0], "ILIKE"[0]);
    StretchIs(b, t, IsBlank);
    assert s[|b|..] == t && t[..5] == word;
    MatchesExactly(t, "ILIKE");
    assert s[|b| + 5..] == u;
    StretchIs(d, rest, IsBlank);
  }

  // ----- numbers of placeholders

  lemma {:induction false} MarkPassed(a: string, tail: string)
    requires '$' !in a
    ensures Unnumbered(a + tail, '$') == a + Unnumbered(tail, '$')
    decreases |a|
  {
    var out := Unnumbered(tail, '$');
    if a == "" {
      assert a + tail == tail && a + out == out;
    } else {
      assert (a + tail)[1..] == a[1..] + tail && (a + tail)[0] == a[0];
      MarkPassed(a[1..], tail);
      Assoc([a[0]], a[1..], out);
      assert [a[0]] + a[1..] == a;
    }
  }

  /** A dollar sign and the digits behind it become a question mark. */
  lemma NumberDropped(a: string, digits: string, rest: string)
    requires '$' !in a && AllDigits(digits) && (rest == "" || !IsDigit(rest[0]))
    ensures Unnumbered(a + ("$" + (digits + rest)), '$') == a + ("?" + Unnumbered(rest, '$'))
  {
    var t := "$" + (digits + rest);
    MarkPassed(a, t);
    RunOfDigits(digits, rest);
    assert DigitRun(rest) == 0 && t[1..] == digits + rest && t[1] == digits[0];
    assert t[1 + |digits|..] == rest;
  }

  /** A dollar sign without digits stays. */
  lemma DollarKept(a: string, rest: string)
    requires '$' !in a && (rest == "" || !IsDigit(rest[0]))
    ensures Unnumbered(a + ("$" + rest), '$') == a + ("$" + Unnumbered(rest, '$'))
  {
    var t := "$" + rest;
    MarkPassed(a, t);
    assert t[1..] == rest;
  }
}
