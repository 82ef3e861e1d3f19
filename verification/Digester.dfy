/**
 The digester object (internal/parser/tidb/digester.go:139-279): a token stack that is pushed
 and popped while the scanner advances, and the buffer its text is written to. Every pop is
 checked to be within the stack.
 */
module Digester {
  import opened Basics
  import opened DigestSource
  import opened DigestTokens
  import opened DigestOrder
  import opened ScanText

  class SqlDigester {
    const tables: Tables
    var src: Source         // the text, and what the scanner will return, call by call
    var pos: nat            // how many tokens it has returned
    var at: nat             // where its reader stands in the text
    var tokens: seq<Token>
    var buffer: string

    ghost predicate Ready()
      reads this
    {
      DigestSource.Valid(src) && pos <= |src.tokens| && at <= |src.sql|
    }

    constructor (tables: Tables)
      ensures this.tables == tables && tokens == [] && buffer == ""
    {
      this.tables := tables;
      src, pos, at, tokens, buffer := Source("", [], []), 0, 0, [], "";
    }

    /** The next token, or None at end of input. */
    method Scan() returns (t: Option<Token>)
      requires Ready()
      modifies `pos, `at
      ensures Ready() && at == Reader(src, old(pos) + 1)
      ensures old(pos) < |src.tokens| ==> t == Some(src.tokens[old(pos)]) && pos == old(pos) + 1
      ensures old(pos) == |src.tokens| ==> t == None && pos == old(pos)
    {
      if pos == |src.tokens| {
        at := |src.sql|;
        return None;
      }
      t := Some(src.tokens[pos]);
      at := src.spans[pos].end;
      pos := pos + 1;
    }

    /** The source pops nothing when asked for more than there is; no call here does that. */
    method PopBack(n: nat)
      requires n <= |tokens|
      modifies `tokens
      ensures tokens == Drop(old(tokens), n)
    {
      tokens := tokens[..|tokens| - n];
    }

    method PushBack(t: Token)
      modifies `tokens
      ensures tokens == old(tokens) + [t]
    {
      tokens := tokens + [t];
    }

    /** Whether the stack is ORDER or GROUP, BY, perhaps a parenthesis, and tokens each followed by a comma. */
    method IsOrderOrGroupBy() returns (b: bool)
      ensures b <==> EndsInOrderList(tokens)
      ensures b == OrderOrGroupFrom(tokens, 2)
    {
      KeptExactly(tokens);
      var n := 2;
      while true
        invariant n >= 2 && OrderOrGroupFrom(tokens, n) == OrderOrGroupFrom(tokens, 2)
        decreases |tokens| - n
      {
        if |tokens| < n { return false; }
        if !IsComma(tokens[|tokens| - n + 1]) { break; }
        n := n + 2;
      }
      var last := Back(tokens, n);
      if last[1].lit == Open {
        last := Back(tokens, n + 1);
        if |last| < 2 { return false; }
      }
      return OrderBy(last[0], last[1]);
    }

    /** Collapses literals and lists of literals at the top of the stack; an integer that folds nothing stays
        exactly in a list after ORDER BY or GROUP BY. */
    method ReduceLit(currTok: Token) returns (c: Token)
      modifies `tokens
      ensures tokens == Popped(old(tokens), currTok) && c == Reduced(old(tokens), currTok)
      ensures currTok.kind == IntLit && currTok.lit != Star ==>
        var u := Unsigned(old(tokens), IntLit); c == currTok <==> !Folds(u) && EndsInOrderList(u)
    {
      if currTok.kind == IntLit && currTok.lit != Star { IntegerStaysExactly(tokens, currTok); }
      if !IsLit(currTok) { return currTok; }
      if currTok.lit == Star {
        if IsStarParam(tokens) { return GENERIC; }
        return currTok;
      }
      if IsPrefixByUnary(tokens, currTok.kind) { PopBack(1); }
      assert tokens == Unsigned(old(tokens), currTok.kind);
      if IsGenericList(Back(tokens, 2)) {
        PopBack(2);
        return LIST;
      }
      var toPop := GenericListWithCharset(Back(tokens, 4));
      if toPop != 0 {
        PopBack(toPop);
        return LIST;
      }
      if IsGenericLists(Back(tokens, 4)) {
        PopBack(4);
        return LIST;
      }
      if currTok.kind == IntLit {
        var kept := IsOrderOrGroupBy();
        if kept { return currTok; }
      }
      return GENERIC;
    }

    /** Drops an index hint, together with its closing parenthesis and the keyword before it. */
    method ReduceOptimizerHint(tok: Token) returns (reduced: bool, renamed: Token, ghost calls: nat)
      requires Ready() && at == Reader(src, pos)
      modifies `pos, `at, `tokens
      ensures Ready() && at == Reader(src, calls)
      ensures HintOpens(old(tokens), tok) ==>
                && pos == HintEnd(src.tokens, old(pos)) && calls == HintCalls(src.tokens, old(pos))
                && renamed == tok && reduced == HintCloses(src.tokens, old(pos))
                && tokens == if reduced then Drop(old(tokens), 1) else old(tokens)
      ensures !HintOpens(old(tokens), tok) ==>
                pos == old(pos) && calls == pos && tokens == old(tokens) && !reduced && renamed == Renamed(tok)
    {
      reduced, renamed, calls := false, tok, pos;
      if tok.kind == HintComment { return; }
      if tok.lit == Index && |tokens| >= 1 && IndexHint(tokens[|tokens| - 1].lit) {
        calls := HintCalls(src.tokens, pos);
        while true
          invariant Ready() && old(pos) <= pos && tokens == old(tokens) && !reduced
          invariant HintEnd(src.tokens, pos) == HintEnd(src.tokens, old(pos))
          invariant HintCalls(src.tokens, pos) == HintCalls(src.tokens, old(pos))
          invariant HintCloses(src.tokens, pos) == HintCloses(src.tokens, old(pos))
          decreases |src.tokens| - pos
        {
          var t := Scan();
          if t.None? || t.value.kind == Invalid { break; }
          if t.value.lit == Close {
            reduced := true;
            PopBack(1);
            break;
          }
        }
        return;
      }
      if tok.lit == StraightJoin { renamed := Token(tok.kind, Join); }
    }

    /** Looks an identifier up as a keyword, unless the text shows a dot before or after it. */
    method IsTokenIdentifier(lit: Lit, offset: nat) returns (k: Option<Kind>)
      requires Ready() && offset <= |src.sql|
      modifies `at
      ensures Ready() && k == Looked(lit, ShownIn(src.sql, offset, old(at), tables.ignoreSpace), tables)
    {
      if at < |src.sql| && src.sql[at] == '.' { return None; }
      var idx: nat := offset;
      while idx > 0
        invariant idx <= offset && DotBefore(src.sql, idx) == DotBefore(src.sql, offset)
      {
        if src.sql[idx - 1] == ' ' {
          idx := idx - 1;
          continue;
        } else if src.sql[idx - 1] == '.' {
          return None;
        }
        break;
      }
      var call := at < |src.sql| && src.sql[at] == '(';
      if !call && tables.ignoreSpace {
        SkipWhitespace();
        call := at < |src.sql| && src.sql[at] == '(';
      }
      k := tables.keyword(lit, call);
    }

    method SkipWhitespace()
      requires Ready()
      modifies `at
      ensures Ready() && at == PastBlanks(src.sql, old(at))
    {
      while at < |src.sql| && IsBlank(src.sql[at])
        invariant at <= |src.sql| && PastBlanks(src.sql, at) == PastBlanks(src.sql, old(at))
      {
        at := at + 1;
      }
    }

    /** Charset introducers and keywords get their own token code. */
    method Classify(c: Token, offset: nat, ghost p: Place) returns (classified: Token)
      requires Ready() && p.token < |src.tokens| && offset == src.spans[p.token].start && at == Reader(src, p.calls)
      modifies `at
      ensures Ready() && classified == Classified(c, p, EnvOf(src, tables))
    {
      classified := c;
      if c.kind == Identifier {
        if c.lit.Underscored? && tables.knownCharset(c.lit.rest) { return Token(UnderscoreCS, c.lit); }
        var keyword := IsTokenIdentifier(c.lit, offset);
        assert keyword == EnvOf(src, tables).keywordAt(c.lit, p);
        if keyword.Some? { classified := Token(keyword.value, c.lit); }
      }
    }

    /** The rest of a pass: literals are reduced, keywords classified, and the token is pushed. */
    method PushReduced(tok: Token, offset: nat, ghost p: Place)
      requires Ready() && p.token < |src.tokens| && offset == src.spans[p.token].start && at == Reader(src, p.calls)
      modifies `at, `tokens
      ensures Ready() && tokens == Step(old(tokens), tok, p, EnvOf(src, tables))
    {
      var currTok := ReduceLit(tok);
      currTok := Classify(currTok, offset, p);
      PushBack(currTok);
    }

    /** One pass of the main loop. */
    method Take(tok: Token, offset: nat)
      requires Ready() && pos >= 1 && at == Reader(src, pos) && tok == src.tokens[pos - 1]
      requires offset == src.spans[pos - 1].start
      modifies `pos, `at, `tokens
      ensures Ready() && pos == PassEnd(src.tokens, old(pos) - 1, old(tokens))
      ensures tokens == PassStack(src.tokens, old(pos) - 1, old(tokens), EnvOf(src, tables))
    {
      ghost var i := (pos - 1) as nat;
      var reduced, currTok, calls := ReduceOptimizerHint(tok);
      if reduced { return; }
      PushReduced(currTok, offset, Place(i, calls));
    }

    /** The main loop, then the text of the stack. */
    method Normalize(sql: Source)
      requires DigestSource.Valid(sql)
      modifies this
      ensures buffer == old(buffer) + Text(Digest(sql, tables))
      ensures tokens == []
    {
      src, pos, at, tokens := sql, 0, 0, [];
      while true
        invariant Ready() && src == sql && buffer == old(buffer)
        invariant Run(src.tokens, pos, tokens, EnvOf(src, tables)) == Digest(sql, tables)
        decreases |src.tokens| - pos
      {
        var next := Scan();
        if next.None? || next.value.kind == Invalid { break; }
        PassAny(src.tokens, pos - 1, tokens, EnvOf(src, tables));
        Take(next.value, src.spans[pos - 1].start);
      }
      WriteTokens();
      tokens := [];
    }

    method WriteTokens()
      modifies `buffer
      ensures buffer == old(buffer) + Text(tokens)
    {
      var i := 0;
      assert tokens[..0] == [];
      while i < |tokens|
        invariant i <= |tokens| && buffer == old(buffer) + Text(tokens[..i])
      {
        assert tokens[..i + 1][..i] == tokens[..i];
        if i > 0 { buffer := buffer + " "; }
        buffer := buffer + Written(tokens[i]);
        i := i + 1;
      }
      assert tokens[..|tokens|] == tokens;
    }
  }
}
