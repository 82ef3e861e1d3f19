/**
 The text that a token stream was scanned from, and what that text shows around an identifier
 (internal/parser/tidb/misc.go:1134-1183): a dot on either side makes it part of a qualified name, an
 opening parenthesis after it the name of a function.
 */
module DigestSource {
  import opened Basics
  import opened DigestTokens
  import opened ScanText

  /** The tokens of a text, each with the interval it was scanned from. */
  datatype Span = Span(start: nat, end: nat)
  datatype Source = Source(sql: string, tokens: seq<Token>, spans: seq<Span>)

  predicate Valid(src: Source) {
    && |src.spans| == |src.tokens|
    && (forall i :: 0 <= i < |src.spans| ==> From(src, i) <= src.spans[i].start <= src.spans[i].end <= |src.sql|)
  }

  /** Where token `i` begins, its leading gap included. */
  function From(src: Source, i: nat): nat
    requires i <= |src.spans|
  {
    if i == 0 then 0 else src.spans[i - 1].end
  }

  /** The keyword tables, with and without those for names of functions, and the charset table. */
  datatype Tables = Tables(keyword: (Lit, bool) -> Option<Kind>, knownCharset: string -> bool, ignoreSpace: bool)

  /** Looking back past blanks finds a dot. */
  predicate DotBefore(sql: string, n: nat)
    requires n <= |sql|
  {
    n > 0 && (sql[n - 1] == '.' || (sql[n - 1] == ' ' && DotBefore(sql, n - 1)))
  }

  predicate Next(sql: string, n: nat, c: char) { n < |sql| && sql[n] == c }

  function PastBlanks(sql: string, n: nat): (m: nat)
    requires n <= |sql|
    ensures n <= m <= |sql|
    decreases |sql| - n
  {
    if n < |sql| && IsBlank(sql[n]) then PastBlanks(sql, n + 1) else n
  }

  /** Where the reader stands after so many calls; once the tokens are used up, at the end. */
  function Reader(src: Source, calls: nat): (n: nat)
    requires Valid(src)
    ensures n <= |src.sql|
  {
    if calls <= |src.tokens| then From(src, calls) else |src.sql|
  }

  datatype Shown = Qualified | Called | Plain

  function ShownIn(sql: string, start: nat, at: nat, ignoreSpace: bool): Shown
    requires start <= |sql| && at <= |sql|
  {
    if Next(sql, at, '.') || DotBefore(sql, start) then Qualified
    else if Next(sql, at, '(') || (ignoreSpace && Next(sql, PastBlanks(sql, at), '(')) then Called
    else Plain
  }

  function ShownAt(src: Source, p: Place, ignoreSpace: bool): Shown
    requires Valid(src)
  {
    if p.token < |src.tokens| then ShownIn(src.sql, src.spans[p.token].start, Reader(src, p.calls), ignoreSpace) else Plain
  }

  /** A dot stands before n, with blanks only between. */
  predicate DotBack(sql: string, n: nat) {
    n <= |sql| && exists d :: 0 <= d < n && sql[d] == '.' && forall j :: d < j < n ==> sql[j] == ' '
  }

  lemma {:induction false} DotBeforeExactly(sql: string, n: nat)
    requires n <= |sql|
    ensures DotBefore(sql, n) <==> DotBack(sql, n)
  {
    if n > 0 {
      DotBeforeExactly(sql, n - 1);
      if DotBack(sql, n - 1) && sql[n - 1] == ' ' {
        var d :| 0 <= d < n - 1 && sql[d] == '.' && forall j :: d < j < n - 1 ==> sql[j] == ' ';
        assert forall j :: d < j < n ==> sql[j] == ' ';
      }
      if DotBack(sql, n) && sql[n - 1] != '.' {
        var d :| 0 <= d < n && sql[d] == '.' && forall j :: d < j < n ==> sql[j] == ' ';
        assert d < n - 1 && sql[n - 1] == ' ';
      }
    }
  }

  /** An opening parenthesis stands at n, or behind white space from n on. */
  predicate ParenAhead(sql: string, n: nat) {
    exists m :: n <= m < |sql| && sql[m] == '(' && forall j :: n <= j < m ==> IsBlank(sql[j])
  }

  lemma {:induction false} PastBlanksExactly(sql: string, n: nat)
    requires n <= |sql|
    ensures Next(sql, PastBlanks(sql, n), '(') <==> ParenAhead(sql, n)
    decreases |sql| - n
  {
    if n < |sql| && IsBlank(sql[n]) {
      PastBlanksExactly(sql, n + 1);
      if ParenAhead(sql, n + 1) {
        var m :| n + 1 <= m < |sql| && sql[m] == '(' && forall j :: n + 1 <= j < m ==> IsBlank(sql[j]);
        assert forall j :: n <= j < m ==> IsBlank(sql[j]);
      }
      if ParenAhead(sql, n) {
        var m :| n <= m < |sql| && sql[m] == '(' && forall j :: n <= j < m ==> IsBlank(sql[j]);
        assert m != n;
      }
    } else if n < |sql| && sql[n] == '(' {
      assert ParenAhead(sql, n);
    }
  }

  /** An identifier is qualified by a dot right behind it, or by one before it past blanks; else it is called by a
      parenthesis behind it, which white space may precede in the mode that ignores it. */
  lemma ShownExactly(sql: string, start: nat, at: nat, ignoreSpace: bool)
    requires start <= |sql| && at <= |sql|
    ensures ShownIn(sql, start, at, ignoreSpace) == Qualified <==> (at < |sql| && sql[at] == '.') || DotBack(sql, start)
    ensures ShownIn(sql, start, at, ignoreSpace) == Called <==>
      && !((at < |sql| && sql[at] == '.') || DotBack(sql, start))
      && ((at < |sql| && sql[at] == '(') || (ignoreSpace && ParenAhead(sql, at)))
  {
    DotBeforeExactly(sql, start);
    PastBlanksExactly(sql, at);
  }

  function Looked(lit: Lit, shown: Shown, tables: Tables): Option<Kind> {
    if shown.Qualified? then None else tables.keyword(lit, shown.Called?)
  }

  /** What the digester learns from this text and these tables. */
  function EnvOf(src: Source, tables: Tables): Env
    requires Valid(src)
  {
    Env((lit, p) => Looked(lit, ShownAt(src, p, tables.ignoreSpace), tables), tables.knownCharset)
  }

  /** The digest of a text, token by token. */
  function Digest(src: Source, tables: Tables): seq<Token>
    requires Valid(src)
  {
    Normalized(src.tokens, EnvOf(src, tables))
  }
}
