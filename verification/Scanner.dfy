/**
 The scanner: a reader that moves forward and rewinds, and the functions that start at each kind of
 character and call one another through comments (internal/parser/tidb/lexer.go:395-1116).
 */
module Scanner {
  import opened Numerals
  import opened Strings
  import opened ScanText
  import opened ScanLiterals
  import opened ScanFeatures
  import opened ScanTokens

  class SqlScanner {
    const text: string
    const known: set<string>
    const backslashIsPlain: bool
    var p: Pos
    var buf: string
    var inBangComment: bool
    var identifierDot: bool
    var lastHintPos: Pos
    var errors: nat
    var warnings: nat
    /** What the last keywords say about an optimizer hint here. */
    var hintAllowed: bool
    var afterFor: bool
    var afterBinding: bool

    ghost predicate Valid()
      reads `p
    {
      p.offset <= |text| && p == PosAt(text, p.offset)
    }

    constructor (text: string, known: set<string>, backslashIsPlain: bool)
      ensures Valid() && this.text == text && this.known == known && this.backslashIsPlain == backslashIsPlain
      ensures p.offset == 0 && !inBangComment && !identifierDot
    {
      this.text, this.known, this.backslashIsPlain := text, known, backslashIsPlain;
      p, buf, inBangComment, identifierDot := Pos(1, 0, 0), "", false, false;
      lastHintPos, errors, warnings := Pos(1, 0, 0), 0, 0;
      hintAllowed, afterFor, afterBinding := false, false, false;
    }

    // ----- the reader

    predicate AtEnd()
      reads `p
    {
      p.offset >= |text|
    }

    function Peek(): char
      reads `p
    {
      Peeked(text, p.offset)
    }

    method Inc()
      requires Valid() && p.offset < |text|
      modifies `p
      ensures Valid() && p.offset == old(p.offset) + 1
    {
      if text[p.offset] == '\n' {
        p := p.(line := p.line + 1);
        p := p.(col := 0);
      }
      p := p.(offset := p.offset + 1);
      p := p.(col := p.col + 1);
    }

    method IncN(n: nat)
      requires Valid() && p.offset + n <= |text|
      modifies `p
      ensures Valid() && p.offset == old(p.offset) + n
    {
      for i := 0 to n
        invariant Valid() && p.offset == old(p.offset) + i
      {
        Inc();
      }
    }

    method ReadByte() returns (ch: char)
      requires Valid()
      modifies `p
      ensures Valid() && ch == old(Peek())
      ensures p.offset == if old(AtEnd()) then old(p.offset) else old(p.offset) + 1
    {
      ch := Peek();
      if AtEnd() { return; }
      Inc();
    }

    method UpdatePos(to: Pos)
      requires to.offset <= |text| && to == PosAt(text, to.offset)
      modifies `p
      ensures Valid() && p == to
    {
      p := to;
    }

    /** Every character from i to k passes, and the one at k, if there is one, does not. */
    ghost predicate Ran(fn: char -> bool, i: nat, k: nat) { i <= |text| && k == Past(text, i, fn) }

    method IncAsLongAs(fn: char -> bool) returns (ch: char)
      requires Valid()
      modifies `p
      ensures Valid() && Ran(fn, old(p.offset), p.offset) && ch == Peek()
    {
      ch := Peek();
      while fn(ch) && !AtEnd()
        invariant Valid() && ch == Peek() && old(p.offset) <= p.offset
        invariant Past(text, p.offset, fn) == Past(text, old(p.offset), fn)
        decreases |text| - p.offset
      {
        Inc();
        ch := Peek();
      }
    }

    function Data(from: Pos): string
      requires from.offset <= p.offset <= |text|
      reads `p
    {
      text[from.offset..p.offset]
    }

    method ScanIdentifier() returns (tok: Token, pos: Pos, lit: string)
      requires Valid()
      modifies `p
      ensures Valid() && pos == old(p) && Ran(IsIdentChar, pos.offset, p.offset)
      ensures tok == Identifier && lit == text[pos.offset..p.offset]
    {
      pos := p;
      var ch := IncAsLongAs(IsIdentChar);
      tok, lit := Identifier, Data(pos);
    }

    // ----- quoted texts

    ghost predicate AfterQuote(q: Quote, to: Pos)
    {
      to.offset == match q case Closed(_, end) => end case Unclosed => |text|
    }

    /** The literal that starts with a quote here. */
    method ScanString() returns (tok: Token, pos: Pos, lit: string)
      requires Valid() && p.offset < |text|
      modifies `p, `buf
      ensures Valid() && pos == old(p)
      ensures var q := ReadQuoted(text, pos.offset + 1, text[pos.offset], backslashIsPlain, "");
        AfterQuote(q, p) && (tok, lit) == (match q case Closed(content, _) => (StringLit, content) case Unclosed => (Invalid, ""))
    {
      pos, lit := p, "";
      var ending := ReadByte();
      buf := "";
      ghost var q := ReadQuoted(text, p.offset, ending, backslashIsPlain, "");
      while !AtEnd()
        invariant Valid() && pos.offset < p.offset
        invariant ReadQuoted(text, p.offset, ending, backslashIsPlain, buf) == q
        decreases |text| - p.offset
      {
        var ch := ReadByte();
        if ch == ending {
          if AtEnd() || Peek() != ending {
            return StringLit, pos, buf;
          }
          Inc();
          buf := buf + [ch];
        } else if ch == '\\' && !backslashIsPlain {
          if AtEnd() { break; }
          buf := buf + Escaped(Peek());
          Inc();
        } else {
          buf := buf + [ch];
        }
      }
      tok := Invalid;
    }

    /** The identifier between back quotes that starts here. */
    method ScanQuotedIdent() returns (tok: Token, pos: Pos, lit: string)
      requires Valid() && p.offset < |text|
      modifies `p, `buf
      ensures Valid() && pos == old(p)
      ensures var q := ReadQuoted(text, pos.offset + 1, '`', true, "");
        AfterQuote(q, p) && (tok, lit) == (match q case Closed(content, _) => (QuotedIdentifier, content) case Unclosed => (Invalid, ""))
    {
      pos, lit := p, "";
      Inc();
      buf := "";
      ghost var q := ReadQuoted(text, p.offset, '`', true, "");
      while !AtEnd()
        invariant Valid() && pos.offset < p.offset
        invariant ReadQuoted(text, p.offset, '`', true, buf) == q
        decreases |text| - p.offset
      {
        var ch := ReadByte();
        if ch == '`' {
          if AtEnd() || Peek() != '`' {
            return QuotedIdentifier, pos, buf;
          }
          Inc();
        }
        buf := buf + [ch];
      }
      tok := Invalid;
    }

    // ----- feature lists and versions

    method ScanFeatureIDs() returns (ids: seq<string>, found: bool)
      requires Valid()
      modifies `p
      ensures Valid()
      ensures var r := Automaton(text, old(p.offset), Init, "", []);
        if r.Accepts? then found && ids == r.ids && p.offset == r.end else !found && ids == [] && p == old(p)
    {
      var pos := p;
      var state := Init;
      var b, featureIDs: seq<string> := "", [];
      ghost var r := Automaton(text, p.offset, Init, "", []);
      while !AtEnd()
        invariant Valid() && pos == old(p)
        invariant Automaton(text, p.offset, state, b, featureIDs) == r
        decreases |text| - p.offset
      {
        var ch := Peek();
        Inc();
        match state {
          case Init =>
            if ch == '[' {
              state := ExpectChar;
            } else {
              UpdatePos(pos);
              return [], false;
            }
          case ExpectChar =>
            if IsIdentChar(ch) {
              b, state := b + [ch], ObtainChar;
            } else {
              UpdatePos(pos);
              return [], false;
            }
          case ObtainChar =>
            if IsIdentChar(ch) {
              b := b + [ch];
            } else if ch == ',' {
              featureIDs, b, state := featureIDs + [b], "", ExpectChar;
            } else if ch == ']' {
              return featureIDs + [b], true;
            } else {
              UpdatePos(pos);
              return [], false;
            }
        }
      }
      UpdatePos(pos);
      return [], false;
    }

    /** At least minv and at most maxv digits, or nothing. */
    method ScanVersionDigits(minv: nat, maxv: nat)
      requires Valid() && minv <= maxv
      modifies `p
      ensures Valid() && old(p.offset) <= p.offset
      ensures var n := p.offset - old(p.offset);
        && (forall j :: old(p.offset) <= j < p.offset ==> IsDigit(text[j]))
        && (n == 0 || minv <= n <= maxv)
        && (n < maxv && old(p.offset) + minv <= |text| && (forall j :: old(p.offset) <= j < old(p.offset) + minv ==> IsDigit(text[j]))
            ==> n >= minv && (p.offset == |text| || !IsDigit(text[p.offset])))
    {
      var pos := p;
      for i := 0 to maxv
        invariant Valid() && p.offset == pos.offset + i && pos == old(p)
        invariant forall j :: pos.offset <= j < p.offset ==> IsDigit(text[j])
      {
        var ch := Peek();
        if IsDigit(ch) {
          Inc();
        } else if i < minv {
          UpdatePos(pos);
          return;
        } else {
          break;
        }
      }
    }

    // ----- tokens that are scanned where they start

    /** A token that starts at the given position. */
    ghost predicate Here(start: Pos, tok: Token, pos: Pos, lit: string)
      reads `p
    {
      && Valid() && pos == start && pos.offset <= p.offset
      && (Moves(tok) ==> pos.offset < p.offset)
      && (tok.Eof? <==> Ends(text, pos.offset))
      && (Verbatim(tok) ==> lit == text[pos.offset..p.offset])
    }

    /** The token that a function of the text gives for this place. */
    ghost predicate IsLeaf(r: Leaf, start: Pos, tok: Token, pos: Pos, lit: string)
      reads `p
    {
      Valid() && pos == start && tok == r.tok && lit == r.lit && p.offset == r.end
    }

    method ScanDigits()
      requires Valid()
      modifies `p
      ensures Valid() && Ran(IsDigit, old(p.offset), p.offset)
    {
      var ch := IncAsLongAs(IsDigit);
    }

    method ScanHex()
      requires Valid()
      modifies `p
      ensures Valid() && Ran(IsHex, old(p.offset), p.offset)
    {
      var ch := IncAsLongAs(IsHex);
    }

    method ScanOct()
      requires Valid()
      modifies `p
      ensures Valid() && Ran(IsOctal, old(p.offset), p.offset)
    {
      var ch := IncAsLongAs(IsOctal);
    }

    method ScanBit()
      requires Valid()
      modifies `p
      ensures Valid() && Ran(IsBit, old(p.offset), p.offset)
    {
      var ch := IncAsLongAs(IsBit);
    }

    /** An identifier that started before the reader's position. */
    method RestOfIdentifier(beg: Pos) returns (tok: Token, pos: Pos, lit: string)
      requires Valid() && beg.offset <= p.offset && beg == PosAt(text, beg.offset)
      modifies `p
      ensures IsLeaf(NameAt(text, beg.offset, old(p.offset)), beg, tok, pos, lit)
    {
      var ch := IncAsLongAs(IsIdentChar);
      tok, pos, lit := Identifier, beg, Data(beg);
    }

    /** Rewinds to the start of a number; what turns out to be no number is scanned as an identifier. */
    method ScanFloat(beg: Pos) returns (tok: Token, pos: Pos, lit: string)
      requires Valid() && beg.offset <= |text| && beg == PosAt(text, beg.offset)
      modifies `p
      ensures IsLeaf(FloatAt(text, beg.offset), beg, tok, pos, lit)
    {
      UpdatePos(beg);
      ScanFraction();
      var ch := Peek();
      if ch == 'e' || ch == 'E' {
        var exponent := ScanExponent();
        if exponent {
          tok := FloatLit;
        } else {
          UpdatePos(beg);
          ch := IncAsLongAs(IsIdentChar);
          tok := Identifier;
        }
      } else {
        tok := DecLit;
      }
      pos, lit := beg, Data(beg);
    }

    /** Digits, and perhaps a dot and more digits. */
    method ScanFraction()
      requires Valid()
      modifies `p
      ensures Valid() && p.offset == Fraction(text, old(p.offset))
    {
      ScanDigits();
      if Peek() == '.' {
        Inc();
        ScanDigits();
      }
    }

    /** The letter, the sign and the digits of an exponent; the answer says whether there are digits. */
    method ScanExponent() returns (digits: bool)
      requires Valid() && p.offset < |text|
      modifies `p
      ensures var d := ExponentDigits(text, old(p.offset));
        Valid() && digits == IsDigit(Peeked(text, d)) && (digits ==> p.offset == Past(text, d, IsDigit))
    {
      Inc();
      var ch := Peek();
      if ch == '-' || ch == '+' {
        Inc();
      }
      digits := IsDigit(Peek());
      if digits { ScanDigits(); }
    }

    method StartWithNumber() returns (tok: Token, pos: Pos, lit: string)
      requires Valid() && p.offset < |text| && IsDigit(text[p.offset])
      modifies `p
      ensures Here(old(p), tok, pos, lit)
      ensures var i := old(p.offset);
        IsLeaf(if identifierDot then NameAt(text, i, i) else NumberAt(text, i), old(p), tok, pos, lit)
    {
      ghost var start := p;
      if identifierDot {
        tok, pos, lit := ScanIdentifier();
        return;
      }
      tok, pos, lit := NumberHere();
      NumberMoves(text, start.offset);
    }

    method NumberHere() returns (tok: Token, pos: Pos, lit: string)
      requires Valid() && p.offset < |text| && IsDigit(text[p.offset])
      modifies `p
      ensures IsLeaf(NumberAt(text, old(p.offset)), old(p), tok, pos, lit)
    {
      var beg := p;
      var ch0 := ReadByte();
      if ch0 == '0' {
        tok, pos, lit := AfterZero(beg);
      } else {
        tok, pos, lit := EndNumber(IntLit, beg);
      }
    }

    /** The rest of a number whose first character was zero. */
    method AfterZero(beg: Pos) returns (tok: Token, pos: Pos, lit: string)
      requires Valid() && p.offset == beg.offset + 1 <= |text| && beg == PosAt(text, beg.offset) && text[beg.offset] == '0'
      modifies `p
      ensures IsLeaf(NumberAt(text, beg.offset), beg, tok, pos, lit)
    {
      var ch1 := Peek();
      if ch1 == 'x' || ch1 == 'X' {
        assert NumberAt(text, beg.offset) == PrefixedAt(text, HexLit, beg.offset, IsHex);
        tok, pos, lit := PrefixedHex(beg);
      } else if ch1 == 'b' {
        assert NumberAt(text, beg.offset) == PrefixedAt(text, BitLit, beg.offset, IsBit);
        tok, pos, lit := PrefixedBit(beg);
      } else {
        tok, pos, lit := WithoutPrefix(beg, ch1);
      }
    }

    /** No letter makes what follows the zero a hexadecimal or a bit literal. */
    method WithoutPrefix(beg: Pos, ch1: char) returns (tok: Token, pos: Pos, lit: string)
      requires Valid() && p.offset == beg.offset + 1 <= |text| && beg == PosAt(text, beg.offset) && text[beg.offset] == '0'
      requires ch1 == Peek() && ch1 != 'x' && ch1 != 'X' && ch1 != 'b'
      modifies `p
      ensures IsLeaf(NumberAt(text, beg.offset), beg, tok, pos, lit)
    {
      if ch1 == '.' {
        assert NumberAt(text, beg.offset) == FloatAt(text, beg.offset);
        tok, pos, lit := ScanFloat(beg);
      } else if ch1 == 'B' {
        assert NumberAt(text, beg.offset) == NameAt(text, beg.offset, p.offset);
        tok, pos, lit := RestOfIdentifier(beg);
      } else {
        OctalDigits(beg, ch1);
        tok, pos, lit := EndNumber(IntLit, beg);
      }
    }

    /** A number in base eight goes on as any other does. */
    method OctalDigits(ghost beg: Pos, ch1: char)
      requires Valid() && p.offset == beg.offset + 1 <= |text| && text[beg.offset] == '0'
      requires ch1 == Peek() && ch1 != 'x' && ch1 != 'X' && ch1 != 'b' && ch1 != '.' && ch1 != 'B'
      modifies `p
      ensures Valid() && beg.offset <= p.offset
      ensures NumberAt(text, beg.offset) == NumberEnd(text, IntLit, beg.offset, p.offset)
    {
      if '0' <= ch1 <= '7' {
        Inc();
        ScanOct();
      }
    }

    /** The rest of a number whose first character was zero and whose second is the letter of a prefix. */
    method PrefixedHex(beg: Pos) returns (tok: Token, pos: Pos, lit: string)
      requires Valid() && p.offset == beg.offset + 1 < |text| && beg == PosAt(text, beg.offset)
      modifies `p
      ensures IsLeaf(PrefixedAt(text, HexLit, beg.offset, IsHex), beg, tok, pos, lit)
    {
      Inc();
      var p1 := p;
      ScanHex();
      if p1 == p || IsDigit(Peek()) {
        tok, pos, lit := RestOfIdentifier(beg);
        return;
      }
      tok, pos, lit := EndNumber(HexLit, beg);
    }

    method PrefixedBit(beg: Pos) returns (tok: Token, pos: Pos, lit: string)
      requires Valid() && p.offset == beg.offset + 1 < |text| && beg == PosAt(text, beg.offset)
      modifies `p
      ensures IsLeaf(PrefixedAt(text, BitLit, beg.offset, IsBit), beg, tok, pos, lit)
    {
      Inc();
      var p1 := p;
      ScanBit();
      if p1 == p || IsDigit(Peek()) {
        tok, pos, lit := RestOfIdentifier(beg);
        return;
      }
      tok, pos, lit := EndNumber(BitLit, beg);
    }

    /** The end of a number after its prefix: digits, and perhaps a fraction, an exponent or a name. */
    method EndNumber(kind: Token, beg: Pos) returns (tok: Token, pos: Pos, lit: string)
      requires Valid() && beg.offset <= p.offset && beg == PosAt(text, beg.offset)
      modifies `p
      ensures IsLeaf(NumberEnd(text, kind, beg.offset, old(p.offset)), beg, tok, pos, lit)
    {
      ScanDigits();
      var ch0 := Peek();
      if ch0 == '.' || ch0 == 'e' || ch0 == 'E' {
        tok, pos, lit := ScanFloat(beg);
        return;
      }
      if !AtEnd() && IsIdentChar(ch0) {
        tok, pos, lit := RestOfIdentifier(beg);
        return;
      }
      tok, pos, lit := kind, beg, Data(beg);
    }

    method StartWithDot() returns (tok: Token, pos: Pos, lit: string)
      requires Valid() && p.offset < |text| && text[p.offset] == '.'
      modifies `p
      ensures Here(old(p), tok, pos, lit)
      ensures var i := old(p.offset);
        IsLeaf(if identifierDot then Leaf(Plain('.'), ".", i + 1) else DotAt(text, i), old(p), tok, pos, lit)
    {
      pos := p;
      DotMoves(text, pos.offset);
      Inc();
      if identifierDot {
        return Plain('.'), pos, ".";
      }
      if IsDigit(Peek()) {
        tok, pos, lit := ScanFloat(pos);
        if tok == Identifier {
          tok := Invalid;
        }
        return;
      }
      tok, lit := Plain('.'), ".";
    }

    /** x'...' and b'...', or an identifier. */
    method StartWithQuotedDigits(hex: bool) returns (tok: Token, pos: Pos, lit: string)
      requires Valid() && p.offset < |text| && IsIdentChar(text[p.offset])
      modifies `p
      ensures Here(old(p), tok, pos, lit)
      ensures IsLeaf(QuotedDigitsAt(text, old(p.offset), hex), old(p), tok, pos, lit)
    {
      pos := p;
      Inc();
      if Peek() == '\'' {
        tok, lit := QuotedDigits(pos, hex);
        return;
      }
      UpdatePos(pos);
      tok, pos, lit := ScanIdentifier();
    }

    /** The digits and the quotes around them. */
    method QuotedDigits(beg: Pos, hex: bool) returns (tok: Token, lit: string)
      requires Valid() && p.offset == beg.offset + 1 && p.offset < |text| && text[p.offset] == '\''
      modifies `p
      ensures Valid() && beg.offset < p.offset && Leaf(tok, lit, p.offset) == QuotedDigitsAt(text, beg.offset, hex)
      ensures tok == Invalid || ((tok == HexLit || tok == BitLit) && lit == text[beg.offset..p.offset])
    {
      lit := "";
      Inc();
      if hex { ScanHex(); } else { ScanBit(); }
      if Peek() == '\'' {
        Inc();
        tok, lit := if hex then HexLit else BitLit, Data(beg);
      } else {
        tok := Invalid;
      }
    }

    method StartWithNn() returns (tok: Token, pos: Pos, lit: string)
      requires Valid() && p.offset < |text| && IsIdentChar(text[p.offset])
      modifies `p
      ensures Here(old(p), tok, pos, lit) && IsLeaf(NationalAt(text, old(p.offset)), old(p), tok, pos, lit)
    {
      tok, pos, lit := ScanIdentifier();
      if lit == "N" || lit == "n" {
        if Peek() == '\'' {
          tok, lit := UnderscoreCS, "utf8";
        }
      }
    }

    /** A name or a quoted text after an at sign; otherwise the next character, which stays unread. */
    method ScanIdentifierOrString() returns (tok: Token, lit: string)
      requires Valid()
      modifies `p, `buf
      ensures Valid() && Leaf(tok, lit, p.offset) == NamedAt(text, old(p.offset), backslashIsPlain)
    {
      lit := "";
      var ch1 := Peek();
      if ch1 == '\'' || ch1 == '"' {
        var pos;
        tok, pos, lit := ScanString();
      } else if ch1 == '`' {
        var pos;
        tok, pos, lit := ScanQuotedIdent();
      } else if IsUserVarChar(ch1) {
        var pos := p;
        var ch := IncAsLongAs(IsUserVarChar);
        tok, lit := Identifier, Data(pos);
      } else {
        tok := if ch1 == 0 as char then Eof else Plain(ch1);
      }
    }

    /** The scope in front of a system variable's name. */
    method ScanScope() returns (prefix: string)
      requires Valid()
      modifies `p
      ensures Valid() && prefix == Scope(text, old(p.offset), 0) && p.offset == old(p.offset) + |prefix|
    {
      prefix := "";
      for i := 0 to |SCOPES|
        invariant p == old(p) && prefix == ""
        invariant Scope(text, p.offset, i) == Scope(text, p.offset, 0)
      {
        var v := SCOPES[i];
        if |v| <= |text| - p.offset && Lower(text[p.offset..p.offset + |v|]) == v {
          IncN(|v|);
          return v;
        }
      }
    }

    method StartWithAt() returns (tok: Token, pos: Pos, lit: string)
      requires Valid() && p.offset < |text| && text[p.offset] == '@'
      modifies `p, `buf
      ensures Here(old(p), tok, pos, lit)
      ensures IsLeaf(AtAt(text, old(p.offset), backslashIsPlain), old(p), tok, pos, lit)
    {
      AtEnds(text, p.offset, backslashIsPlain);
      AtPlain(text, p.offset, backslashIsPlain);
      tok, pos, lit := Variable();
    }

    /** A user variable, or a system variable after two at signs. */
    method Variable() returns (tok: Token, pos: Pos, lit: string)
      requires Valid() && p.offset < |text|
      modifies `p, `buf
      ensures IsLeaf(AtAt(text, old(p.offset), backslashIsPlain), old(p), tok, pos, lit)
    {
      pos := p;
      Inc();
      NamedStays(text, p.offset, backslashIsPlain);
      tok, lit := ScanIdentifierOrString();
      if tok == Plain('@') {
        AtSystem(text, pos.offset, backslashIsPlain);
        Inc();
        tok, lit := SystemVariable(pos);
      } else {
        AtUser(text, pos.offset, backslashIsPlain);
        if tok != Invalid { tok := SingleAt; }
      }
    }

    method SystemVariable(beg: Pos) returns (tok: Token, lit: string)
      requires Valid() && p.offset == beg.offset + 2
      modifies `p, `buf
      ensures Valid()
      ensures Leaf(tok, lit, p.offset) == SystemAt(text, beg.offset, Scope(text, old(p.offset), 0), backslashIsPlain)
    {
      var prefix := ScanScope();
      tok, lit := ScanIdentifierOrString();
      if tok == StringLit || tok == QuotedIdentifier {
        tok, lit := DoubleAt, "@@" + prefix + lit;
      } else if tok == Identifier {
        tok, lit := DoubleAt, Data(beg);
      }
    }

    /** The longest operator that starts here; nothing when none does. */
    method ScanOperator() returns (tok: Token, pos: Pos, lit: string)
      requires Valid() && p.offset < |text| && text[p.offset] != '/' && text[p.offset] != '@'
      modifies `p
      ensures Here(old(p), tok, pos, lit)
      ensures p.offset == pos.offset + Walk(Root, text, pos.offset)
      ensures tok == if p.offset == pos.offset then Invalid else Operator
      ensures IsLeaf(OperatorAt(text, old(p.offset)), old(p), tok, pos, lit)
    {
      pos := p;
      var node := Root;
      var ch0 := Peek();
      while !AtEnd() && Child(node, ch0).Some?
        invariant Valid() && pos.offset <= p.offset && ch0 == Peek() && (node == Root <==> p.offset == pos.offset)
        invariant pos.offset + Walk(Root, text, pos.offset) == p.offset + Walk(node, text, p.offset)
        decreases |text| - p.offset
      {
        node := Child(node, ch0).value;
        Inc();
        ch0 := Peek();
      }
      tok, lit := if node == Root then Invalid else Operator, Data(pos);
    }

    // ----- comments and the scan itself

    /** Opens the facts that are kept closed below. */
    predicate Looked(z: int) { true }

    /** Which token is found, by the character it starts with: no token starts with white space or a sharp; a slash is
        a division sign, a hint or an unclosed comment; a dash is no comment. */
    ghost predicate ToldAt(tok: Token, pos: Pos, lit: string)
      requires pos.offset < |text|
      reads `p, `identifierDot
    {
      var i, c := pos.offset, text[pos.offset];
      if IsBlank(c) || c == '#' then false
      else if c == '/' then
        if !CommentOpens(text, i) then IsLeaf(Leaf(Plain('/'), "/", i + 1), pos, tok, pos, lit)
        else if NeverCloses(text, i) then tok == Eof && lit == ""
        else tok == HintComment && BlockComment(text, i, p.offset) && lit == text[i..p.offset] && Peeked(text, i + 2) == '+'
      else if c == '*' then IsLeaf(Leaf(Plain('*'), "*", i + 1), pos, tok, pos, lit)
      else if c == '-' then !OpensLine(text, i) && IsLeaf(DashAt(text, i), pos, tok, pos, lit)
      else IsLeaf(TokenAt(text, i, identifierDot, backslashIsPlain), pos, tok, pos, lit)
    }

    /** Looked into only where Looked(0) is asserted. */
    ghost predicate Told(tok: Token, pos: Pos, lit: string)
      reads `p, `identifierDot
    {
      forall z {:trigger Looked(z)} :: Looked(z) ==> pos.offset < |text| ==> ToldAt(tok, pos, lit)
    }

    /** A token after white space and comments only. */
    ghost predicate Scanned(from: nat, bang: bool, tok: Token, pos: Pos, lit: string)
      reads `p, `inBangComment, `identifierDot
    {
      && pos.offset <= |text| && pos == PosAt(text, pos.offset) && Here(pos, tok, pos, lit) && Told(tok, pos, lit)
      && from <= pos.offset && Gap(text, from, pos.offset, bang, inBangComment)
    }

    lemma ScannedHere(from: nat, start: Pos, tok: Token, pos: Pos, lit: string)
      requires from == start.offset <= |text| && start == PosAt(text, start.offset) && Here(start, tok, pos, lit) && Told(tok, pos, lit)
      ensures Scanned(from, inBangComment, tok, pos, lit)
    {
      GapNone(text, from, inBangComment);
    }

    lemma ScannedAfter(from: nat, k: nat, bang: bool, b: bool, tok: Token, pos: Pos, lit: string)
      requires from < k && Trivium(text, from, k, bang, b) && Scanned(k, b, tok, pos, lit)
      ensures Scanned(from, bang, tok, pos, lit)
    {
      GapMore(text, from, k, pos.offset, bang, b, inBangComment);
    }

    method SkipLine()
      requires Valid()
      modifies `p
      ensures Valid() && RestOfLine(text, old(p.offset), p.offset)
    {
      var ch := IncAsLongAs((c: char) => c != '\n');
    }

    method StartWithSharp() returns (tok: Token, pos: Pos, lit: string)
      requires Valid() && p.offset < |text| && text[p.offset] == '#'
      modifies this
      ensures Scanned(old(p.offset), old(inBangComment), tok, pos, lit)
      ensures exists k :: LineComment(text, old(p.offset), k) && Scanned(k, old(inBangComment), tok, pos, lit)
      decreases |text| - p.offset, 1, 0
    {
      ghost var from, bang := p.offset, inBangComment;
      SkipLine();
      ghost var k := p.offset;
      tok, pos, lit := Scan();
      ScannedAfter(from, k, bang, bang, tok, pos, lit);
    }

    method StartWithDash() returns (tok: Token, pos: Pos, lit: string)
      requires Valid() && p.offset < |text| && text[p.offset] == '-'
      modifies this
      ensures Scanned(old(p.offset), old(inBangComment), tok, pos, lit)
      ensures var i := old(p.offset);
        if OpensLine(text, i) then exists k :: LineComment(text, i, k) && Scanned(k, old(inBangComment), tok, pos, lit)
        else IsLeaf(DashAt(text, i), old(p), tok, pos, lit)
      decreases |text| - p.offset, 1, 0
    {
      ghost var from, bang := p.offset, inBangComment;
      if OpensLine(text, p.offset) {
        SkipLine();
        ghost var k := p.offset;
        tok, pos, lit := Scan();
        ScannedAfter(from, k, bang, bang, tok, pos, lit);
        return;
      }
      tok, pos, lit := ScanArrowOrMinus();
      assert Told(tok, pos, lit);
      ScannedHere(from, pos, tok, pos, lit);
    }

    method ScanArrowOrMinus() returns (tok: Token, pos: Pos, lit: string)
      requires Valid() && p.offset < |text| && text[p.offset] == '-'
      modifies `p
      ensures Here(old(p), tok, pos, lit) && IsLeaf(DashAt(text, old(p.offset)), old(p), tok, pos, lit)
    {
      pos, lit := p, "";
      if p.offset + 3 <= |text| && text[p.offset..p.offset + 3] == "->>" {
        IncN(3);
        return JsonTextArrow, pos, lit;
      }
      if p.offset + 2 <= |text| && text[p.offset..p.offset + 2] == "->" {
        IncN(2);
        return JsonArrow, pos, lit;
      }
      Inc();
      tok, lit := Plain('-'), "-";
    }

    /** Every star and slash pair that was passed, from the opening at i on, is in the opening. */
    ghost predicate NoEndYet(i: nat, star: bool)
      reads `p
    {
      && Valid() && CommentOpens(text, i) && i + 2 <= p.offset
      && (forall j :: i + 2 <= j < p.offset - 1 ==> !StarSlash(text, j))
      && (star ==> i + 3 <= p.offset && text[p.offset - 1] == '*')
      && (!star && i + 2 < p.offset < |text| ==> text[p.offset - 1] != '*')
    }

    /** Reads to the end of a comment; the answer says whether there is one. */
    method SkipComment(i: nat, wasStar: bool) returns (closed: bool)
      requires NoEndYet(i, wasStar)
      modifies `p
      ensures Valid() && old(p.offset) <= p.offset
      ensures if closed then BlockComment(text, i, p.offset) else p.offset == |text| && NeverCloses(text, i)
    {
      var star := wasStar;
      while true
        invariant NoEndYet(i, star) && old(p.offset) <= p.offset
        decreases |text| - p.offset, if star then 1 else 0
      {
        if !star {
          var ch := IncAsLongAs((c: char) => c != '*');
          if ch != '*' { return false; }
        }
        var ch := ReadByte();
        if ch == '/' { return true; }
        star := ch == '*';
      }
    }

    /** Whether an optimizer hint may stand here, by the keywords before it. */
    predicate HintAllowed()
      reads this
    {
      hintAllowed && (!afterFor || afterBinding)
    }

    /** Whether a comment that opens with a plus sign is an optimizer hint. */
    method HintHere() returns (hint: bool)
      modifies `warnings
      ensures hint == HintAllowed()
    {
      if hintAllowed && (!afterFor || afterBinding) { return true; }
      warnings := warnings + 1;
      hint := false;
    }

    /** The token when a comment that opens at `start` is read to its end. */
    ghost predicate Commented(start: Pos, hint: bool, bang: bool, tok: Token, pos: Pos, lit: string)
      reads `p, `inBangComment, `identifierDot
    {
      if NeverCloses(text, start.offset) then Valid() && tok == Eof && pos == start && lit == "" && AtEnd()
      else if hint then tok == HintComment && pos == start && BlockComment(text, start.offset, p.offset)
      else exists k :: BlockComment(text, start.offset, k) && Scanned(k, bang, tok, pos, lit)
    }

    /** The rest of an ordinary comment, or a hint; then the next token. */
    method AfterCommentOpens(start: Pos, star: bool, hint: bool) returns (tok: Token, pos: Pos, lit: string)
      requires NoEndYet(start.offset, star) && start == PosAt(text, start.offset)
      modifies this
      requires hint ==> Peeked(text, start.offset + 2) == '+'
      ensures Scanned(start.offset, old(inBangComment), tok, pos, lit)
      ensures Commented(start, hint, old(inBangComment), tok, pos, lit)
      decreases |text| - p.offset, 3
    {
      ghost var bang := inBangComment;
      var closed := SkipComment(start.offset, star);
      if !closed {
        errors := errors + 1;
        tok, pos, lit := Eof, start, "";
        assert Told(tok, pos, lit);
        ScannedHere(start.offset, start, tok, pos, lit);
        return;
      }
      ClosedDoesNotEnd(text, start.offset, p.offset);
      if hint {
        lastHintPos := start;
        tok, pos, lit := HintComment, start, Data(start);
        assert Told(tok, pos, lit);
        ScannedHere(start.offset, start, tok, pos, lit);
        return;
      }
      ghost var k := p.offset;
      tok, pos, lit := Scan();
      ScannedAfter(start.offset, k, bang, bang, tok, pos, lit);
    }

    /** The scanned comment is open; the next token comes from inside it. */
    method InsideBang(ghost from: nat, ghost bang: bool) returns (tok: Token, pos: Pos, lit: string)
      requires Valid() && from < p.offset && BangOpen(text, from, p.offset)
      modifies this
      ensures Scanned(from, bang, tok, pos, lit) && Scanned(old(p.offset), true, tok, pos, lit)
      decreases |text| - p.offset, 3
    {
      inBangComment := true;
      ghost var k := p.offset;
      tok, pos, lit := Scan();
      ScannedAfter(from, k, bang, true, tok, pos, lit);
    }

    /** The token after what a slash at `start` opens. */
    ghost predicate Slashed(opening: Opening, start: Pos, bang: bool, tok: Token, pos: Pos, lit: string)
      reads `p, `inBangComment, `identifierDot
    {
      match opening
      case Division => tok == Plain('/') && pos == start && lit == "/" && p.offset == start.offset + 1
      case Opened(k) => BangOpen(text, start.offset, k) && Scanned(k, true, tok, pos, lit)
      case Skipped => Commented(start, false, bang, tok, pos, lit)
      case Hint => Commented(start, true, bang, tok, pos, lit)
    }

    method StartWithSlash() returns (tok: Token, pos: Pos, lit: string)
      requires Valid() && p.offset < |text| && text[p.offset] == '/'
      modifies this
      ensures Scanned(old(p.offset), old(inBangComment), tok, pos, lit)
      ensures Slashed(OpeningAt(text, old(p.offset), old(HintAllowed()), known), old(p), old(inBangComment), tok, pos, lit)
      decreases |text| - p.offset, 1, 0
    {
      var start := p;
      Inc();
      if Peek() != '*' {
        tok, pos, lit := Plain('/'), start, "/";
        assert Told(tok, pos, lit);
        ScannedHere(start.offset, start, tok, pos, lit);
        return;
      }
      Inc();
      tok, pos, lit := StartWithComment(start);
    }

    method StartWithComment(start: Pos) returns (tok: Token, pos: Pos, lit: string)
      requires Valid() && CommentOpens(text, start.offset) && p.offset == start.offset + 2 && start == PosAt(text, start.offset)
      modifies this
      ensures Scanned(start.offset, old(inBangComment), tok, pos, lit)
      ensures Slashed(OpeningAt(text, start.offset, old(HintAllowed()), known), start, old(inBangComment), tok, pos, lit)
      decreases |text| - p.offset, 5
    {
      var ch := ReadByte();
      if ch == '!' {
        tok, pos, lit := StartWithVersion(start);
      } else if ch == 'T' && Peek() == '!' {
        tok, pos, lit := StartWithFeatures(start);
      } else {
        tok, pos, lit := StartWithOther(start, ch);
      }
    }

    /** A comment with a version is always scanned. */
    method StartWithVersion(start: Pos) returns (tok: Token, pos: Pos, lit: string)
      requires Valid() && CommentOpens(text, start.offset) && start == PosAt(text, start.offset)
      requires p.offset == start.offset + 3 <= |text| && text[p.offset - 1] == '!'
      modifies this
      ensures Scanned(start.offset, old(inBangComment), tok, pos, lit)
      ensures Slashed(Opened(VersionEnd(text, start.offset)), start, old(inBangComment), tok, pos, lit)
      decreases |text| - p.offset, 4
    {
      ScanVersionDigits(5, 5);
      tok, pos, lit := InsideBang(start.offset, inBangComment);
    }

    /** A comment whose first character opens none that is scanned. */
    method StartWithOther(start: Pos, ch: char) returns (tok: Token, pos: Pos, lit: string)
      requires NoEndYet(start.offset, ch == '*') && start == PosAt(text, start.offset) && ch == Peeked(text, start.offset + 2)
      requires ch != '!' && (ch == 'T' ==> Peeked(text, start.offset + 3) != '!')
      modifies this
      ensures Scanned(start.offset, old(inBangComment), tok, pos, lit)
      ensures Slashed(OpeningAt(text, start.offset, old(HintAllowed()), known), start, old(inBangComment), tok, pos, lit)
      decreases |text| - p.offset, 4
    {
      var hint := false;
      if ch == '+' { hint := HintHere(); }
      tok, pos, lit := AfterCommentOpens(start, ch == '*', hint);
    }

    /** A comment with features: scanned when all of them are known. */
    method StartWithFeatures(start: Pos) returns (tok: Token, pos: Pos, lit: string)
      requires Valid() && CommentOpens(text, start.offset) && start == PosAt(text, start.offset)
      requires p.offset == start.offset + 3 < |text| && text[p.offset - 1] == 'T' && text[p.offset] == '!'
      modifies this
      ensures Scanned(start.offset, old(inBangComment), tok, pos, lit)
      ensures var i := start.offset;
        Slashed(FeatureComment(Automaton(text, i + 4, Init, "", []), i, known), start, old(inBangComment), tok, pos, lit)
      decreases |text| - p.offset, 4
    {
      Inc();
      var features, found := ScanFeatureIDs();
      FeaturesRead(start.offset + 4, features);
      if AllKnown(features, known) {
        tok, pos, lit := InsideBang(start.offset, inBangComment);
      } else {
        tok, pos, lit := AfterCommentOpens(start, false, false);
      }
    }

    /** What the automaton passed over is feature text, and ends no comment. */
    lemma FeaturesRead(i: nat, ids: seq<string>)
      requires i <= p.offset <= |text| && i >= 1 && text[i - 1] == '!'
      requires var r := Automaton(text, i, Init, "", []); if r.Accepts? then ids == r.ids && p.offset == r.end else p.offset == i
      ensures FeatureText(text[i..p.offset])
      ensures forall j :: i - 1 <= j < p.offset ==> text[j] != '*'
    {
      var t := text[i..p.offset];
      if p.offset > i {
        FeaturesExactly(text, i, ids, p.offset);
        ListIsFeatureText(text, i, p.offset, ids);
      }
      forall j | i - 1 <= j < p.offset ensures text[j] != '*' {
        if j >= i { assert text[j] == t[j - i]; }
      }
    }

    method StartWithStar() returns (tok: Token, pos: Pos, lit: string)
      requires Valid() && p.offset < |text| && text[p.offset] == '*'
      modifies this
      ensures Scanned(old(p.offset), old(inBangComment), tok, pos, lit)
      ensures if old(inBangComment) && StarSlash(text, old(p.offset)) then Scanned(old(p.offset) + 2, false, tok, pos, lit)
              else IsLeaf(Leaf(Plain('*'), "*", old(p.offset) + 1), old(p), tok, pos, lit)
                   && inBangComment == old(inBangComment) && !identifierDot
      decreases |text| - p.offset, 1, 0
    {
      var start := p;
      Inc();
      if inBangComment && Peek() == '/' {
        inBangComment := false;
        Inc();
        ghost var k := p.offset;
        tok, pos, lit := Scan();
        ScannedAfter(start.offset, k, true, false, tok, pos, lit);
        return;
      }
      identifierDot := false;
      tok, pos, lit := Plain('*'), start, "*";
      assert Told(tok, pos, lit);
      ScannedHere(start.offset, start, tok, pos, lit);
    }

    method SkipWhitespace()
      requires Valid()
      modifies `p
      ensures Valid() && Ran(IsBlank, old(p.offset), p.offset)
    {
      var ch := IncAsLongAs(IsBlank);
    }

    /** The next token. */
    method Scan() returns (tok: Token, pos: Pos, lit: string)
      requires Valid()
      modifies this
      ensures Scanned(old(p.offset), old(inBangComment), tok, pos, lit)
      decreases |text| - p.offset, 2
    {
      ghost var from, bang := p.offset, inBangComment;
      if IsBlank(Peek()) {
        SkipWhitespace();
      }
      ghost var start := p.offset;
      if AtEnd() {
        tok, pos, lit := Eof, p, "";
        ScannedHere(start, pos, tok, pos, lit);
      } else {
        tok, pos, lit := ScanFrom(Peek());
      }
      GapBlanks(text, from, start, pos.offset, bang, inBangComment);
    }

    /** The function for a character of the text. */
    method ScanFrom(ch: char) returns (tok: Token, pos: Pos, lit: string)
      requires Valid() && p.offset < |text| && ch == text[p.offset] && !IsBlank(ch)
      modifies this
      ensures Scanned(old(p.offset), old(inBangComment), tok, pos, lit)
      decreases |text| - p.offset, 1, 1
    {
      if ch == '/' {
        tok, pos, lit := StartWithSlash();
      } else if ch == '*' {
        tok, pos, lit := StartWithStar();
      } else if ch == '-' {
        tok, pos, lit := StartWithDash();
      } else if ch == '#' {
        tok, pos, lit := StartWithSharp();
      } else {
        ghost var start := p;
        tok, pos, lit := ScanLeaf(ch);
        assert Told(tok, pos, lit);
        ScannedHere(start.offset, start, tok, pos, lit);
      }
    }

    /** The tokens that start where they are found. */
    method ScanLeaf(ch: char) returns (tok: Token, pos: Pos, lit: string)
      requires Valid() && p.offset < |text| && ch == text[p.offset] && ch != '/'
      modifies `p, `buf
      ensures Here(old(p), tok, pos, lit)
      ensures IsLeaf(TokenAt(text, old(p.offset), identifierDot, backslashIsPlain), old(p), tok, pos, lit)
    {
      if ch == '@' {
        tok, pos, lit := StartWithAt();
      } else if ch == '`' {
        tok, pos, lit := ScanQuotedIdent();
      } else if ch == '\'' || ch == '"' {
        tok, pos, lit := ScanString();
      } else if IsDigit(ch) {
        tok, pos, lit := StartWithNumber();
      } else if ch == '.' {
        tok, pos, lit := StartWithDot();
      } else {
        tok, pos, lit := ScanWordOrOperator(ch);
      }
    }

    method ScanWordOrOperator(ch: char) returns (tok: Token, pos: Pos, lit: string)
      requires Valid() && p.offset < |text| && ch == text[p.offset] && ch != '/' && ch != '@'
      modifies `p
      ensures Here(old(p), tok, pos, lit) && IsLeaf(WordAtChar(text, old(p.offset)), old(p), tok, pos, lit)
    {
      if ch == 'X' || ch == 'x' {
        tok, pos, lit := StartWithQuotedDigits(true);
      } else if ch == 'B' || ch == 'b' {
        tok, pos, lit := StartWithQuotedDigits(false);
      } else if ch == 'N' || ch == 'n' {
        tok, pos, lit := StartWithNn();
      } else if IsIdentChar(ch) {
        tok, pos, lit := ScanIdentifier();
      } else {
        tok, pos, lit := ScanOperator();
      }
    }
  }
}
