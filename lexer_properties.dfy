/** What the lexer promises about each token it yields and about the stream as a whole. */
module LexerProperties {
  import opened Bytes
  import opened Token
  import opened TokenProperties
  import opened Lexer

  /** The byte the token of a step starts at, once white space is skipped. */
  function TokenStart(input: Bytes, pos: nat): nat {
    RunEnd(input, pos, Space)
  }

  /** A step yields EOF exactly when, after white space, it stands on the byte 0; EOF has the empty literal. */
  lemma ScanEofIffNul(input: Bytes, pos: nat)
    ensures Scan(input, pos).0.Type == EOF <==> ByteAt(input, TokenStart(input, pos)) == NUL
    ensures Scan(input, pos).0.Type == EOF ==> Scan(input, pos).0 == EofToken
  {
    var p := TokenStart(input, pos);
    var c := ByteAt(input, p);
    if CheckForAlphabet(c) {
      var e := RunEnd(input, p, Alphabet);
      var w := input[p..e];
      if w in Keywords {
        KeywordsNotIdent(w);
      }
    }
  }

  /** No token literal begins with a space, tab, newline or carriage return. */
  lemma ScanLiteralNotSpace(input: Bytes, pos: nat)
    ensures var lit := Scan(input, pos).0.Literal;
            lit == [] || !IsSpace(lit[0])
  {
  }

  /** Every token other than EOF has a non-empty literal. */
  lemma ScanLiteralNonEmpty(input: Bytes, pos: nat)
    ensures Scan(input, pos).0.Type != EOF ==> Scan(input, pos).0.Literal != []
  {
    ScanEofIffNul(input, pos);
  }

  /**
   * '=' followed by '=' is EQ with literal "==", '!' followed by '=' is NOT_EQ with literal
   * "!=", both consuming two bytes; a lone '=' is EQUALS and a lone '!' is BANG, each
   * consuming one byte.
   */
  lemma ScanOperators(input: Bytes, pos: nat)
    ensures var p := TokenStart(input, pos);
            ByteAt(input, p) == '=' ==>
              Scan(input, pos) == if ByteAt(input, p + 1) == '=' then (Token(EQ, "=="), p + 2)
                                  else (Token(EQUALS, "="), p + 1)
    ensures var p := TokenStart(input, pos);
            ByteAt(input, p) == '!' ==>
              Scan(input, pos) == if ByteAt(input, p + 1) == '=' then (Token(NOT_EQ, "!="), p + 2)
                                  else (Token(BANG, "!"), p + 1)
  {
    var p := TokenStart(input, pos);
    assert Scan(input, pos) == ScanAt(input, p);
    assert RuneString('=') == "=" && RuneString('!') == "!";
    assert RuneString('=') + RuneString('=') == "==";
    assert RuneString('!') + RuneString('=') == "!=";
  }

  /** The one-byte punctuation tokens: each has the constant's own string as its literal. */
  lemma ScanPunctuation(input: Bytes, pos: nat, t: TokenType)
    requires t in {SEMICOLON, LPAREN, RPAREN, COMMA, PLUS, MINUS, DIVIDE, MULTIPLY, LBRACKET, RBRACKET, LT, GT}
    requires [ByteAt(input, TokenStart(input, pos))] == Name(t)
    ensures Scan(input, pos) == (Token(t, Name(t)), TokenStart(input, pos) + 1)
  {
  }

  /**
   * An identifier is the maximal run of letters and underscores at the token start: every
   * byte of it is in that class, the byte after it is not, it is non-empty, and its type
   * is the keyword lookup of its text.
   */
  lemma ScanIdentifier(input: Bytes, pos: nat)
    requires CheckForAlphabet(ByteAt(input, TokenStart(input, pos)))
    ensures var p := TokenStart(input, pos);
            var (tok, next) := Scan(input, pos);
            p < next <= |input| && tok.Literal == input[p..next]
            && (forall i :: p <= i < next ==> CheckForAlphabet(input[i]))
            && !CheckForAlphabet(ByteAt(input, next))
            && tok.Type == LookIdent(tok.Literal)
  {
    var p := TokenStart(input, pos);
    assert Scan(input, pos) == ScanAt(input, p);
    var next := Scan(input, pos).1;
    forall i | p <= i < next ensures CheckForAlphabet(input[i]) {
      assert InClass(Alphabet, ByteAt(input, i));
    }
  }

  /** A number is the maximal run of decimal digits at the token start, of type INT. */
  lemma ScanNumber(input: Bytes, pos: nat)
    requires CheckForDigit(ByteAt(input, TokenStart(input, pos)))
    ensures var p := TokenStart(input, pos);
            var (tok, next) := Scan(input, pos);
            p < next <= |input| && tok == Token(INT, input[p..next])
            && (forall i :: p <= i < next ==> CheckForDigit(input[i]))
            && !CheckForDigit(ByteAt(input, next))
  {
    var p := TokenStart(input, pos);
    assert Scan(input, pos) == ScanAt(input, p);
    var next := Scan(input, pos).1;
    forall i | p <= i < next ensures CheckForDigit(input[i]) {
      assert InClass(Digit, ByteAt(input, i));
    }
  }

  /** The bytes that no rule of the lexer recognises. */
  predicate Unrecognised(c: byte) {
    c !in {'=', ';', '(', ')', ',', '+', '-', '/', '*', '{', '}', '!', '<', '>', NUL}
    && !CheckForAlphabet(c) && !CheckForDigit(c) && !IsSpace(c)
  }

  /** Any other byte is ILLEGAL, its literal Go's string of that byte, and it consumes one byte. */
  lemma ScanIllegal(input: Bytes, pos: nat)
    requires Unrecognised(ByteAt(input, TokenStart(input, pos)))
    ensures var p := TokenStart(input, pos);
            Scan(input, pos) == (Token(ILLEGAL, RuneString(ByteAt(input, p))), p + 1)
  {
  }

  /** The bytes the lexer skips are exactly white space, from pos up to the token start. */
  lemma ScanSkipsOnlySpace(input: Bytes, pos: nat)
    ensures pos <= TokenStart(input, pos)
    ensures forall i :: pos <= i < TokenStart(input, pos) ==> IsSpace(input[i])
    ensures !IsSpace(ByteAt(input, TokenStart(input, pos)))
  {
    forall i | pos <= i < TokenStart(input, pos) ensures IsSpace(input[i]) {
      assert InClass(Space, ByteAt(input, i));
    }
  }

  /** Once at or past the end the lexer stays there: every further step yields EOF again. */
  lemma {:induction false} EofForever(input: Bytes, pos: nat, k: nat)
    requires pos >= |input|
    ensures Steps(input, pos, k) == pos + k
    ensures Scan(input, Steps(input, pos, k)) == (EofToken, pos + k + 1)
    decreases k
  {
    if k > 0 {
      ScanAtEnd(input, pos);
      EofForever(input, pos + 1, k - 1);
    } else {
      ScanAtEnd(input, pos);
    }
  }

  /** The cursor after k steps from pos. */
  function Steps(input: Bytes, pos: nat, k: nat): nat
    decreases k
  {
    if k == 0 then pos else Steps(input, Scan(input, pos).1, k - 1)
  }

  /** The stream of a lexer that has not passed the end is non-empty and ends with the final EOF. */
  lemma {:induction false} AllTokensEndsWithEof(input: Bytes, pos: nat)
    requires pos <= |input|
    ensures var ts := AllTokens(input, pos);
            |ts| > 0 && ts[|ts| - 1] == EofToken
    decreases |input| - pos
  {
    var (tok, next) := Scan(input, pos);
    if next <= |input| {
      AllTokensEndsWithEof(input, next);
    } else {
      ScanEofIffNul(input, pos);
    }
  }

  /** Input without the byte 0, the one byte that stands for the end. */
  predicate NulFree(input: Bytes) {
    forall i :: 0 <= i < |input| ==> input[i] != NUL
  }

  /** In NUL-free input, EOF comes only once, as the last token of the stream. */
  lemma {:induction false} NulFreeEofLast(input: Bytes, pos: nat)
    requires NulFree(input)
    ensures var ts := AllTokens(input, pos);
            forall i :: 0 <= i < |ts| - 1 ==> ts[i].Type != EOF
    decreases |input| + 1 - pos
  {
    if pos <= |input| {
      var (tok, next) := Scan(input, pos);
      ScanEofIffNul(input, pos);
      NulFreeEofLast(input, next);
      assert AllTokens(input, pos) == [tok] + AllTokens(input, next);
      if tok.Type == EOF {
        assert next > |input|;
        assert AllTokens(input, next) == [];
      }
    }
  }

  /** The literals of a sequence of tokens, concatenated. */
  function Literals(ts: seq<Token>): Bytes {
    if ts == [] then [] else ts[0].Literal + Literals(ts[1..])
  }

  /**
   * A token that starts at a byte of the input (not 0, not white space) has as its literal
   * the bytes it covers, each passed through Go's string(b), and it covers no white space.
   */
  lemma ScanAtLiteral(input: Bytes, p: nat)
    requires p < |input| && input[p] != NUL && !IsSpace(input[p])
    ensures var (tok, next) := ScanAt(input, p);
            next <= |input|
            && tok.Literal == Encode(input[p..next])
            && forall i :: p <= i < next ==> !IsSpace(input[i])
  {
    var (tok, next) := ScanAt(input, p);
    var c := input[p];
    if (c == '=' || c == '!') && ByteAt(input, p + 1) == '=' {
      assert input[p..next] == [c, '='];
      assert Encode(input[p..next]) == RuneString(c) + Encode(['=']);
    } else if CheckForAlphabet(c) || CheckForDigit(c) {
      var cls := if CheckForAlphabet(c) then Alphabet else Digit;
      assert next == RunEnd(input, p, cls);
      var run := input[p..next];
      forall i | p <= i < next ensures !IsSpace(input[i]) && IsAscii(input[i]) {
        assert InClass(cls, ByteAt(input, i));
        ClassesDisjoint(input[i]);
      }
      assert forall i :: 0 <= i < |run| ==> run[i] == input[p + i];
      EncodeAscii(run);
    } else {
      assert input[p..next] == [c];
      assert Encode([c]) == RuneString(c) + Encode([]);
    }
  }

  /** Skipping white space before a token loses nothing once white space is removed. */
  lemma RemoveSpacesSkip(input: Bytes, pos: nat)
    requires pos <= |input|
    ensures TokenStart(input, pos) <= |input|
    ensures RemoveSpaces(input[pos..]) == RemoveSpaces(input[TokenStart(input, pos)..])
  {
    var p := TokenStart(input, pos);
    assert input[pos..] == input[pos..p] + input[p..];
    ScanSkipsOnlySpace(input, pos);
    assert forall i :: 0 <= i < p - pos ==> input[pos..p][i] == input[pos + i];
    RemoveSpacesAll(input[pos..p]);
    RemoveSpacesAppend(input[pos..p], input[p..]);
  }

  /** A token that starts inside NUL-free input accounts for the encoded bytes it covers. */
  lemma ScanAtAccounts(input: Bytes, p: nat)
    requires NulFree(input) && p < |input| && !IsSpace(input[p])
    ensures var (tok, next) := ScanAt(input, p);
            next <= |input|
            && Encode(RemoveSpaces(input[p..])) == tok.Literal + Encode(RemoveSpaces(input[next..]))
  {
    ScanAtLiteral(input, p);
    var next := ScanAt(input, p).1;
    var covered := input[p..next];
    assert input[p..] == covered + input[next..];
    assert forall i :: 0 <= i < |covered| ==> covered[i] == input[p + i];
    RemoveSpacesNone(covered);
    RemoveSpacesAppend(covered, input[next..]);
    EncodeAppend(covered, RemoveSpaces(input[next..]));
  }

  /**
   * For NUL-free input, the literals of the tokens from pos, concatenated, are the rest of
   * the input with white space removed and each byte passed through Go's string(b).
   */
  lemma {:induction false} LiteralsFrom(input: Bytes, pos: nat)
    requires NulFree(input) && pos <= |input|
    ensures Literals(AllTokens(input, pos)) == Encode(RemoveSpaces(input[pos..]))
    decreases |input| - pos
  {
    var p := TokenStart(input, pos);
    var (tok, next) := Scan(input, pos);
    RemoveSpacesSkip(input, pos);
    if p == |input| {
      ScanAtEnd(input, p);
      assert Scan(input, pos) == (EofToken, p + 1);
      assert AllTokens(input, pos) == [EofToken] + AllTokens(input, p + 1);
      assert input[p..] == [];
    } else {
      ScanSkipsOnlySpace(input, pos);
      ScanAtAccounts(input, p);
      LiteralsFrom(input, next);
      assert AllTokens(input, pos) == [tok] + AllTokens(input, next);
    }
  }

  /**
   * Literal preservation: for NUL-free input the literals of all tokens the lexer yields
   * are the input without its white space, each byte as Go's string(b).
   */
  lemma LiteralsPreserveInput(input: Bytes)
    requires NulFree(input)
    ensures Literals(AllTokens(input, 0)) == Encode(RemoveSpaces(input))
  {
    LiteralsFrom(input, 0);
    assert input[0..] == input;
  }

  /** For NUL-free ASCII input the literals concatenate to the input with white space removed. */
  lemma LiteralsPreserveAsciiInput(input: Bytes)
    requires NulFree(input)
    requires forall i :: 0 <= i < |input| ==> IsAscii(input[i])
    ensures Literals(AllTokens(input, 0)) == RemoveSpaces(input)
  {
    LiteralsPreserveInput(input);
    var r := RemoveSpaces(input);
    RemoveSpacesAscii(input);
    EncodeAscii(r);
  }

  /** Removing white space keeps only bytes of the input, so it keeps ASCII text ASCII. */
  lemma {:induction false} RemoveSpacesAscii(s: Bytes)
    requires forall i :: 0 <= i < |s| ==> IsAscii(s[i])
    ensures forall i :: 0 <= i < |RemoveSpaces(s)| ==> IsAscii(RemoveSpaces(s)[i])
  {
    if s != [] {
      RemoveSpacesAscii(s[1..]);
    }
  }

  /** A byte at or above 0x80 is ILLEGAL, and its literal is the two bytes of its UTF-8 encoding, not the byte. */
  lemma NonAsciiIllegal()
    ensures AllTokens(['é'], 0) == [Token(ILLEGAL, ['Ã', '©']), EofToken]
  {
    ScanAtEnd(['é'], 1);
  }

  /** A lexer that has not passed the end yields the token of its next step, then the rest. */
  lemma AllTokensCons(input: Bytes, pos: nat, tok: Token, next: nat)
    requires pos <= |input| && Scan(input, pos) == (tok, next)
    ensures AllTokens(input, pos) == [tok] + AllTokens(input, next)
  {
  }

  /** The stream of a lexer whose cursor is at the end of the input is the final EOF alone. */
  lemma AllTokensAtEnd(input: Bytes)
    ensures AllTokens(input, |input|) == [EofToken]
  {
    ScanAtEnd(input, |input|);
  }

  /** A run of class cls from p ends at e exactly when all of [p, e) is in the class and e is not. */
  lemma {:induction false} RunEndAt(input: Bytes, p: nat, e: nat, cls: ByteClass)
    requires p <= e
    requires forall i :: p <= i < e ==> InClass(cls, ByteAt(input, i))
    requires !InClass(cls, ByteAt(input, e))
    ensures RunEnd(input, p, cls) == e
    decreases e - p
  {
    if p < e {
      RunEndAt(input, p + 1, e, cls);
    }
  }

  /*
   * Worked examples. Each takes its input as a parameter fixed by its precondition, so
   * that the verifier unfolds the lexer functions only as far as the proof asks.
   */

  /** Identifiers take no digits: "a1" is the identifier "a" followed by the number "1". */
  lemma IdentifierThenNumber(s: Bytes)
    requires s == "a1"
    ensures AllTokens(s, 0) == [Token(IDENT, "a"), Token(INT, "1"), EofToken]
  {
    assert TokenStart(s, 0) == 0;
    ScanIdentifier(s, 0);
    assert s[0..1] == "a";
    LookIdentReserved("a");
    assert s[1] == '1';
    assert TokenStart(s, 1) == 1;
    ScanNumber(s, 1);
    assert s[1..2] == "1";
    AllTokensAtEnd(s);
    AllTokensCons(s, 1, Token(INT, "1"), 2);
    AllTokensCons(s, 0, Token(IDENT, "a"), 1);
  }

  /** An embedded 0 yields EOF, and the lexer carries on after it. */
  lemma EmbeddedNul(s: Bytes)
    requires s == "a\0b"
    ensures AllTokens(s, 0) == [Token(IDENT, "a"), EofToken, Token(IDENT, "b"), EofToken]
  {
    assert TokenStart(s, 0) == 0;
    ScanIdentifier(s, 0);
    assert s[0..1] == "a";
    LookIdentReserved("a");
    assert s[1] == NUL;
    assert TokenStart(s, 1) == 1;
    ScanEofIffNul(s, 1);
    assert Scan(s, 1) == (EofToken, 2);
    assert TokenStart(s, 2) == 2;
    ScanIdentifier(s, 2);
    assert s[2..3] == "b";
    LookIdentReserved("b");
    AllTokensAtEnd(s);
    AllTokensCons(s, 2, Token(IDENT, "b"), 3);
    AllTokensCons(s, 1, EofToken, 2);
    AllTokensCons(s, 0, Token(IDENT, "a"), 1);
  }

  /** "let x = 5;" lexes as LET, IDENT, EQUALS, INT, SEMICOLON, EOF. */
  lemma LexLetStatement(s: Bytes)
    requires s == "let x = 5;"
    ensures AllTokens(s, 0) ==
      [Token(LET, "let"), Token(IDENT, "x"), Token(EQUALS, "="), Token(INT, "5"),
       Token(SEMICOLON, ";"), EofToken]
  {
    LexLetKeyword(s);
    LexLetName(s);
    LexLetRight(s);
    AllTokensAtEnd(s);
    AllTokensCons(s, 9, Token(SEMICOLON, ";"), 10);
    AllTokensCons(s, 7, Token(INT, "5"), 9);
    AllTokensCons(s, 5, Token(EQUALS, "="), 7);
    AllTokensCons(s, 3, Token(IDENT, "x"), 5);
    AllTokensCons(s, 0, Token(LET, "let"), 3);
  }

  /** The keyword of "let x = 5;". */
  lemma LexLetKeyword(s: Bytes)
    requires s == "let x = 5;"
    ensures Scan(s, 0) == (Token(LET, "let"), 3)
  {
    assert RunEnd(s, 0, Space) == 0;
    RunEndAt(s, 0, 3, Alphabet);
    assert s[0..3] == "let";
    assert LookIdent("let") == LET;
  }

  /** The name of "let x = 5;". */
  lemma LexLetName(s: Bytes)
    requires s == "let x = 5;"
    ensures Scan(s, 3) == (Token(IDENT, "x"), 5)
  {
    RunEndAt(s, 3, 4, Space);
    RunEndAt(s, 4, 5, Alphabet);
    assert s[4..5] == "x";
    LookIdentReserved("x");
  }

  /** The assignment, the value and the semicolon of "let x = 5;". */
  lemma LexLetRight(s: Bytes)
    requires s == "let x = 5;"
    ensures Scan(s, 5) == (Token(EQUALS, "="), 7)
    ensures Scan(s, 7) == (Token(INT, "5"), 9)
    ensures Scan(s, 9) == (Token(SEMICOLON, ";"), 10)
  {
    assert s[5] == ' ' && s[6] == '=' && s[7] == ' ' && s[8] == '5' && s[9] == ';';
    assert TokenStart(s, 6) == 6;
    assert TokenStart(s, 5) == 6;
    ScanOperators(s, 5);
    assert TokenStart(s, 8) == 8;
    assert TokenStart(s, 7) == 8;
    ScanNumber(s, 7);
    assert s[8..9] == "5";
    assert TokenStart(s, 9) == 9;
    ScanPunctuation(s, 9, SEMICOLON);
  }

  /** "10 == 10;" lexes with the two-byte operator EQ, and "10 != 9;" (LexNotEqual) with NOT_EQ. */
  lemma LexEqual(s: Bytes)
    requires s == "10 == 10;"
    ensures AllTokens(s, 0) ==
      [Token(INT, "10"), Token(EQ, "=="), Token(INT, "10"), Token(SEMICOLON, ";"), EofToken]
  {
    LexEqualLeft(s);
    LexEqualRight(s);
    AllTokensAtEnd(s);
    AllTokensCons(s, 8, Token(SEMICOLON, ";"), 9);
    AllTokensCons(s, 5, Token(INT, "10"), 8);
    AllTokensCons(s, 2, Token(EQ, "=="), 5);
    AllTokensCons(s, 0, Token(INT, "10"), 2);
  }

  /** The first two steps of the lexer over "10 == 10;". */
  lemma LexEqualLeft(s: Bytes)
    requires s == "10 == 10;"
    ensures Scan(s, 0) == (Token(INT, "10"), 2)
    ensures Scan(s, 2) == (Token(EQ, "=="), 5)
  {
    assert TokenStart(s, 0) == 0;
    ScanNumber(s, 0);
    assert s[0..2] == "10";
    assert s[2] == ' ' && s[3] == '=' && s[4] == '=';
    assert TokenStart(s, 3) == 3;
    assert TokenStart(s, 2) == 3;
    ScanOperators(s, 2);
  }

  /** The last two steps of the lexer over "10 == 10;". */
  lemma LexEqualRight(s: Bytes)
    requires s == "10 == 10;"
    ensures Scan(s, 5) == (Token(INT, "10"), 8)
    ensures Scan(s, 8) == (Token(SEMICOLON, ";"), 9)
  {
    assert s[5] == ' ' && s[6] == '1';
    assert TokenStart(s, 6) == 6;
    assert TokenStart(s, 5) == 6;
    ScanNumber(s, 5);
    assert s[6..8] == "10";
    assert s[8] == ';';
    assert TokenStart(s, 8) == 8;
    ScanPunctuation(s, 8, SEMICOLON);
  }

  lemma LexNotEqual(s: Bytes)
    requires s == "10 != 9;"
    ensures AllTokens(s, 0) ==
      [Token(INT, "10"), Token(NOT_EQ, "!="), Token(INT, "9"), Token(SEMICOLON, ";"), EofToken]
  {
    LexNotEqualLeft(s);
    LexNotEqualRight(s);
    AllTokensAtEnd(s);
    AllTokensCons(s, 7, Token(SEMICOLON, ";"), 8);
    AllTokensCons(s, 5, Token(INT, "9"), 7);
    AllTokensCons(s, 2, Token(NOT_EQ, "!="), 5);
    AllTokensCons(s, 0, Token(INT, "10"), 2);
  }

  /** The first two steps of the lexer over "10 != 9;". */
  lemma LexNotEqualLeft(s: Bytes)
    requires s == "10 != 9;"
    ensures Scan(s, 0) == (Token(INT, "10"), 2)
    ensures Scan(s, 2) == (Token(NOT_EQ, "!="), 5)
  {
    assert TokenStart(s, 0) == 0;
    ScanNumber(s, 0);
    assert s[0..2] == "10";
    assert s[2] == ' ' && s[3] == '!' && s[4] == '=';
    assert TokenStart(s, 3) == 3;
    assert TokenStart(s, 2) == 3;
    ScanOperators(s, 2);
  }

  /** The last two steps of the lexer over "10 != 9;". */
  lemma LexNotEqualRight(s: Bytes)
    requires s == "10 != 9;"
    ensures Scan(s, 5) == (Token(INT, "9"), 7)
    ensures Scan(s, 7) == (Token(SEMICOLON, ";"), 8)
  {
    assert s[5] == ' ' && s[6] == '9';
    assert TokenStart(s, 6) == 6;
    assert TokenStart(s, 5) == 6;
    ScanNumber(s, 5);
    assert s[6..7] == "9";
    assert s[7] == ';';
    assert TokenStart(s, 7) == 7;
    ScanPunctuation(s, 7, SEMICOLON);
  }
}
