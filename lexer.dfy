/**
 * The byte-level lexer: a cursor over the input that yields one token per call.
 *
 * The pure functions at the top of the module specify one step of the lexer (Scan) and
 * the whole stream it produces (AllTokens); the class Lexer is the cursor state machine
 * of the Go program, and each of its methods is proved against those functions.
 */
module Lexer {
  import opened Bytes
  import opened Token

  /** The current byte for a cursor at i: the input byte there, or the sentinel 0 past the end. */
  function ByteAt(input: Bytes, i: int): byte {
    if 0 <= i < |input| then input[i] else NUL
  }

  /** An identifier byte: an ASCII letter or underscore. */
  predicate CheckForAlphabet(ch: byte): (b: bool)
    ensures b ==> IsAscii(ch) && ch != NUL && !IsSpace(ch)
  {
    'a' <= ch <= 'z' || 'A' <= ch <= 'Z' || ch == '_'
  }

  /** An ASCII decimal digit. */
  predicate CheckForDigit(ch: byte): (b: bool)
    ensures b ==> IsAscii(ch) && ch != NUL && !IsSpace(ch) && !CheckForAlphabet(ch)
  {
    '0' <= ch <= '9'
  }

  /** The three kinds of run the lexer consumes a byte at a time. */
  datatype ByteClass = Alphabet | Digit | Space

  predicate InClass(cls: ByteClass, ch: byte) {
    match cls
    case Alphabet => CheckForAlphabet(ch)
    case Digit => CheckForDigit(ch)
    case Space => IsSpace(ch)
  }

  /** The three classes are disjoint, and none of them holds the sentinel 0 or a non-ASCII byte. */
  lemma ClassesDisjoint(ch: byte)
    ensures !(CheckForAlphabet(ch) && CheckForDigit(ch))
    ensures !(CheckForAlphabet(ch) && IsSpace(ch))
    ensures !(CheckForDigit(ch) && IsSpace(ch))
    ensures (CheckForAlphabet(ch) || CheckForDigit(ch) || IsSpace(ch)) ==> ch != NUL && IsAscii(ch)
  {
  }

  /**
   * The end of the maximal run of bytes of class cls that starts at pos: every byte in
   * [pos, end) is in the class and the byte at end is not.
   */
  function RunEnd(input: Bytes, pos: nat, cls: ByteClass): (end: nat)
    decreases |input| - pos
    ensures pos <= end
    ensures pos < end ==> end <= |input|
    ensures forall i :: pos <= i < end ==> InClass(cls, ByteAt(input, i))
    ensures !InClass(cls, ByteAt(input, end))
  {
    if InClass(cls, ByteAt(input, pos)) then RunEnd(input, pos + 1, cls) else pos
  }

  /** The type of a token of exactly one byte: punctuation, a lone '=' or '!', or ILLEGAL. */
  function OneByteType(ch: byte): TokenType {
    if ch == '=' then EQUALS
    else if ch == ';' then SEMICOLON
    else if ch == '(' then LPAREN
    else if ch == ')' then RPAREN
    else if ch == ',' then COMMA
    else if ch == '+' then PLUS
    else if ch == '-' then MINUS
    else if ch == '/' then DIVIDE
    else if ch == '*' then MULTIPLY
    else if ch == '{' then LBRACKET
    else if ch == '}' then RBRACKET
    else if ch == '!' then BANG
    else if ch == '<' then LT
    else if ch == '>' then GT
    else ILLEGAL
  }

  /**
   * The token that starts at p, where the lexer has already skipped white space, and the
   * cursor position after it. The two-byte operators are tried first, then the end
   * sentinel, identifier and number runs, and last the one-byte tokens.
   */
  function ScanAt(input: Bytes, p: nat): (r: (Token, nat))
    ensures p < r.1
    ensures r.0.Type != EOF ==> r.1 <= |input|
  {
    var c := ByteAt(input, p);
    if (c == '=' || c == '!') && ByteAt(input, p + 1) == '=' then
      (Token(if c == '=' then EQ else NOT_EQ, RuneString(c) + RuneString('=')), p + 2)
    else if c == NUL then
      (EofToken, p + 1)
    else if CheckForAlphabet(c) then
      var e := RunEnd(input, p, Alphabet);
      (Token(LookIdent(input[p..e]), input[p..e]), e)
    else if CheckForDigit(c) then
      var e := RunEnd(input, p, Digit);
      (Token(INT, input[p..e]), e)
    else
      (Token(OneByteType(c), RuneString(c)), p + 1)
  }

  /**
   * One step of the lexer from a cursor at pos: skip white space, then take the token
   * there. Every step moves the cursor forward, and a step that yields anything but EOF
   * leaves it within the input.
   */
  function Scan(input: Bytes, pos: nat): (r: (Token, nat))
    ensures pos < r.1
    ensures r.0.Type != EOF ==> r.1 <= |input|
  {
    ScanAt(input, RunEnd(input, pos, Space))
  }

  /** The EOF token, which the lexer yields at the end and for ever after. */
  const EofToken := Token(EOF, [])

  /**
   * The tokens a lexer with its cursor at pos yields until its cursor passes the end of the
   * input. Past that point every call yields EOF again (see StreamAt), so this finite
   * sequence followed by EOF for ever is the lexer's whole output.
   */
  function AllTokens(input: Bytes, pos: nat): (ts: seq<Token>)
    decreases |input| + 1 - pos
    ensures ts == [] <==> pos > |input|
  {
    if pos > |input| then []
    else
      var (tok, next) := Scan(input, pos);
      [tok] + AllTokens(input, next)
  }

  /** The k-th token of a stream that answers EOF past its end. */
  function StreamAt(ts: seq<Token>, k: nat): Token {
    if k < |ts| then ts[k] else EofToken
  }

  /** What is left of a stream after k tokens are taken from it. */
  function StreamAfter(ts: seq<Token>, k: nat): seq<Token> {
    if k < |ts| then ts[k..] else []
  }

  /** Once the cursor is at or past the end, a step yields EOF with the empty literal. */
  lemma ScanAtEnd(input: Bytes, pos: nat)
    requires pos >= |input|
    ensures Scan(input, pos) == (EofToken, pos + 1)
  {
    assert RunEnd(input, pos, Space) == pos;
  }

  /**
   * A step of the lexer takes the first token off its stream: the token it yields is the
   * stream's first (EOF if the stream is spent), and the stream from the new cursor is
   * the rest.
   */
  lemma AllTokensStep(input: Bytes, pos: nat)
    ensures Scan(input, pos).0 == StreamAt(AllTokens(input, pos), 0)
    ensures AllTokens(input, Scan(input, pos).1) == StreamAfter(AllTokens(input, pos), 1)
  {
    if pos > |input| {
      ScanAtEnd(input, pos);
    }
  }

  /**
   * The lexer state: the input, the cursor position of the current byte, the position of
   * the next byte to read, and the current byte (0 past the end).
   */
  class Lexer {
    const input: Bytes
    var position: int
    var readPosition: int
    var ch: byte

    /** The cursor invariant that NewLex sets up and every Advance keeps. */
    ghost predicate Valid()
      reads this
    {
      0 <= position && readPosition == position + 1 && ch == ByteAt(input, position)
    }

    /** The tokens this lexer has yet to yield before it answers EOF for ever. */
    ghost function Pending(): seq<Token>
      reads this
      requires Valid()
    {
      AllTokens(input, position)
    }

    /** A lexer over input with its cursor on the first byte. */
    constructor NewLex(input: Bytes)
      ensures Valid()
      ensures this.input == input && position == 0
      ensures Pending() == AllTokens(input, 0)
    {
      this.input := input;
      position := 0;
      readPosition := 0;
      ch := NUL;
      new;
      Advance();
    }

    /** Moves the cursor to the next byte; past the end the current byte is 0. */
    method Advance()
      requires 0 <= readPosition
      modifies this
      ensures position == old(readPosition) && readPosition == position + 1
      ensures ch == ByteAt(input, position)
      ensures Valid()
    {
      if readPosition >= |input| {
        ch := NUL;
      } else {
        ch := input[readPosition];
      }
      position := readPosition;
      readPosition := readPosition + 1;
    }

    /** The byte after the current one, 0 past the end; it moves nothing. */
    function PeekChar(): (next: byte)
      reads this
      requires Valid()
      ensures next == ByteAt(input, position + 1)
    {
      if readPosition >= |input| then NUL else input[readPosition]
    }

    /** Consumes the maximal run of letters and underscores at the cursor and returns it. */
    method ReadIdentifier() returns (lit: Bytes)
      requires Valid() && position <= |input|
      modifies this
      ensures Valid()
      ensures position == RunEnd(input, old(position), Alphabet)
      ensures lit == input[old(position)..position]
    {
      var start := position;
      while CheckForAlphabet(ch)
        invariant Valid() && start <= position <= |input|
        invariant RunEnd(input, position, Alphabet) == RunEnd(input, start, Alphabet)
        decreases |input| - position
      {
        Advance();
      }
      lit := input[start..position];
    }

    /** Consumes the maximal run of decimal digits at the cursor and returns it. */
    method ReadNumber() returns (lit: Bytes)
      requires Valid() && position <= |input|
      modifies this
      ensures Valid()
      ensures position == RunEnd(input, old(position), Digit)
      ensures lit == input[old(position)..position]
    {
      var start := position;
      while CheckForDigit(ch)
        invariant Valid() && start <= position <= |input|
        invariant RunEnd(input, position, Digit) == RunEnd(input, start, Digit)
        decreases |input| - position
      {
        Advance();
      }
      lit := input[start..position];
    }

    /** Consumes the maximal run of spaces, tabs, newlines and carriage returns at the cursor. */
    method SkipSpaces()
      requires Valid()
      modifies this
      ensures Valid()
      ensures position == RunEnd(input, old(position), Space)
    {
      ghost var start := position;
      while ch == ' ' || ch == '\t' || ch == '\n' || ch == '\r'
        invariant Valid() && start <= position
        invariant RunEnd(input, position, Space) == RunEnd(input, start, Space)
        decreases |input| - position
      {
        Advance();
      }
    }

    /** Yields the next token and moves the cursor past it, as one Scan step does. */
    method AdvanceToken() returns (tok: Token)
      requires Valid()
      modifies this
      ensures Valid()
      ensures (tok, position) == Scan(input, old(position))
    {
      ghost var start := position;
      SkipSpaces();
      ghost var p := position;
      assert Scan(input, start) == ScanAt(input, p);
      match ch {
      case '=' =>
        if PeekChar() == '=' {
          var first := ch;
          Advance();
          tok := Token(EQ, RuneString(first) + RuneString(ch));
        } else {
          tok := NewTok(EQUALS, ch);
        }
      case ';' => tok := NewTok(SEMICOLON, ch);
      case '(' => tok := NewTok(LPAREN, ch);
      case ')' => tok := NewTok(RPAREN, ch);
      case ',' => tok := NewTok(COMMA, ch);
      case '+' => tok := NewTok(PLUS, ch);
      case '-' => tok := NewTok(MINUS, ch);
      case '/' => tok := NewTok(DIVIDE, ch);
      case '*' => tok := NewTok(MULTIPLY, ch);
      case '{' => tok := NewTok(LBRACKET, ch);
      case '}' => tok := NewTok(RBRACKET, ch);
      case '!' =>
        if PeekChar() == '=' {
          var first := ch;
          Advance();
          tok := Token(NOT_EQ, RuneString(first) + RuneString(ch));
        } else {
          tok := NewTok(BANG, ch);
        }
      case '<' => tok := NewTok(LT, ch);
      case '>' => tok := NewTok(GT, ch);
      case '\0' => tok := EofToken;
      case _ =>
        if CheckForAlphabet(ch) {
          var lit := ReadIdentifier();
          tok := Token(LookIdent(lit), lit);
          return;
        } else if CheckForDigit(ch) {
          var lit := ReadNumber();
          tok := Token(INT, lit);
          return;
        } else {
          tok := NewTok(ILLEGAL, ch);
        }
      }
      Advance();
    }
  }
}
