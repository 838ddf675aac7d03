/**
 * The token table: the closed set of token types, the Token record, the keyword table
 * with its lookup, and the one-byte token constructor.
 */
module Token {
  import opened Wrappers
  import opened Bytes

  /**
   * The token types. In Go a TokenType is a string and every type is a string constant;
   * Name gives that string, and NameInjective shows that no two types share it.
   */
  datatype TokenType =
    | ILLEGAL | EOF | IDENT | INT | FLOAT
    | EQUALS | PLUS | MINUS | DIVIDE | MULTIPLY
    | EQ | NOT_EQ
    | COMMA | SEMICOLON
    | LPAREN | RPAREN
    | LBRACKET | RBRACKET
    | FUNCTION | LET | TRUE | FALSE | IF | ELSE | RETURN
    | GT | LT | BANG

  /** The Go string value of each token-type constant. */
  function Name(t: TokenType): Bytes {
    match t
    case ILLEGAL => "ILLEGAL"
    case EOF => "EOF"
    case IDENT => "IDENT"
    case INT => "INT"
    case FLOAT => "FLOAT"
    case EQUALS => "="
    case PLUS => "+"
    case MINUS => "-"
    case DIVIDE => "/"
    case MULTIPLY => "*"
    case EQ => "=="
    case NOT_EQ => "!="
    case COMMA => ","
    case SEMICOLON => ";"
    case LPAREN => "("
    case RPAREN => ")"
    case LBRACKET => "{"
    case RBRACKET => "}"
    case FUNCTION => "FUNCTION"
    case LET => "LET"
    case TRUE => "TRUE"
    case FALSE => "FALSE"
    case IF => "IF"
    case ELSE => "ELSE"
    case RETURN => "RETURN"
    case GT => ">"
    case LT => "<"
    case BANG => "!"
  }

  /** The token type whose constant is the string s, if there is one. */
  function TypeNamed(s: Bytes): Option<TokenType> {
    if s == "ILLEGAL" then Some(ILLEGAL)
    else if s == "EOF" then Some(EOF)
    else if s == "IDENT" then Some(IDENT)
    else if s == "INT" then Some(INT)
    else if s == "FLOAT" then Some(FLOAT)
    else if s == "=" then Some(EQUALS)
    else if s == "+" then Some(PLUS)
    else if s == "-" then Some(MINUS)
    else if s == "/" then Some(DIVIDE)
    else if s == "*" then Some(MULTIPLY)
    else if s == "==" then Some(EQ)
    else if s == "!=" then Some(NOT_EQ)
    else if s == "," then Some(COMMA)
    else if s == ";" then Some(SEMICOLON)
    else if s == "(" then Some(LPAREN)
    else if s == ")" then Some(RPAREN)
    else if s == "{" then Some(LBRACKET)
    else if s == "}" then Some(RBRACKET)
    else if s == "FUNCTION" then Some(FUNCTION)
    else if s == "LET" then Some(LET)
    else if s == "TRUE" then Some(TRUE)
    else if s == "FALSE" then Some(FALSE)
    else if s == "IF" then Some(IF)
    else if s == "ELSE" then Some(ELSE)
    else if s == "RETURN" then Some(RETURN)
    else if s == ">" then Some(GT)
    else if s == "<" then Some(LT)
    else if s == "!" then Some(BANG)
    else None
  }

  /** Every constant's string leads back to its type. */
  lemma TypeNamedName(t: TokenType)
    ensures TypeNamed(Name(t)) == Some(t)
  {
    match t
    case ILLEGAL =>
    case EOF =>
    case IDENT =>
    case INT =>
    case FLOAT =>
    case EQUALS =>
    case PLUS =>
    case MINUS =>
    case DIVIDE =>
    case MULTIPLY =>
    case EQ =>
    case NOT_EQ =>
    case COMMA =>
    case SEMICOLON =>
    case LPAREN =>
    case RPAREN =>
    case LBRACKET =>
    case RBRACKET =>
    case FUNCTION =>
    case LET =>
    case TRUE =>
    case FALSE =>
    case IF =>
    case ELSE =>
    case RETURN =>
    case GT =>
    case LT =>
    case BANG =>
  }

  /**
   * The type constants are pairwise distinct strings. In particular assignment EQUALS ("=")
   * and equality EQ ("==") never compare equal.
   */
  lemma NameInjective(a: TokenType, b: TokenType)
    ensures Name(a) == Name(b) <==> a == b
  {
    TypeNamedName(a);
    TypeNamedName(b);
  }

  /** A token: its type and the source text it stands for. */
  datatype Token = Token(Type: TokenType, Literal: Bytes)

  /** The reserved words and the token type each one stands for. */
  const Keywords: map<string, TokenType> := map[
    "fun" := FUNCTION,
    "let" := LET,
    "true" := TRUE,
    "false" := FALSE,
    "if" := IF,
    "else" := ELSE,
    "return" := RETURN
  ]

  /** The type of an identifier-shaped word: its keyword type if it is reserved, IDENT otherwise. */
  function LookIdent(ident: Bytes): (t: TokenType)
    ensures t == IDENT || t in Keywords.Values
  {
    if ident in Keywords then Keywords[ident] else IDENT
  }

  /** NewTok(t, ch) is a token of type t whose literal is Go's string(ch). */
  function NewTok(tokenType: TokenType, ch: byte): (tok: Token)
    ensures tok.Type == tokenType
    ensures DecodeRune(tok.Literal) == Some(ch)
    ensures IsAscii(ch) <==> tok.Literal == [ch]
  {
    DecodeRuneString(ch);
    Token(tokenType, RuneString(ch))
  }
}
