/** Properties of the keyword table and of its lookup. */
module TokenProperties {
  import opened Bytes
  import opened Token

  /** The seven reserved words. */
  const ReservedWords: set<Bytes> := {"fun", "let", "true", "false", "if", "else", "return"}

  /** LookIdent yields a type other than IDENT for exactly the seven reserved words. */
  lemma LookIdentReserved(ident: Bytes)
    ensures LookIdent(ident) != IDENT <==> ident in ReservedWords
  {
    assert Keywords.Keys == ReservedWords;
  }

  /** Each reserved word maps to its own keyword type. */
  lemma LookIdentKeywordTypes()
    ensures LookIdent("fun") == FUNCTION
    ensures LookIdent("let") == LET
    ensures LookIdent("true") == TRUE
    ensures LookIdent("false") == FALSE
    ensures LookIdent("if") == IF
    ensures LookIdent("else") == ELSE
    ensures LookIdent("return") == RETURN
  {
  }

  /** The lookup compares bytes exactly: case variants and the type names themselves are identifiers. */
  lemma LookIdentCaseSensitive()
    ensures LookIdent("Let") == IDENT
    ensures LookIdent("LET") == IDENT
    ensures LookIdent("Return") == IDENT
    ensures LookIdent("fn") == IDENT
  {
    LookIdentReserved("Let");
    LookIdentReserved("LET");
    LookIdentReserved("Return");
    LookIdentReserved("fn");
  }

  /** No two reserved words share a keyword type, so the keyword lookup can be inverted. */
  lemma KeywordsInjective(a: Bytes, b: Bytes)
    requires a in Keywords && b in Keywords
    ensures Keywords[a] == Keywords[b] <==> a == b
  {
  }

  /** A keyword type is never IDENT, so a reserved word is always told apart from a name. */
  lemma KeywordsNotIdent(a: Bytes)
    requires a in Keywords
    ensures Keywords[a] != IDENT && Keywords[a] != EOF && Keywords[a] != ILLEGAL
  {
  }

  /** For an ASCII byte, NewTok's literal is Name of the token type when the type is that byte's punctuation. */
  lemma NewTokPunctuation(ch: byte, t: TokenType)
    requires Name(t) == [ch]
    ensures NewTok(t, ch).Literal == Name(t)
  {
    match t
    case EQUALS =>
    case PLUS =>
    case MINUS =>
    case DIVIDE =>
    case MULTIPLY =>
    case COMMA =>
    case SEMICOLON =>
    case LPAREN =>
    case RPAREN =>
    case LBRACKET =>
    case RBRACKET =>
    case GT =>
    case LT =>
    case BANG =>
    case _ =>
  }
}
