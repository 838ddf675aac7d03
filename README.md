# geomys front end in Dafny

This project models the front end of the geomys toy interpreter in three parts:

- **The token table.** Token-type constants, the keyword map, `LookIdent` and `NewTok`.
- **The byte-level lexer.** A cursor over the input with `position`, `readPosition` and the current byte. It yields one token per `AdvanceToken` call.
- **The statement-level parser.** It keeps a two-token window over the lexer and parses `let` and `return` statements into a program.

Layout:

- `wrappers.dfy`: `Option` and `Run`. `Run` is either `Returns(value)` or `Diverges`.
- `bytes.dfy`: bytes and Go strings.
  - A Go string is a sequence of bytes.
  - `RuneString` is Go's `string(b)` for a byte `b`. That is the UTF-8 encoding of the code point `b`, so it has two bytes when `b >= 0x80`.
  - White space and its removal.
- `token.dfy` and `token_properties.dfy`: the token table and its properties.
- `lexer.dfy`:
  - the pure specification of one lexer step (`Scan`) and of the whole token stream (`AllTokens`);
  - the `Lexer` class, whose methods are proved against `Scan`.
- `lexer_properties.dfy`: the lexer's properties and worked examples.
- `tree.dfy`: minimal syntax-tree datatypes. The tree package is not part of this model.
- `parser.dfy`:
  - the precedence levels;
  - the parser's window, specified as pure functions (`SkipToSemicolon`, `LetOutcome`, `ReturnOutcome`, `StatementOutcome`, `ProgramFrom`, `Parse`);
  - the `Parser` class. Each of its methods is proved against those functions, and all of them work over a real `Lexer`.
- `parser_properties.dfy`: properties of the parser functions and worked examples.

**Window.** The parser's state is `Window(cur, peek, rest)`:

- `cur` and `peek` are `currToken` and `peekedToken`.
- `rest` is what the lexer has yet to yield (`AllTokens(input, position)`).
- Past the end of `rest` the lexer answers EOF for ever, and `Shift` does the same.

`nextToken` is `Shift`, and every parser method is proved to move the window exactly as its function says.

**Behaviour of the code worth knowing.** The model reproduces each of these:

- **Two-byte literals for high bytes.** `NewTok`, and the ILLEGAL token for a byte at or above 0x80, build their literal with Go's `string(byte)`. For those bytes that literal is two bytes long, not one (token/token.go:66, lexer/lexer.go:126). `NonAsciiIllegal` shows this for the byte 0xE9.
- **An embedded NUL lexes as EOF, and lexing goes on after it.** `AdvanceToken` still advances past the NUL (lexer/lexer.go:113-115, 129), so `"a\0b"` yields `IDENT a, EOF, IDENT b, EOF`. EOF is repeated for ever only once the cursor is past the end. `EmbeddedNul` proves this.
- **`parseLetStatement` wants `==`, not `=`.** It expects `EQ` after the name (parser/parser.go:87). So `let x = 5;` gives a nil let, and `let x == 5;` gives a statement.
- **A failed let is still added to the program.** It returns a nil `*LetStatement` through the `tree.Statement` interface, and that interface value is not nil (parser/parser.go:156). So it is appended. The model keeps this as the entry `NilLetStatement`. The nil interface (`NilStatement`) that `ParseStatement` returns for other tokens is not appended.
- **No expression statements.** `ParseStatement` returns nil for every token other than LET and RETURN (parser/parser.go:135-136). The prefix table is created empty (parser/parser.go:52), so `parseExpression` always yields nil.
- **No parse errors are ever recorded.** `expectPeek` does not record errors, and `peekErrors` has no caller. `Errors()` is therefore always empty.
- **The skip-to-`;` loops can run for ever.** They never end when EOF comes before a `;` (parser/parser.go:91-93, 102-104). The model gives these loops an explicit `Diverges` outcome:
  - A method returns `Diverges` once the window is exhausted: `cur` and `peek` are EOF and the lexer is past the end.
  - From that state the Go loop keeps calling `nextToken`: the lexer's `position` and `readPosition` keep growing, but the window stays at EOF, EOF and never reaches a `;`.
  - This check is the model's way of stating non-termination. It is not code of the program.

## Model

| member | source | states |
|---|---|---|
| Bytes.RuneString | token/token.go:66 | Go's string of one byte: the byte itself exactly when it is ASCII, two bytes otherwise; it starts with 0 exactly for the byte 0 |
| Bytes.DecodeRuneString | token/token.go:66 | the string of a byte decodes back to that byte |
| Bytes.RuneStringInjective | token/token.go:66 | different bytes give different strings |
| Token.TypeNamedName | token/token.go:3-38 | each type constant's string maps back to that constant, so the constants are pairwise distinct |
| Token.NameInjective | token/token.go:3-38 | two token types have the same string exactly when they are the same type ("=" EQUALS and "==" EQ included) |
| Token.LookIdent | token/token.go:51-56 | the lookup yields IDENT or one of the keyword table's types |
| Token.NewTok | token/token.go:65-67 | the token has the given type; its literal decodes to the byte, and is exactly that one byte if and only if the byte is ASCII |
| TokenProperties.LookIdentReserved | token/token.go:41-56 | LookIdent yields something other than IDENT exactly for the seven reserved words |
| TokenProperties.LookIdentKeywordTypes | token/token.go:41-49 | each of fun, let, true, false, if, else, return maps to its own keyword type |
| TokenProperties.LookIdentCaseSensitive | token/token.go:51-56 | case variants and near misses such as "Let", "LET", "Return", "fn" are IDENT |
| TokenProperties.KeywordsInjective | token/token.go:41-49 | the keyword table is injective |
| TokenProperties.KeywordsNotIdent | token/token.go:41-49 | no keyword maps to IDENT, EOF or ILLEGAL |
| TokenProperties.NewTokPunctuation | token/token.go:65-67 | for a one-byte punctuation type, NewTok's literal is the constant's own string |
| Lexer.CheckForAlphabet | lexer/lexer.go:14-16 | an identifier byte is an ASCII byte other than 0 and white space |
| Lexer.CheckForDigit | lexer/lexer.go:18-20 | a digit is an ASCII byte other than 0, white space or an identifier byte |
| Lexer.ClassesDisjoint | lexer/lexer.go:14-20 | letters, digits and white space are disjoint, and none of them is 0 or a non-ASCII byte |
| Lexer.RunEnd | lexer/lexer.go:38-58 | a run of a byte class is maximal: every byte in it is in the class and the byte after it is not |
| Lexer.ScanAt | lexer/lexer.go:72-129 | the token dispatch always moves the cursor forward, and a non-EOF token ends within the input |
| Lexer.Scan | lexer/lexer.go:69-131 | every step of the lexer strictly increases the position; a non-EOF step stays within the input |
| Lexer.AllTokens | lexer/lexer.go:69-131 | the pending stream is empty exactly when the cursor is past the end |
| Lexer.ScanAtEnd | lexer/lexer.go:113-115 | at or past the end a step yields EOF with the empty literal and moves one byte |
| Lexer.AllTokensStep | lexer/lexer.go:69-131 | a step takes the first token off the pending stream, and EOF once the stream is spent |
| Lexer.Lexer.NewLex | lexer/lexer.go:32-36 | a new lexer holds the class invariant with its cursor on byte 0, and its pending stream is the whole input's |
| Lexer.Lexer.Advance | lexer/lexer.go:22-30 | position takes the old readPosition, readPosition is one more, and the current byte is the input byte there or 0 past the end |
| Lexer.Lexer.PeekChar | lexer/lexer.go:61-67 | the byte after the current one, or 0 past the end, with nothing changed |
| Lexer.Lexer.ReadIdentifier | lexer/lexer.go:38-44 | consumes exactly the maximal letter run at the cursor and returns its text |
| Lexer.Lexer.ReadNumber | lexer/lexer.go:46-52 | consumes exactly the maximal digit run at the cursor and returns its text |
| Lexer.Lexer.SkipSpaces | lexer/lexer.go:54-58 | consumes exactly the maximal run of space, tab, newline and carriage return |
| Lexer.Lexer.AdvanceToken | lexer/lexer.go:69-131 | the token returned and the new position are one Scan step from the old position, and the cursor invariant is kept |
| LexerProperties.ScanEofIffNul | lexer/lexer.go:113-115 | a step yields EOF exactly when the byte after the white space is 0, and then with the empty literal |
| LexerProperties.ScanLiteralNotSpace | lexer/lexer.go:71 | no token literal starts with white space |
| LexerProperties.ScanLiteralNonEmpty | lexer/lexer.go:69-131 | every non-EOF token has a non-empty literal |
| LexerProperties.ScanOperators | lexer/lexer.go:73-108 | "==" is EQ and "!=" is NOT_EQ, each consuming two bytes; a lone "=" is EQUALS and a lone "!" is BANG, each consuming one |
| LexerProperties.ScanPunctuation | lexer/lexer.go:81-112 | each one-byte punctuation byte gives its own type with that byte as the literal, consuming one byte |
| LexerProperties.ScanIdentifier | lexer/lexer.go:117-120 | a letter starts the maximal letter run as the literal, typed by the keyword lookup |
| LexerProperties.ScanNumber | lexer/lexer.go:121-124 | a digit starts the maximal digit run, typed INT |
| LexerProperties.ScanIllegal | lexer/lexer.go:125-129 | a byte no rule recognises is ILLEGAL with Go's string of that byte, consuming one byte |
| LexerProperties.ScanSkipsOnlySpace | lexer/lexer.go:54-58 | the bytes skipped before a token are exactly white space |
| LexerProperties.EofForever | lexer/lexer.go:113-115 | once the cursor is at or past the end, every further step yields EOF again |
| LexerProperties.AllTokensEndsWithEof | lexer/lexer.go:113-115 | the stream of a lexer within the input ends with the final EOF |
| LexerProperties.NulFreeEofLast | lexer/lexer.go:113-115 | in input without byte 0, EOF occurs only as the last token |
| LexerProperties.ScanAtLiteral | lexer/lexer.go:72-129 | a token's literal is the encoding of the bytes it consumes |
| LexerProperties.LiteralsFrom | lexer/lexer.go:69-131 | from any cursor, the literals of the rest of the stream are the encoded remaining input without white space |
| LexerProperties.LiteralsPreserveInput | lexer/lexer.go:69-131 | for NUL-free input, the concatenated literals are the input without white space, as Go strings of its bytes |
| LexerProperties.LiteralsPreserveAsciiInput | lexer/lexer.go:69-131 | for NUL-free ASCII input, the concatenated literals are exactly the input without white space |
| LexerProperties.NonAsciiIllegal | lexer/lexer.go:125-126 | the byte 0xE9 lexes as ILLEGAL with a two-byte literal |
| LexerProperties.IdentifierThenNumber | lexer/lexer.go:117-124 | "a1" lexes as IDENT "a", INT "1", EOF |
| LexerProperties.EmbeddedNul | lexer/lexer.go:113-115 | "a\0b" lexes as IDENT "a", EOF, IDENT "b", EOF |
| LexerProperties.LexLetStatement | lexer/lexer.go:69-131 | "let x = 5;" lexes as LET, IDENT, EQUALS, INT, SEMICOLON, EOF with their literals |
| LexerProperties.LexEqual | lexer/lexer.go:73-77 | "10 == 10;" lexes as INT, EQ, INT, SEMICOLON, EOF |
| LexerProperties.LexNotEqual | lexer/lexer.go:101-105 | "10 != 9;" lexes as INT, NOT_EQ, INT, SEMICOLON, EOF |
| Precedences.Level | parser/parser.go:10-19 | the precedence levels are 1 to 7, LOWEST first and CALL last |
| Precedences.LevelsOrdered | parser/parser.go:10-19 | the seven levels are strictly increasing in declaration order, LOWEST < EQUALS < LESSGREATER < SUM < PRODUCT < PREFIX < CALL |
| Parser.Shift | parser/parser.go:44-47 | nextToken on the window: the tokens in view lose their first, and EOF comes in once the lexer's stream is spent |
| Parser.ShiftMeasure | parser/parser.go:44-47 | a shift never increases the window measure, and decreases it strictly exactly when the window is not exhausted; an exhausted window stays exhausted |
| Parser.SkipToSemicolon | parser/parser.go:91-93 | when the skip loop ends, the current token is SEMICOLON, and the window has not grown |
| Parser.LetOutcome | parser/parser.go:78-96 | parseLetStatement never grows the window and, from a non-EOF token, stops on a non-EOF token |
| Parser.ReturnOutcome | parser/parser.go:98-106 | parseReturnStatement stops on a SEMICOLON, the window not grown |
| Parser.StatementOutcome | parser/parser.go:129-138 | ParseStatement never grows the window, stops on a non-EOF token when it starts on one, and yields only nil, a nil let or a well-formed let or return |
| Parser.ProgramFrom | parser/parser.go:150-163 | the program loop only appends to the statements already collected, and only well-formed entries |
| Parser.InitialWindowShifts | parser/parser.go:48-51 | New's two nextToken calls put the lexer's first two tokens in view |
| Parser.Parser.New | parser/parser.go:48-55 | current and peek are the lexer's first and second tokens; the errors and the prefix table are empty |
| Parser.Parser.NextToken | parser/parser.go:44-47 | the current token becomes the old peek and the peek becomes the lexer's next token; errors and table unchanged |
| Parser.Parser.ParseIdentifier | parser/parser.go:57-59 | an identifier built from the current token and its literal |
| Parser.Parser.CurTokenIs | parser/parser.go:61-63 | true exactly when the first token in view has the type |
| Parser.Parser.PeekTokenIs | parser/parser.go:65-67 | true exactly when the second token in view has the type |
| Parser.Parser.ExpectPeek | parser/parser.go:69-76 | true exactly when the peek has the type, and then one shift; on false nothing changes and no error is recorded |
| Parser.Parser.ParseLetStatement | parser/parser.go:78-96 | returns, and moves the window, as LetOutcome says, and runs for ever exactly when it does |
| Parser.Parser.ParseReturnStatement | parser/parser.go:98-106 | returns, and moves the window, as ReturnOutcome says, and runs for ever exactly when it does |
| Parser.Parser.ParseExpression | parser/parser.go:108-115 | the prefix table lookup on the current token, nil when it is absent |
| Parser.Parser.ParseExpressionStatement | parser/parser.go:117-127 | the statement and the new window are as ExpressionStatementOutcome says |
| Parser.Parser.ParseStatement | parser/parser.go:129-138 | returns, and moves the window, as StatementOutcome says, and runs for ever exactly when it does |
| Parser.Parser.PeekErrors | parser/parser.go:144-148 | appends one error naming the expected and the peeked type, and changes nothing else |
| Parser.Parser.ParseProgram | parser/parser.go:150-163 | the result is ProgramOutcome of the window it starts from, and it returns standing on EOF |
| Parser.ParseSource | parser/parser.go:140-148 | lexing and parsing a string is Parse of the lexer's stream, and the list Errors returns afterwards is empty |
| ParserProperties.ShiftOccursFrom | parser/parser.go:44-47 | after a shift a non-EOF token is seen from position k exactly when it was seen from k + 1 before |
| ParserProperties.ShiftsOccurs | parser/parser.go:44-47 | after k shifts a non-EOF token is ahead exactly when it was ahead from position k |
| ParserProperties.SkipReturnsIff | parser/parser.go:91-93 | the skip loop ends exactly when a SEMICOLON lies ahead |
| ParserProperties.SkipToFirstSemicolon | parser/parser.go:91-93 | the skip loop stops at the first SEMICOLON ahead |
| ParserProperties.LetOutcomeCases | parser/parser.go:78-96 | nil with no move when no IDENT follows LET; nil after one step when no EQ follows the IDENT; otherwise ends exactly when a SEMICOLON lies ahead; a built statement is named by the identifier's literal and stands on SEMICOLON |
| ParserProperties.ReturnOutcomeCases | parser/parser.go:98-106 | parseReturnStatement ends exactly when a SEMICOLON follows RETURN, keeping the RETURN token and standing on the SEMICOLON |
| ParserProperties.StatementOutcomeNil | parser/parser.go:129-138 | ParseStatement yields nil and moves nothing exactly for tokens other than LET and RETURN |
| ParserProperties.StatementOutcomeLet | parser/parser.go:129-138 | a nil let is passed on as a non-nil entry, and ParseStatement runs for ever exactly when the let does |
| ParserProperties.ExpressionOutcomeTable | parser/parser.go:108-115 | parseExpression finds a function exactly for types in the table, which builds the identifier; the empty table yields nil |
| ParserProperties.ProgramStepDecreases | parser/parser.go:154-160 | each loop iteration that returns strictly decreases the window measure |
| ParserProperties.ProgramWithoutStatements | parser/parser.go:150-163 | with no LET or RETURN ahead, ParseProgram adds nothing and ends |
| ParserProperties.ProgramStep | parser/parser.go:154-160 | one iteration appends the statement (unless it is nil) and continues after one shift |
| ParserProperties.ProgramSkipsToken | parser/parser.go:154-160 | a token other than LET, RETURN or EOF is passed over with nothing appended |
| ParserProperties.ParseLetAssign | parser/parser.go:78-96 | the tokens of "let x = 5;" parse to a program with one nil let entry |
| ParserProperties.ParseSourceLetAssign | parser/parser.go:78-96 | lexing and parsing "let x = 5;" gives a program with one nil let entry |
| ParserProperties.ParseLetEqual | parser/parser.go:78-96 | the tokens of "let x == 5;" parse to one let statement named x |
| ParserProperties.ParseReturnUnterminated | parser/parser.go:98-106 | "return 5" with no semicolon runs for ever |

## Left out

- shell/shell.go: the interactive loop reads stdin and prints tokens. It is I/O around `NewLex` and `AdvanceToken`, and is not part of this model.
- tokens/token.go: an older duplicate set of constants that the modelled code does not import. It is not part of this model.
- The tree package is not part of this model. `tree.dfy` defines only the nodes the parser builds.
- The precedence-climbing loop, infix operators and the other expression forms: the code has none of them. Precedences are an ordered enumeration only.
- `registerPrefix`, `registerInfix` and the infix table:
  - parser/parser.go:53 does not type-check, because `parseIdentifier` is not an infix function and the infix map is nil. The infix table is therefore treated as absent.
  - The prefix table is modelled as a map to a one-constructor datatype naming `parseIdentifier`. It stays empty, as in `New`.
- Parser.Parser.PeekErrors: the `fmt.Sprintf` message text is not modelled. The error is recorded as an abstract value holding the expected and the peeked type.
- Parser.Parser.New: Go's zero-value `Token` before the first `nextToken` is modelled as a placeholder token. Both `nextToken` calls overwrite it.
- Lexer.Lexer.Advance: positions are unbounded integers, so Go's `int` overflow is not modelled. The only way to reach it is the endless skip loop, which the model treats as divergence.
- Parser.Parser.ParseLetStatement and Parser.Parser.ParseReturnStatement:
  - A run that never ends is reported as `Diverges`, at the first point where the window is exhausted.
  - The Go loop would spin there without end instead.
- The FLOAT token type is declared but the lexer never produces it. It is in the token table only.
- Concurrency: the source defines none.
