/** The binding strengths of the expression parser. */
module Precedences {
  /** The precedence levels, lowest first. */
  datatype Precedence = LOWEST | EQUALS | LESSGREATER | SUM | PRODUCT | PREFIX | CALL

  /** The value of each Go constant: iota skips 0, so the levels run from 1 to 7 in order. */
  function Level(p: Precedence): (n: nat)
    ensures 1 <= n <= 7
    ensures n == 1 <==> p == LOWEST
    ensures n == 7 <==> p == CALL
  {
    match p
    case LOWEST => 1
    case EQUALS => 2
    case LESSGREATER => 3
    case SUM => 4
    case PRODUCT => 5
    case PREFIX => 6
    case CALL => 7
  }

  /** The levels are strictly ordered as declared, so no two of them share a value. */
  lemma LevelsOrdered()
    ensures Level(LOWEST) < Level(EQUALS) < Level(LESSGREATER) < Level(SUM)
            < Level(PRODUCT) < Level(PREFIX) < Level(CALL)
  {
  }
}

/**
 * The statement parser: a two-token window over the lexer, which parses let and return
 * statements and collects them into a program.
 *
 * The pure functions at the top specify the parser on an abstract window (the current
 * token, the peeked token and the tokens still to come); the class Parser is the state
 * machine of the Go program, and each of its methods is proved against them.
 */
module Parser {
  import opened Wrappers
  import opened Bytes
  import opened Token
  import opened Lexer
  import opened Tree
  import Precedences

  /** An entry of the prefix table. parseIdentifier is the only prefix function there is. */
  datatype PrefixParseFn = ParseIdentifierFn

  /** A recorded error: the token type that was expected next and the one found instead. */
  datatype ParseError = PeekError(expected: TokenType, got: TokenType)

  /**
   * What the parser sees: the current token, the peeked token, and the tokens the lexer
   * has yet to yield, after which it yields EOF for ever.
   */
  datatype Window = Window(cur: Token, peek: Token, rest: seq<Token>)

  /**
   * One nextToken: the peeked token becomes current and the next token is peeked. The
   * tokens in view lose their first, and EOF comes in once the lexer's stream is spent.
   */
  function Shift(w: Window): (r: Window)
    ensures Ahead(r) == Ahead(w)[1..] + (if w.rest == [] then [EofToken] else [])
  {
    Window(w.peek, StreamAt(w.rest, 0), StreamAfter(w.rest, 1))
  }

  /** The tokens in view, in order. */
  function Ahead(w: Window): seq<Token> {
    [w.cur, w.peek] + w.rest
  }

  /** A window that Shift can never change the types of again: EOF, EOF, and nothing after. */
  predicate Exhausted(w: Window) {
    w.cur.Type == EOF && w.peek.Type == EOF && w.rest == []
  }

  /** A measure that no Shift increases and every Shift of a window not exhausted decreases. */
  function Measure(w: Window): nat {
    4 * |w.rest| + (if w.peek.Type != EOF then 2 else 0) + (if w.cur.Type != EOF then 1 else 0)
  }

  lemma ShiftMeasure(w: Window)
    ensures Measure(Shift(w)) <= Measure(w)
    ensures !Exhausted(w) <==> Measure(Shift(w)) < Measure(w)
    ensures Exhausted(w) ==> Exhausted(Shift(w))
  {
    if w.rest != [] {
      assert |StreamAfter(w.rest, 1)| == |w.rest| - 1;
    }
  }

  /**
   * The loop `for !curTokenIs(SEMICOLON) { nextToken() }`: it stops on the first SEMICOLON,
   * and runs for ever once the window is exhausted without one.
   */
  function SkipToSemicolon(w: Window): (r: Run<Window>)
    decreases Measure(w)
    ensures r.Returns? ==> r.value.cur.Type == SEMICOLON && Measure(r.value) <= Measure(w)
  {
    if w.cur.Type == SEMICOLON then Returns(w)
    else if Exhausted(w) then Diverges
    else
      ShiftMeasure(w);
      SkipToSemicolon(Shift(w))
  }

  /**
   * parseLetStatement: the peeked token must be IDENT and the one after it EQ ("=="),
   * else the result is nil (None) with the window advanced as far as the checks went;
   * then the statement is built and the tokens up to the next SEMICOLON are skipped.
   */
  function LetOutcome(w: Window): (r: Run<(Option<Statement>, Window)>)
    ensures r.Returns? ==> Measure(r.value.1) <= Measure(w)
    ensures r.Returns? && w.cur.Type != EOF ==> r.value.1.cur.Type != EOF
  {
    var tok := w.cur;
    if w.peek.Type != IDENT then Returns((None, w))
    else
      var w1 := Shift(w);
      ShiftMeasure(w);
      var name := Identifier(w1.cur, w1.cur.Literal);
      if w1.peek.Type != EQ then Returns((None, w1))
      else
        ShiftMeasure(w1);
        match SkipToSemicolon(Shift(w1))
        case Diverges => Diverges
        case Returns(w2) => Returns((Some(LetStatement(tok, name)), w2))
  }

  /** parseReturnStatement: keep the current token, step past it, skip to the next SEMICOLON. */
  function ReturnOutcome(w: Window): (r: Run<(Statement, Window)>)
    ensures r.Returns? ==> Measure(r.value.1) <= Measure(w) && r.value.1.cur.Type == SEMICOLON
  {
    ShiftMeasure(w);
    match SkipToSemicolon(Shift(w))
    case Diverges => Diverges
    case Returns(w2) => Returns((ReturnStatement(w.cur), w2))
  }

  /** The statement values a program can hold: a nil let, or a let or return node as parsed. */
  predicate Admissible(st: StatementValue) {
    match st
    case NilStatement => false
    case NilLetStatement => true
    case Stmt(LetStatement(tok, name)) =>
      tok.Type == LET && name.token.Type == IDENT && name.value == name.token.Literal
    case Stmt(ReturnStatement(tok)) => tok.Type == RETURN
    case Stmt(ExpressionStatement(_, _)) => false
  }

  /**
   * ParseStatement: a let on LET, a return on RETURN, and the nil interface on anything
   * else. A failed let is a nil *LetStatement, which is not the nil interface.
   */
  function StatementOutcome(w: Window): (r: Run<(StatementValue, Window)>)
    ensures r.Returns? ==> Measure(r.value.1) <= Measure(w)
    ensures r.Returns? && w.cur.Type != EOF ==> r.value.1.cur.Type != EOF
    ensures r.Returns? ==> r.value.0 == NilStatement || Admissible(r.value.0)
  {
    match w.cur.Type
    case LET =>
      (match LetOutcome(w)
       case Diverges => Diverges
       case Returns((None, w1)) => Returns((NilLetStatement, w1))
       case Returns((Some(s), w1)) => Returns((Stmt(s), w1)))
    case RETURN =>
      (match ReturnOutcome(w)
       case Diverges => Diverges
       case Returns((s, w1)) => Returns((Stmt(s), w1)))
    case _ => Returns((NilStatement, w))
  }

  /** parseExpression: the prefix function registered for the current token's type, if any. */
  function ExpressionOutcome(table: map<TokenType, PrefixParseFn>, cur: Token): Option<Expression> {
    if cur.Type in table then
      match table[cur.Type]
      case ParseIdentifierFn => Some(Ident(Identifier(cur, cur.Literal)))
    else None
  }

  /** parseExpressionStatement: the expression at the current token, then past a peeked SEMICOLON. */
  function ExpressionStatementOutcome(table: map<TokenType, PrefixParseFn>, w: Window): (Statement, Window) {
    (ExpressionStatement(w.cur, ExpressionOutcome(table, w.cur)),
     if w.peek.Type == SEMICOLON then Shift(w) else w)
  }

  /** ParseProgram's append: the nil interface is dropped, every other value is kept. */
  function Append(acc: seq<StatementValue>, st: StatementValue): seq<StatementValue> {
    if st == NilStatement then acc else acc + [st]
  }

  /**
   * The loop of ParseProgram from window w with the statements acc collected so far:
   * until the current token is EOF, parse a statement, keep it unless it is nil, and step.
   */
  function ProgramFrom(w: Window, acc: seq<StatementValue>): (r: Run<seq<StatementValue>>)
    decreases Measure(w)
    ensures r.Returns? ==> acc <= r.value
    ensures r.Returns? ==> forall i :: |acc| <= i < |r.value| ==> Admissible(r.value[i])
  {
    if w.cur.Type == EOF then Returns(acc)
    else
      match StatementOutcome(w)
      case Diverges => Diverges
      case Returns((st, w1)) =>
        ShiftMeasure(w1);
        ProgramFrom(Shift(w1), Append(acc, st))
  }

  /** What ParseProgram makes of window w. */
  function ProgramOutcome(w: Window): Run<Program> {
    match ProgramFrom(w, [])
    case Diverges => Diverges
    case Returns(s) => Returns(Program(s))
  }

  /** The window of a new parser over a lexer whose stream is ts: its first two tokens in view. */
  function InitialWindow(ts: seq<Token>): Window {
    Window(StreamAt(ts, 0), StreamAt(ts, 1), StreamAfter(ts, 2))
  }

  /** Two Shifts from the window before New's two nextToken calls give the initial window. */
  lemma InitialWindowShifts(w: Window)
    ensures Shift(Shift(w)) == InitialWindow(w.rest)
  {
    if |w.rest| > 1 {
      assert w.rest[1..][1..] == w.rest[2..];
    }
  }

  /** What a fresh parser produces on the token stream ts. */
  function Parse(ts: seq<Token>): Run<Program> {
    ProgramOutcome(InitialWindow(ts))
  }

  /** The parser state: its lexer, the two-token window, the error list and the prefix table. */
  class Parser {
    const l: Lexer
    var currToken: Token
    var peekedToken: Token
    var errors: seq<ParseError>
    var prefixParseFns: map<TokenType, PrefixParseFn>

    /** The window this parser stands at. */
    ghost function Win(): Window
      reads this, l
      requires l.Valid()
    {
      Window(currToken, peekedToken, l.Pending())
    }

    /**
     * A parser over l with the lexer's first two tokens in view, no errors and an empty
     * prefix table. The Go fields start as zero values; the placeholder token here is
     * overwritten by the two nextToken calls.
     */
    constructor New(l: Lexer)
      requires l.Valid()
      modifies l
      ensures this.l == l && l.Valid()
      ensures Win() == InitialWindow(old(l.Pending()))
      ensures errors == [] && prefixParseFns == map[]
    {
      this.l := l;
      currToken := Token(ILLEGAL, []);
      peekedToken := Token(ILLEGAL, []);
      errors := [];
      prefixParseFns := map[];
      new;
      ghost var w := Win();
      NextToken();
      NextToken();
      InitialWindowShifts(w);
    }

    /** The current token becomes the old peeked one, and the lexer's next token is peeked. */
    method NextToken()
      requires l.Valid()
      modifies this, l
      ensures l.Valid()
      ensures Win() == Shift(old(Win()))
      ensures errors == old(errors) && prefixParseFns == old(prefixParseFns)
    {
      ghost var pos: nat := l.position;
      currToken := peekedToken;
      peekedToken := l.AdvanceToken();
      AllTokensStep(l.input, pos);
    }

    /** The prefix function for an identifier: the current token and its literal as the name. */
    function ParseIdentifier(): (e: Expression)
      reads this
      ensures e.id.token == currToken && e.id.value == e.id.token.Literal
    {
      Ident(Identifier(currToken, currToken.Literal))
    }

    /** Whether the current token, the first in view, has type t. */
    predicate CurTokenIs(t: TokenType): (b: bool)
      reads this, l
      ensures l.Valid() ==> (b <==> Ahead(Win())[0].Type == t)
    {
      currToken.Type == t
    }

    /** Whether the peeked token, the second in view, has type t. */
    predicate PeekTokenIs(t: TokenType): (b: bool)
      reads this, l
      ensures l.Valid() ==> (b <==> Ahead(Win())[1].Type == t)
    {
      peekedToken.Type == t
    }

    /** Advances once, and answers true, exactly when the peeked token has type t. */
    method ExpectPeek(t: TokenType) returns (ok: bool)
      requires l.Valid()
      modifies this, l
      ensures l.Valid()
      ensures ok <==> old(peekedToken.Type) == t
      ensures ok ==> Win() == Shift(old(Win()))
      ensures !ok ==> unchanged(this) && unchanged(l)
      ensures errors == old(errors) && prefixParseFns == old(prefixParseFns)
    {
      if PeekTokenIs(t) {
        NextToken();
        return true;
      } else {
        return false;
      }
    }

    /** parseLetStatement, proved against LetOutcome; Diverges stands for the loop that never ends. */
    method ParseLetStatement() returns (r: Run<Option<Statement>>)
      requires l.Valid()
      modifies this, l
      ensures l.Valid()
      ensures r.Diverges? <==> LetOutcome(old(Win())).Diverges?
      ensures r.Returns? ==> (r.value, Win()) == LetOutcome(old(Win())).value
      ensures errors == old(errors) && prefixParseFns == old(prefixParseFns)
    {
      var tok := currToken;
      var ok := ExpectPeek(IDENT);
      if !ok {
        return Returns(None);
      }
      var name := Identifier(currToken, currToken.Literal);
      ok := ExpectPeek(EQ);
      if !ok {
        return Returns(None);
      }
      ghost var w2 := Win();
      while !CurTokenIs(SEMICOLON)
        invariant l.Valid()
        invariant SkipToSemicolon(Win()) == SkipToSemicolon(w2)
        invariant errors == old(errors) && prefixParseFns == old(prefixParseFns)
        decreases Measure(Win())
      {
        if CurTokenIs(EOF) && PeekTokenIs(EOF) && l.position > |l.input| {
          return Diverges;
        }
        ShiftMeasure(Win());
        NextToken();
      }
      assert SkipToSemicolon(w2) == Returns(Win());
      return Returns(Some(LetStatement(tok, name)));
    }

    /** parseReturnStatement, proved against ReturnOutcome. */
    method ParseReturnStatement() returns (r: Run<Statement>)
      requires l.Valid()
      modifies this, l
      ensures l.Valid()
      ensures r.Diverges? <==> ReturnOutcome(old(Win())).Diverges?
      ensures r.Returns? ==> (r.value, Win()) == ReturnOutcome(old(Win())).value
      ensures errors == old(errors) && prefixParseFns == old(prefixParseFns)
    {
      var st := ReturnStatement(currToken);
      NextToken();
      ghost var w1 := Win();
      while !CurTokenIs(SEMICOLON)
        invariant l.Valid()
        invariant SkipToSemicolon(Win()) == SkipToSemicolon(w1)
        invariant errors == old(errors) && prefixParseFns == old(prefixParseFns)
        decreases Measure(Win())
      {
        if CurTokenIs(EOF) && PeekTokenIs(EOF) && l.position > |l.input| {
          return Diverges;
        }
        ShiftMeasure(Win());
        NextToken();
      }
      assert SkipToSemicolon(w1) == Returns(Win());
      return Returns(st);
    }

    /** parseExpression: runs the prefix function for the current token's type, if one is registered. */
    method ParseExpression(precedence: Precedences.Precedence) returns (e: Option<Expression>)
      ensures e == ExpressionOutcome(prefixParseFns, currToken)
    {
      if currToken.Type in prefixParseFns {
        match prefixParseFns[currToken.Type] {
          case ParseIdentifierFn =>
            var id := ParseIdentifier();
            e := Some(id);
        }
      } else {
        e := None;
      }
    }

    /** parseExpressionStatement, proved against ExpressionStatementOutcome. */
    method ParseExpressionStatement() returns (st: Statement)
      requires l.Valid()
      modifies this, l
      ensures l.Valid()
      ensures (st, Win()) == ExpressionStatementOutcome(old(prefixParseFns), old(Win()))
      ensures errors == old(errors) && prefixParseFns == old(prefixParseFns)
    {
      var tok := currToken;
      var expression := ParseExpression(Precedences.LOWEST);
      st := ExpressionStatement(tok, expression);
      if PeekTokenIs(SEMICOLON) {
        NextToken();
      }
    }

    /** ParseStatement, proved against StatementOutcome. */
    method ParseStatement() returns (r: Run<StatementValue>)
      requires l.Valid()
      modifies this, l
      ensures l.Valid()
      ensures r.Diverges? <==> StatementOutcome(old(Win())).Diverges?
      ensures r.Returns? ==> (r.value, Win()) == StatementOutcome(old(Win())).value
      ensures errors == old(errors) && prefixParseFns == old(prefixParseFns)
    {
      match currToken.Type {
        case LET =>
          var letResult := ParseLetStatement();
          match letResult {
            case Diverges => r := Diverges;
            case Returns(None) => r := Returns(NilLetStatement);
            case Returns(Some(s)) => r := Returns(Stmt(s));
          }
        case RETURN =>
          var returnResult := ParseReturnStatement();
          match returnResult {
            case Diverges => r := Diverges;
            case Returns(s) => r := Returns(Stmt(s));
          }
        case _ =>
          r := Returns(NilStatement);
      }
    }

    /** The errors recorded so far. */
    function Errors(): seq<ParseError>
      reads this
    {
      errors
    }

    /** peekErrors: records that type t was expected next. Nothing in the parser calls it. */
    method PeekErrors(t: TokenType)
      modifies this
      ensures errors == old(errors) + [PeekError(t, peekedToken.Type)]
      ensures currToken == old(currToken) && peekedToken == old(peekedToken)
      ensures prefixParseFns == old(prefixParseFns)
    {
      errors := errors + [PeekError(t, peekedToken.Type)];
    }

    /** ParseProgram, proved against ProgramOutcome; it returns standing on EOF. */
    method ParseProgram() returns (r: Run<Program>)
      requires l.Valid()
      modifies this, l
      ensures l.Valid()
      ensures r == ProgramOutcome(old(Win()))
      ensures r.Returns? ==> currToken.Type == EOF
      ensures errors == old(errors) && prefixParseFns == old(prefixParseFns)
    {
      var statements: seq<StatementValue> := [];
      while currToken.Type != EOF
        invariant l.Valid()
        invariant ProgramFrom(Win(), statements) == ProgramFrom(old(Win()), [])
        invariant errors == old(errors) && prefixParseFns == old(prefixParseFns)
        decreases Measure(Win())
      {
        var statement := ParseStatement();
        if statement.Diverges? {
          return Diverges;
        }
        if statement.value != NilStatement {
          statements := statements + [statement.value];
        }
        ShiftMeasure(Win());
        NextToken();
      }
      return Returns(Program(statements));
    }
  }

  /**
   * Lexes and parses s as a caller of the package does: a new lexer, a new parser over it,
   * then ParseProgram. The result is the parse of the lexer's token stream, and no error is
   * ever recorded.
   */
  method ParseSource(s: Bytes) returns (r: Run<Program>, errs: seq<ParseError>)
    ensures r == Parse(AllTokens(s, 0))
    ensures errs == []
  {
    var l := new Lexer.NewLex(s);
    var p := new Parser.New(l);
    r := p.ParseProgram();
    errs := p.Errors();
  }
}
