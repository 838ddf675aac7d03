/** What the parser promises: the skip loops, each statement form, and the program loop. */
module ParserProperties {
  import opened Wrappers
  import opened Bytes
  import opened Token
  import opened Lexer
  import opened LexerProperties
  import opened Tree
  import opened Parser

  /** A token of type t somewhere in ts at index k or later. */
  predicate OccursFrom(ts: seq<Token>, t: TokenType, k: nat) {
    exists i :: k <= i < |ts| && ts[i].Type == t
  }

  /** k is the index of the first token of type t in ts. */
  predicate FirstOf(ts: seq<Token>, t: TokenType, k: nat) {
    k < |ts| && ts[k].Type == t && forall j :: 0 <= j < k ==> ts[j].Type != t
  }

  /** k nextToken calls. */
  function Shifts(w: Window, k: nat): Window
    decreases k
  {
    if k == 0 then w else Shifts(Shift(w), k - 1)
  }

  /** For a type other than EOF, what is in view from k on after a Shift was in view from k + 1 before. */
  lemma ShiftOccursFrom(w: Window, t: TokenType, k: nat)
    requires t != EOF
    ensures OccursFrom(Ahead(Shift(w)), t, k) <==> OccursFrom(Ahead(w), t, k + 1)
  {
    var a, b := Ahead(w), Ahead(Shift(w));
    if OccursFrom(b, t, k) {
      var i :| k <= i < |b| && b[i].Type == t;
      assert b[i] == a[i + 1];
    }
    if OccursFrom(a, t, k + 1) {
      var i :| k + 1 <= i < |a| && a[i].Type == t;
      assert b[i - 1] == a[i];
    }
  }

  /** After k Shifts a type other than EOF is in view exactly when it was in view from index k. */
  lemma {:induction false} ShiftsOccurs(w: Window, t: TokenType, k: nat)
    requires t != EOF
    ensures OccursFrom(Ahead(Shifts(w, k)), t, 0) <==> OccursFrom(Ahead(w), t, k)
    decreases k
  {
    if k > 0 {
      ShiftsOccurs(Shift(w), t, k - 1);
      ShiftOccursFrom(w, t, k - 1);
    }
  }

  /** The skip loop stops exactly when a SEMICOLON is in view; otherwise it never ends. */
  lemma {:induction false} SkipReturnsIff(w: Window)
    ensures SkipToSemicolon(w).Returns? <==> OccursFrom(Ahead(w), SEMICOLON, 0)
    decreases Measure(w)
  {
    if w.cur.Type == SEMICOLON {
      assert Ahead(w)[0].Type == SEMICOLON;
    } else if Exhausted(w) {
      assert |Ahead(w)| == 2;
    } else {
      ShiftMeasure(w);
      SkipReturnsIff(Shift(w));
      ShiftOccursFrom(w, SEMICOLON, 0);
      if OccursFrom(Ahead(w), SEMICOLON, 0) {
        var i :| 0 <= i < |Ahead(w)| && Ahead(w)[i].Type == SEMICOLON;
        assert i != 0;
      }
    }
  }

  /** The skip loop stops on the first SEMICOLON in view, after one nextToken per token before it. */
  lemma {:induction false} SkipToFirstSemicolon(w: Window, k: nat)
    requires FirstOf(Ahead(w), SEMICOLON, k)
    ensures SkipToSemicolon(w) == Returns(Shifts(w, k))
    decreases k
  {
    if k > 0 {
      assert Ahead(w)[0].Type != SEMICOLON;
        var a, b := Ahead(w), Ahead(Shift(w));
      assert forall i :: 0 <= i < |a| - 1 ==> b[i] == a[i + 1];
      SkipToFirstSemicolon(Shift(w), k - 1);
    }
  }

  /**
   * parseLetStatement: with no IDENT peeked it returns nil and moves nothing; with IDENT
   * but no EQ ("==") after it, nil after one step; with both, it runs for ever unless a
   * SEMICOLON follows the EQ, and then it returns the statement, named by the identifier's
   * literal, standing on that SEMICOLON.
   */
  lemma LetOutcomeCases(w: Window)
    ensures w.peek.Type != IDENT ==> LetOutcome(w) == Returns((None, w))
    ensures w.peek.Type == IDENT && StreamAt(w.rest, 0).Type != EQ ==>
              LetOutcome(w) == Returns((None, Shift(w)))
    ensures w.peek.Type == IDENT && StreamAt(w.rest, 0).Type == EQ ==>
              (LetOutcome(w).Returns? <==> OccursFrom(Ahead(w), SEMICOLON, 3))
    ensures LetOutcome(w).Returns? && LetOutcome(w).value.0.Some? ==>
              w.peek.Type == IDENT && StreamAt(w.rest, 0).Type == EQ
              && LetOutcome(w).value.0 == Some(LetStatement(w.cur, Identifier(w.peek, w.peek.Literal)))
              && LetOutcome(w).value.1.cur.Type == SEMICOLON
  {
    if w.peek.Type == IDENT && StreamAt(w.rest, 0).Type == EQ {
      var w2 := Shift(Shift(w));
      assert Shifts(w, 3) == Shift(w2);
      SkipReturnsIff(Shift(w2));
      ShiftsOccurs(w, SEMICOLON, 3);
    }
  }

  /** parseReturnStatement ends exactly when a SEMICOLON follows the RETURN, keeping its token and standing on it. */
  lemma ReturnOutcomeCases(w: Window)
    ensures ReturnOutcome(w).Returns? <==> OccursFrom(Ahead(w), SEMICOLON, 1)
    ensures ReturnOutcome(w).Returns? ==>
              ReturnOutcome(w).value.0 == ReturnStatement(w.cur)
              && ReturnOutcome(w).value.1.cur.Type == SEMICOLON
  {
    assert Shifts(w, 1) == Shift(w);
    SkipReturnsIff(Shift(w));
    ShiftsOccurs(w, SEMICOLON, 1);
  }

  /** ParseStatement yields the nil interface, and moves nothing, exactly when the current token is neither LET nor RETURN. */
  lemma StatementOutcomeNil(w: Window)
    ensures StatementOutcome(w) == Returns((NilStatement, w)) <==> w.cur.Type != LET && w.cur.Type != RETURN
  {
  }

  /** A failed let is kept as a nil entry: ParseStatement turns LetOutcome's nil into NilLetStatement. */
  lemma StatementOutcomeLet(w: Window)
    requires w.cur.Type == LET
    ensures LetOutcome(w).Returns? && LetOutcome(w).value.0.None? ==>
              StatementOutcome(w) == Returns((NilLetStatement, LetOutcome(w).value.1))
    ensures LetOutcome(w).Diverges? <==> StatementOutcome(w).Diverges?
  {
  }

  /** parseExpression finds a function exactly for the types in the table, and New's table is empty. */
  lemma ExpressionOutcomeTable(table: map<TokenType, PrefixParseFn>, cur: Token)
    ensures ExpressionOutcome(table, cur).Some? <==> cur.Type in table
    ensures ExpressionOutcome(table, cur).Some? ==>
              ExpressionOutcome(table, cur).value == Ident(Identifier(cur, cur.Literal))
    ensures ExpressionOutcome(map[], cur) == None
  {
  }

  /** Every round of the ParseProgram loop that returns brings the measure down. */
  lemma ProgramStepDecreases(w: Window)
    requires w.cur.Type != EOF && StatementOutcome(w).Returns?
    ensures Measure(Shift(StatementOutcome(w).value.1)) < Measure(w)
  {
    ShiftMeasure(StatementOutcome(w).value.1);
  }

  /** With no LET or RETURN token in view the program is empty: nothing is appended. */
  lemma {:induction false} ProgramWithoutStatements(w: Window, acc: seq<StatementValue>)
    requires !OccursFrom(Ahead(w), LET, 0) && !OccursFrom(Ahead(w), RETURN, 0)
    ensures ProgramFrom(w, acc) == Returns(acc)
    decreases Measure(w)
  {
    if w.cur.Type != EOF {
      assert Ahead(w)[0] == w.cur;
      ShiftMeasure(w);
      ShiftOccursFrom(w, LET, 0);
      ShiftOccursFrom(w, RETURN, 0);
      assert !OccursFrom(Ahead(w), LET, 1) && !OccursFrom(Ahead(w), RETURN, 1);
      ProgramWithoutStatements(Shift(w), acc);
    }
  }

  /** One round of the ParseProgram loop: the statement parsed, kept unless nil, then a step. */
  lemma ProgramStep(w: Window, acc: seq<StatementValue>, st: StatementValue, w1: Window)
    requires w.cur.Type != EOF && StatementOutcome(w) == Returns((st, w1))
    ensures ProgramFrom(w, acc) == ProgramFrom(Shift(w1), Append(acc, st))
  {
  }

  /** A round on a token that starts no statement only steps past it. */
  lemma ProgramSkipsToken(w: Window, acc: seq<StatementValue>)
    requires w.cur.Type != EOF && w.cur.Type != LET && w.cur.Type != RETURN
    ensures ProgramFrom(w, acc) == ProgramFrom(Shift(w), acc)
  {
    ProgramStep(w, acc, NilStatement, w);
  }

  /** The tokens of "let x = 5;". */
  function LetAssignTokens(): seq<Token> {
    [Token(LET, "let"), Token(IDENT, "x"), Token(EQUALS, "="), Token(INT, "5"),
     Token(SEMICOLON, ";"), EofToken]
  }

  /**
   * "let x = 5;" parses to a program with one nil entry: the let expects EQ ("==") and
   * finds EQUALS ("="), so it fails, and its typed nil is appended.
   */
  lemma ParseLetAssign(ts: seq<Token>)
    requires ts == LetAssignTokens()
    ensures Parse(ts) == Returns(Program([NilLetStatement]))
  {
    var w := InitialWindow(ts);
    assert w == Window(ts[0], ts[1], ts[2..]);
    var w1 := Shift(w);
    LetOutcomeCases(w);
    ProgramStep(w, [], NilLetStatement, w1);
    var acc := [NilLetStatement];
    var w2 := Shift(w1);
    assert w2 == Window(ts[2], ts[3], ts[4..]);
    ProgramSkipsToken(w2, acc);
    var w3 := Shift(w2);
    assert w3 == Window(ts[3], ts[4], ts[5..]);
    ProgramSkipsToken(w3, acc);
    var w4 := Shift(w3);
    assert w4 == Window(ts[4], ts[5], []);
    ProgramSkipsToken(w4, acc);
    assert Shift(w4).cur == EofToken;
    assert Append([], NilLetStatement) == acc;
    assert ProgramFrom(w, []) == Returns(acc);
  }

  /** The same through the lexer: ParseSource on "let x = 5;" yields the one nil entry. */
  lemma ParseSourceLetAssign(s: Bytes)
    requires s == "let x = 5;"
    ensures Parse(AllTokens(s, 0)) == Returns(Program([NilLetStatement]))
  {
    LexLetStatement(s);
    ParseLetAssign(AllTokens(s, 0));
  }

  /** The tokens of "let x == 5;". */
  function LetEqualTokens(): seq<Token> {
    [Token(LET, "let"), Token(IDENT, "x"), Token(EQ, "=="), Token(INT, "5"),
     Token(SEMICOLON, ";"), EofToken]
  }

  /** "let x == 5;" is the form parseLetStatement accepts: one let statement named x. */
  lemma ParseLetEqual(ts: seq<Token>)
    requires ts == LetEqualTokens()
    ensures Parse(ts) ==
      Returns(Program([Stmt(LetStatement(Token(LET, "let"), Identifier(Token(IDENT, "x"), "x")))]))
  {
    var w := InitialWindow(ts);
    assert w == Window(ts[0], ts[1], ts[2..]);
    var w3 := Shift(Shift(Shift(w)));
    assert w3 == Window(ts[3], ts[4], ts[5..]);
    var w4 := Shift(w3);
    assert w4 == Window(ts[4], ts[5], []);
    assert SkipToSemicolon(w3) == Returns(w4);
    var st := Stmt(LetStatement(Token(LET, "let"), Identifier(Token(IDENT, "x"), "x")));
    assert LetOutcome(w) == Returns((Some(st.statement), w4));
    ProgramStep(w, [], st, w4);
    assert Shift(w4).cur == EofToken;
    assert Append([], st) == [st];
    assert ProgramFrom(w, []) == Returns([st]);
  }

  /** "return 5" has no SEMICOLON, so the skip loop of parseReturnStatement never ends. */
  lemma ParseReturnUnterminated(ts: seq<Token>)
    requires ts == [Token(RETURN, "return"), Token(INT, "5"), EofToken]
    ensures Parse(ts) == Diverges
  {
    var w := InitialWindow(ts);
    assert Ahead(w) == ts + [];
    ReturnOutcomeCases(w);
  }
}
