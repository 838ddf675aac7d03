/**
 * The syntax tree the parser builds. Only the node kinds the parser can produce are
 * defined: identifiers, and let, return and expression statements.
 */
module Tree {
  import opened Wrappers
  import opened Bytes
  import opened Token

  /** A name together with the token it was read from. */
  datatype Identifier = Identifier(token: Token, value: Bytes)

  /** An expression. A bare identifier is the only form the prefix table could build. */
  datatype Expression = Ident(id: Identifier)

  /** A statement node: the token it starts with and its parts. */
  datatype Statement =
    | LetStatement(token: Token, name: Identifier)
    | ReturnStatement(token: Token)
    | ExpressionStatement(token: Token, expression: Option<Expression>)

  /**
   * A value of the Go interface type tree.Statement. Besides a real node it can be the
   * nil interface (NilStatement), or an interface that holds a nil *LetStatement
   * (NilLetStatement): the second is not equal to nil in Go, so it ends up in a program.
   */
  datatype StatementValue = NilStatement | NilLetStatement | Stmt(statement: Statement)

  /** A parsed program: its statements in order. */
  datatype Program = Program(statements: seq<StatementValue>)
}
