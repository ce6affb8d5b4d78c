/**
 * The syntax tree the parser builds (lp/ast.py, whose classes are known here
 * only through the constructor calls the parser makes). Every node keeps the
 * token it started at.
 */
module Ast {
  import opened Wrappers
  import opened Tokens

  /** A name and the Ident token it was read from. */
  datatype Identifier = Identifier(token: Token, value: string)

  /** The expressions the parser knows so far: identifiers and integers. */
  datatype Expression =
    | IdentifierExpression(identifier: Identifier)
    | IntegerLiteral(token: Token, value: int)

  /**
   * Statements. The value of a `variable` statement and of a `regresa`
   * statement is never parsed yet, so it is always None; an expression
   * statement may hold no expression when its first token has no prefix rule.
   */
  datatype Statement =
    | LetStatement(token: Token, name: Identifier, value: Option<Expression>)
    | ReturnStatement(token: Token, returnValue: Option<Expression>)
    | ExpressionStatement(token: Token, expression: Option<Expression>)

  datatype Program = Program(statements: seq<Statement>)
}
