/** The syntax tree: closed sum types for expressions and statements, and the program. */
module Ast {

  /** The only expression form so far: an identifier. */
  datatype Expression = Identifier(name: string)

  /** A statement: `let <name> = <value>`, `return <value>`, or a bare expression. */
  datatype Statement =
    | LET(name: Expression, value: Expression)
    | RETURN(value: Expression)
    | EXPRESSION(value: Expression)

  /** The statements in source order; no link back to tokens or the lexer. */
  datatype Program = Program(statements: seq<Statement>)

  /** Binding power passed to expression parsing; only the lowest level is used. */
  datatype Priority = LOWEST

  /** Every expression, a LET's name included, is an identifier; and every statement
      is exactly one of the three forms, rebuilt from its own fields. */
  lemma StatementShapes(s: Statement)
    ensures s.LET? ==> s.name.Identifier? && s.value.Identifier? && s == LET(s.name, s.value)
    ensures s.RETURN? ==> s == RETURN(Identifier(s.value.name))
    ensures s.EXPRESSION? ==> s == EXPRESSION(Identifier(s.value.name))
    ensures s.LET? || s.RETURN? || s.EXPRESSION?
  {
  }
}
