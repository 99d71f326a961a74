/** The parser's test scenarios, stated over the token streams their inputs denote. */
module ParserExamples {
  import opened Wrappers
  import opened Tokens
  import opened Ast
  import opened Parsing

  /** The tokens of `let <name> = <value>;`. */
  function LetClauseTokens(name: string, value: string): (ts: seq<Token>)
    ensures |ts| == 5 && IsLetRun(ts, 0)
    ensures LetRunStatements(ts, 0) == [Statement.LET(Identifier(name), Identifier(""))]
  {
    [Token(TokenType.LET, "let"), Token(IDENT, name), Token(ASSIGN, "="), Token(INT, value), Token(SEMICOLON, ";")]
  }

  /** The tokens of `return <value>;`. */
  function ReturnClauseTokens(value: string): (ts: seq<Token>)
    ensures |ts| == 3 && IsReturnRun(ts, 0)
    ensures ReturnRunStatements(ts, 0) == [Statement.RETURN(Identifier("return"))]
  {
    [Token(TokenType.RETURN, "return"), Token(INT, value), Token(SEMICOLON, ";")]
  }

  /** `let x = 5; let y = 10; let foobar = 838383;` */
  const LetSource: seq<Token> :=
    LetClauseTokens("x", "5") + LetClauseTokens("y", "10") + LetClauseTokens("foobar", "838383")

  /** `return 5; return 10; return 993322;` */
  const ReturnSource: seq<Token> :=
    ReturnClauseTokens("5") + ReturnClauseTokens("10") + ReturnClauseTokens("993322")

  /** `foobar;` */
  const IdentifierSource: seq<Token> := [Token(IDENT, "foobar"), Token(SEMICOLON, ";")]

  /** `let = 5;` (the identifier is missing) */
  const MissingNameSource: seq<Token> := [
    Token(TokenType.LET, "let"), Token(ASSIGN, "="), Token(INT, "5"), Token(SEMICOLON, ";")]

  /** `let x = 5; let y = 10; let foobar = 838383;` gives three LETs named x, y, foobar, with
      placeholder values, and no errors. */
  lemma LetStatements()
    ensures ParseFrom(LetSource, 0) == Parsed(
      [Statement.LET(Identifier("x"), Identifier("")),
       Statement.LET(Identifier("y"), Identifier("")),
       Statement.LET(Identifier("foobar"), Identifier(""))],
      [], 15)
  {
    var a, b, d := LetClauseTokens("x", "5"), LetClauseTokens("y", "10"), LetClauseTokens("foobar", "838383");
    LetRunAppend(a, b, 0);
    LetRunAppend(a + b, d, 0);
    LetRun(a + b + d, 0);
  }

  /** `return 5; return 10; return 993322;` gives three RETURNs, each holding the literal `return`,
      and no errors. */
  lemma ReturnStatements()
    ensures ParseFrom(ReturnSource, 0) == Parsed(
      [Statement.RETURN(Identifier("return")),
       Statement.RETURN(Identifier("return")),
       Statement.RETURN(Identifier("return"))],
      [], 9)
  {
    var a, b, d := ReturnClauseTokens("5"), ReturnClauseTokens("10"), ReturnClauseTokens("993322");
    ReturnRunAppend(a, b, 0);
    ReturnRunAppend(a + b, d, 0);
    ReturnRun(a + b + d, 0);
  }

  /** One expression statement holding the identifier `foobar`. */
  lemma IdentifierExpression()
    ensures ParseFrom(IdentifierSource, 0) == Parsed([EXPRESSION(Identifier("foobar"))], [], 2)
  {
  }

  /** The malformed LET yields no statement and one error; the loop still reaches EOF. */
  lemma MissingName()
    ensures ParseFrom(MissingNameSource, 0) == Parsed([], [ExpectedNext(IDENT, IDENT)], 4)
  {
    var ts := MissingNameSource;
    assert ParseFrom(ts, 4) == Parsed([], [], 4);
    assert ExpressionStep(ts, 2) == Step(None, 3, []);
    assert ParseFrom(ts, 2) == Parsed([], [], 4);
    assert ExpressionStep(ts, 1) == Step(None, 1, []);
    assert ParseFrom(ts, 1) == Parsed([], [], 4);
    assert LetStep(ts, 0) == Step(None, 0, [ExpectedNext(IDENT, IDENT)]);
  }

  /** The tests' own checks: the statement count, and the LET names read by an exhaustive match. */
  lemma LetTestChecks()
    ensures var s := ParseFrom(LetSource, 0).statements;
      && |s| == 3
      && forall i :: 0 <= i < 3 ==>
           match s[i]
           case LET(Identifier(n), _) => n == ["x", "y", "foobar"][i]
           case _ => false
  {
    LetStatements();
  }
}
