/** The parser: a two-token window over a token source, an append-only error list, and
    best-effort recovery at statement granularity.

    The token source is a sequence `ts`; pulling past its end yields `Token(EOF, "")`, as the
    lexer does once its input is exhausted. The first half of the module specifies the parse
    as pure functions over positions in `ts`; the `Parser` class is the imperative parser,
    proved against them. */
module Parsing {
  import opened Wrappers
  import opened Tokens
  import opened Ast

  /** A diagnostic from `peek_error`: the expected category and the category shown as the
      one found. The source formats the expected category into both slots. */
  datatype ParseError = ExpectedNext(expected: TokenType, got: TokenType)

  /** The token the source delivers as its `i`-th pull. */
  function TokenAt(ts: seq<Token>, i: nat): Token {
    if i < |ts| then ts[i] else Token(EOF, "")
  }

  /** The outcome of one statement attempt started with the current token at `c`: the statement
      (if any), the position of the current token afterwards, and the errors recorded. */
  datatype Step = Step(statement: Option<Statement>, last: nat, errors: seq<ParseError>)

  /** The position the semicolon-skipping loops reach from `c`: the first token at or after `c`
      that is not a SEMICOLON. */
  function SkipSemicolons(ts: seq<Token>, c: nat): (r: nat)
    ensures c <= r
    decreases |ts| - c
  {
    if c < |ts| && ts[c].tokenType == SEMICOLON then SkipSemicolons(ts, c + 1) else c
  }

  /** The semicolon-skipping loops pass over SEMICOLONs only, and stop on the first token that is
      not one. */
  lemma {:induction false} SkippedSemicolons(ts: seq<Token>, c: nat)
    ensures var r := SkipSemicolons(ts, c);
      && TokenAt(ts, r).tokenType != SEMICOLON
      && forall k :: c <= k < r ==> TokenAt(ts, k).tokenType == SEMICOLON
    decreases |ts| - c
  {
    if c < |ts| && ts[c].tokenType == SEMICOLON {
      SkippedSemicolons(ts, c + 1);
    }
  }

  /** `let <IDENT> =`: both expectations are checked on the peeked token; the value is a placeholder. */
  function LetStep(ts: seq<Token>, c: nat): Step {
    if TokenAt(ts, c + 1).tokenType != IDENT then
      Step(None, c, [ExpectedNext(IDENT, IDENT)])
    else if TokenAt(ts, c + 2).tokenType != ASSIGN then
      Step(None, c + 1, [ExpectedNext(ASSIGN, ASSIGN)])
    else
      Step(Some(Statement.LET(Identifier(TokenAt(ts, c + 1).literal), Identifier(""))), SkipSemicolons(ts, c + 2), [])
  }

  /** `return`: the RETURN token's own literal is the value; then one advance and the semicolons. */
  function ReturnStep(ts: seq<Token>, c: nat): Step {
    Step(Some(Statement.RETURN(Identifier(TokenAt(ts, c).literal))), SkipSemicolons(ts, c + 1), [])
  }

  /** An expression statement: an identifier when the current token is IDENT, nothing otherwise;
      a peeked SEMICOLON is consumed either way. */
  function ExpressionStep(ts: seq<Token>, c: nat): Step {
    var t := TokenAt(ts, c);
    Step(if t.tokenType == IDENT then Some(EXPRESSION(Identifier(t.literal))) else None,
         if TokenAt(ts, c + 1).tokenType == SEMICOLON then c + 1 else c,
         [])
  }

  /** Dispatch on the current token's category. Every attempt moves forward or stays. */
  function StatementStep(ts: seq<Token>, c: nat): (r: Step)
    ensures c <= r.last
  {
    var t := TokenAt(ts, c).tokenType;
    if t.LET? then LetStep(ts, c)
    else if t.RETURN? then ReturnStep(ts, c)
    else ExpressionStep(ts, c)
  }

  /** Every attempt records at most one error, and never both yields a statement and records an
      error. */
  lemma StatementStepErrors(ts: seq<Token>, c: nat)
    ensures var r := StatementStep(ts, c);
      |r.errors| <= 1 && (r.statement.Some? ==> r.errors == [])
  {
  }

  /** The result of parsing from position `c` up to the EOF that stops the loop at `end`. */
  datatype Parsed = Parsed(statements: seq<Statement>, errors: seq<ParseError>, end: nat)

  /** The `parse_program` loop from position `c`: one statement attempt per iteration, then one
      advance, until the current token is EOF. */
  function ParseFrom(ts: seq<Token>, c: nat): Parsed
    decreases |ts| - c
  {
    if TokenAt(ts, c).tokenType == EOF then
      Parsed([], [], c)
    else
      var st := StatementStep(ts, c);
      var rest := ParseFrom(ts, st.last + 1);
      Parsed((if st.statement.Some? then [st.statement.value] else []) + rest.statements,
             st.errors + rest.errors,
             rest.end)
  }

  /** The loop stops on an EOF at or after `c`. */
  lemma {:induction false} ParseFromEnd(ts: seq<Token>, c: nat)
    ensures var e := ParseFrom(ts, c).end; c <= e && TokenAt(ts, e).tokenType == EOF
    decreases |ts| - c
  {
    if TokenAt(ts, c).tokenType != EOF {
      ParseFromEnd(ts, StatementStep(ts, c).last + 1);
    }
  }

  /** The loop runs at most once per token left before the end of the source, and each iteration
      contributes at most one statement or one error. */
  lemma {:induction false} ParseFromBound(ts: seq<Token>, c: nat)
    ensures var r := ParseFrom(ts, c);
      |r.statements| + |r.errors| <= (if c < |ts| then |ts| - c else 0)
    decreases |ts| - c
  {
    if TokenAt(ts, c).tokenType != EOF {
      StatementStepErrors(ts, c);
      ParseFromBound(ts, StatementStep(ts, c).last + 1);
    }
  }

  /** `parse_let_statement`: with a peeked IDENT and then ASSIGN it yields `LET{name, ""}` and leaves the
      current token on the ASSIGN (its semicolon loop cannot run there); otherwise it yields nothing and
      records exactly one error, for IDENT (window unmoved) or for ASSIGN (current on the IDENT). */
  lemma LetStepOutcome(ts: seq<Token>, c: nat)
    ensures var st := LetStep(ts, c);
      var name := TokenAt(ts, c + 1);
      && (st.statement.Some? <==> name.tokenType == IDENT && TokenAt(ts, c + 2).tokenType == ASSIGN)
      && (st.statement.Some? ==>
            st.statement.value == Statement.LET(Identifier(name.literal), Identifier(""))
            && st.last == c + 2 && TokenAt(ts, st.last).tokenType == ASSIGN && st.errors == [])
      && (name.tokenType != IDENT ==> st.last == c && st.errors == [ExpectedNext(IDENT, IDENT)])
      && (name.tokenType == IDENT && TokenAt(ts, c + 2).tokenType != ASSIGN ==>
            st.last == c + 1 && st.errors == [ExpectedNext(ASSIGN, ASSIGN)])
  {
  }

  /** `parse_return_statement` always yields a RETURN of the current token's own literal, records
      nothing, and stops on the first token after the next one that is not a SEMICOLON. */
  lemma ReturnStepOutcome(ts: seq<Token>, c: nat)
    ensures var st := ReturnStep(ts, c);
      && st.statement == Some(Statement.RETURN(Identifier(TokenAt(ts, c).literal)))
      && st.errors == []
      && c + 1 <= st.last && TokenAt(ts, st.last).tokenType != SEMICOLON
      && forall k :: c + 1 <= k < st.last ==> TokenAt(ts, k).tokenType == SEMICOLON
  {
    SkippedSemicolons(ts, c + 1);
  }

  /** `parse_expression_statement` yields `EXPRESSION(Identifier(literal))` exactly when the current
      token is IDENT, never records an error, and consumes a peeked SEMICOLON in both cases. */
  lemma ExpressionStepOutcome(ts: seq<Token>, c: nat)
    ensures var st := ExpressionStep(ts, c);
      var t := TokenAt(ts, c);
      && (st.statement.Some? <==> t.tokenType == IDENT)
      && (st.statement.Some? ==> st.statement.value == EXPRESSION(Identifier(t.literal)))
      && st.errors == []
      && st.last == (if TokenAt(ts, c + 1).tokenType == SEMICOLON then c + 1 else c)
  {
  }

  /** Errors come only from LET statements: a source with no LET token from `c` on parses without errors. */
  lemma {:induction false} NoLetNoErrors(ts: seq<Token>, c: nat)
    requires forall k :: c <= k < |ts| ==> ts[k].tokenType != TokenType.LET
    ensures ParseFrom(ts, c).errors == []
    decreases |ts| - c
  {
    if TokenAt(ts, c).tokenType != EOF {
      var st := StatementStep(ts, c);
      NoLetNoErrors(ts, st.last + 1);
    }
  }

  /** A token that opens a statement: a LET, a RETURN, or the IDENT an expression starts with. */
  predicate OpensStatement(t: Token) {
    t.tokenType == TokenType.LET || t.tokenType == TokenType.RETURN || t.tokenType == IDENT
  }

  /** A source from `c` on with no token that opens a statement parses to nothing, silently: every
      attempt is an expression statement that finds no identifier. With no EOF in it either, the loop
      runs to the end of the source. */
  lemma {:induction false} NoOpenerNoStatements(ts: seq<Token>, c: nat)
    requires forall k :: c <= k < |ts| ==> !OpensStatement(ts[k])
    ensures ParseFrom(ts, c).statements == [] && ParseFrom(ts, c).errors == []
    ensures c <= |ts| && (forall k :: c <= k < |ts| ==> ts[k].tokenType != EOF) ==> ParseFrom(ts, c).end == |ts|
    decreases |ts| - c
  {
    if TokenAt(ts, c).tokenType != EOF {
      var st := StatementStep(ts, c);
      assert st == ExpressionStep(ts, c);
      assert st.statement == None && st.errors == [] && st.last < |ts|;
      NoOpenerNoStatements(ts, st.last + 1);
    }
  }

  /** Two sources that agree on every position up to `e`. */
  predicate AgreeThrough(ts: seq<Token>, us: seq<Token>, e: nat) {
    forall k :: 0 <= k <= e ==> TokenAt(ts, k) == TokenAt(us, k)
  }

  /** The semicolon-skipping loops read nothing past a position holding a token that is not a SEMICOLON. */
  lemma {:induction false} SkipSemicolonsAgree(ts: seq<Token>, us: seq<Token>, c: nat, e: nat)
    requires c <= e && AgreeThrough(ts, us, e) && TokenAt(ts, e).tokenType != SEMICOLON
    ensures SkipSemicolons(ts, c) == SkipSemicolons(us, c) <= e
    decreases e - c
  {
    assert TokenAt(ts, c) == TokenAt(us, c);
    if TokenAt(ts, c).tokenType == SEMICOLON {
      SkipSemicolonsAgree(ts, us, c + 1, e);
    }
  }

  /** A statement attempt that is not a RETURN, started before an EOF at `e`, reads nothing past `e`
      and stops before it. */
  lemma StepAgrees(ts: seq<Token>, us: seq<Token>, c: nat, e: nat)
    requires c < e && AgreeThrough(ts, us, e) && TokenAt(ts, e).tokenType == EOF
    requires TokenAt(ts, c).tokenType != TokenType.RETURN
    ensures StatementStep(ts, c) == StatementStep(us, c) && StatementStep(ts, c).last < e
  {
    assert TokenAt(ts, c) == TokenAt(us, c) && TokenAt(ts, c + 1) == TokenAt(us, c + 1);
    if TokenAt(ts, c).tokenType == TokenType.LET && TokenAt(ts, c + 1).tokenType == IDENT {
      assert TokenAt(ts, c + 2) == TokenAt(us, c + 2);
      if TokenAt(ts, c + 2).tokenType == ASSIGN {
        SkipSemicolonsAgree(ts, us, c + 2, e);
      }
    }
  }

  /** Without RETURN statements the parse looks at nothing past an EOF: two sources that agree up to an
      EOF at `e`, with no RETURN token before it, parse alike from every `c <= e`. */
  lemma {:induction false} ParseFromAgrees(ts: seq<Token>, us: seq<Token>, c: nat, e: nat)
    requires c <= e && AgreeThrough(ts, us, e) && TokenAt(ts, e).tokenType == EOF
    requires forall k :: c <= k < e ==> TokenAt(ts, k).tokenType != TokenType.RETURN
    ensures ParseFrom(ts, c) == ParseFrom(us, c)
    decreases e - c
  {
    assert TokenAt(ts, c) == TokenAt(us, c);
    if TokenAt(ts, c).tokenType != EOF {
      StepAgrees(ts, us, c, e);
      ParseFromAgrees(ts, us, StatementStep(ts, c).last + 1, e);
    }
  }

  /** A RETURN-free source parses the same with an EOF and any one token after it appended: the shape
      of what the window has pulled when the loop stops on its first EOF. */
  lemma EofThenPeekAgrees(ts: seq<Token>, peek: Token)
    requires forall k :: 0 <= k < |ts| ==> ts[k].tokenType != TokenType.RETURN
    ensures ParseFrom(ts + [Token(EOF, ""), peek], 0) == ParseFrom(ts, 0)
  {
    var us := ts + [Token(EOF, ""), peek];
    forall k | 0 <= k <= |ts|
      ensures TokenAt(ts, k) == TokenAt(us, k)
    {
      if k < |ts| {
        assert us[k] == ts[k];
      }
    }
    ParseFromAgrees(ts, us, 0, |ts|);
  }

  /** `parse_return_statement` can step over an EOF: the semicolon loop stops on it, and the loop's own
      advance then moves past it, so a RETURN right before an EOF lets the parse go on beyond that EOF. */
  lemma ReturnStepsOverEof()
    ensures var ts := [Token(TokenType.RETURN, "return"), Token(EOF, ""), Token(IDENT, "a")];
      ParseFrom(ts, 0) == Parsed([Statement.RETURN(Identifier("return")), EXPRESSION(Identifier("a"))], [], 3)
  {
    var ts := [Token(TokenType.RETURN, "return"), Token(EOF, ""), Token(IDENT, "a")];
    assert StatementStep(ts, 0) == Step(Some(Statement.RETURN(Identifier("return"))), 1, []);
    assert StatementStep(ts, 2) == Step(Some(EXPRESSION(Identifier("a"))), 2, []);
  }

  /** Every recorded error names IDENT or ASSIGN as expected, and (as the source formats it) shows
      the expected category again where the found one belongs. */
  lemma {:induction false} ErrorsNameExpectation(ts: seq<Token>, c: nat)
    ensures forall e :: e in ParseFrom(ts, c).errors ==>
      e.got == e.expected && (e.expected == IDENT || e.expected == ASSIGN)
    decreases |ts| - c
  {
    if TokenAt(ts, c).tokenType != EOF {
      var st := StatementStep(ts, c);
      ErrorsNameExpectation(ts, st.last + 1);
    }
  }

  /** On a source made only of IDENT tokens each followed by a SEMICOLON (`a; b; ...`), the
      program is those identifiers as expression statements, in source order, with no errors. */
  lemma {:induction false} IdentifierStatements(ts: seq<Token>, c: nat)
    requires c % 2 == 0 && |ts| % 2 == 0
    requires forall k :: 0 <= k < |ts| ==> ts[k].tokenType == (if k % 2 == 0 then IDENT else SEMICOLON)
    ensures var p := ParseFrom(ts, c);
      && p.errors == []
      && |p.statements| == (if c < |ts| then (|ts| - c) / 2 else 0)
      && forall i :: 0 <= i < |p.statements| ==> p.statements[i] == EXPRESSION(Identifier(ts[c + 2 * i].literal))
    decreases |ts| - c
  {
    if c < |ts| {
      IdentifierStatements(ts, c + 2);
      var p := ParseFrom(ts, c);
      var rest := ParseFrom(ts, c + 2);
      assert p.statements == [EXPRESSION(Identifier(ts[c].literal))] + rest.statements;
    }
  }

  /** `let <IDENT> = <INT> ;` takes two rounds of the loop and exactly five tokens: the first
      yields the LET, the second skips the INT with the SEMICOLON after it, silently. */
  lemma LetClause(ts: seq<Token>, c: nat)
    requires TokenAt(ts, c).tokenType == TokenType.LET && TokenAt(ts, c + 1).tokenType == IDENT
    requires TokenAt(ts, c + 2).tokenType == ASSIGN && TokenAt(ts, c + 3).tokenType == INT
    requires TokenAt(ts, c + 4).tokenType == SEMICOLON
    ensures var rest := ParseFrom(ts, c + 5);
      ParseFrom(ts, c) == Parsed([Statement.LET(Identifier(TokenAt(ts, c + 1).literal), Identifier(""))] + rest.statements,
                                 rest.errors, rest.end)
  {
    var rest := ParseFrom(ts, c + 5);
    assert SkipSemicolons(ts, c + 2) == c + 2;
    assert StatementStep(ts, c) ==
      Step(Some(Statement.LET(Identifier(TokenAt(ts, c + 1).literal), Identifier(""))), c + 2, []);
    assert StatementStep(ts, c + 3) == Step(None, c + 4, []);
    assert ParseFrom(ts, c + 3) == rest;
  }

  /** `return <INT> ;` takes two rounds of the loop and exactly three tokens: the first yields the
      RETURN and stops on the INT, the second is the SEMICOLON, which yields nothing. */
  lemma ReturnClause(ts: seq<Token>, c: nat)
    requires TokenAt(ts, c).tokenType == TokenType.RETURN && TokenAt(ts, c + 1).tokenType == INT
    requires TokenAt(ts, c + 2).tokenType == SEMICOLON && TokenAt(ts, c + 3).tokenType != SEMICOLON
    ensures var rest := ParseFrom(ts, c + 3);
      ParseFrom(ts, c) == Parsed([Statement.RETURN(Identifier(TokenAt(ts, c).literal))] + rest.statements,
                                 rest.errors, rest.end)
  {
    var rest := ParseFrom(ts, c + 3);
    assert SkipSemicolons(ts, c + 1) == c + 1;
    assert StatementStep(ts, c) == Step(Some(Statement.RETURN(Identifier(TokenAt(ts, c).literal))), c + 1, []);
    assert StatementStep(ts, c + 2) == Step(None, c + 2, []);
    assert ParseFrom(ts, c + 2) == rest;
  }

  /** From `c` to the end, the source is a run of `let <IDENT> = <INT> ;` clauses. */
  predicate IsLetRun(ts: seq<Token>, c: nat)
    decreases |ts| - c
  {
    c == |ts| ||
    (c + 5 <= |ts| && ts[c].tokenType == TokenType.LET && ts[c + 1].tokenType == IDENT &&
     ts[c + 2].tokenType == ASSIGN && ts[c + 3].tokenType == INT && ts[c + 4].tokenType == SEMICOLON &&
     IsLetRun(ts, c + 5))
  }

  /** The statements a run of LET clauses stands for: one LET per clause, named by the clause's
      identifier, with the placeholder value. */
  function LetRunStatements(ts: seq<Token>, c: nat): seq<Statement>
    requires IsLetRun(ts, c)
    decreases |ts| - c
  {
    if c == |ts| then []
    else [Statement.LET(Identifier(ts[c + 1].literal), Identifier(""))] + LetRunStatements(ts, c + 5)
  }

  /** One statement per five tokens; the `i`-th is named by the `i`-th clause's identifier. */
  lemma {:induction false} LetRunStatementsShape(ts: seq<Token>, c: nat)
    requires IsLetRun(ts, c)
    ensures var s := LetRunStatements(ts, c);
      && 5 * |s| == |ts| - c
      && forall i :: 0 <= i < |s| ==> s[i] == Statement.LET(Identifier(ts[c + 5 * i + 1].literal), Identifier(""))
    decreases |ts| - c
  {
    if c < |ts| {
      LetRunStatementsShape(ts, c + 5);
      var s, rest := LetRunStatements(ts, c), LetRunStatements(ts, c + 5);
      forall i | 0 <= i < |s|
        ensures s[i] == Statement.LET(Identifier(ts[c + 5 * i + 1].literal), Identifier(""))
      {
        if i > 0 {
          var j := i - 1;
          assert s[i] == rest[j];
          assert c + 5 + 5 * j + 1 == c + 5 * i + 1;
        }
      }
    }
  }

  /** A run is a run wherever it is placed: after `pre` it starts `|pre|` tokens later and stands
      for the same statements. */
  lemma {:induction false} LetRunShift(pre: seq<Token>, ts: seq<Token>, c: nat)
    requires IsLetRun(ts, c)
    ensures IsLetRun(pre + ts, |pre| + c) && LetRunStatements(pre + ts, |pre| + c) == LetRunStatements(ts, c)
    decreases |ts| - c
  {
    if c < |ts| {
      LetRunShift(pre, ts, c + 5);
      var u := pre + ts;
      assert u[|pre| + c] == ts[c] && u[|pre| + c + 1] == ts[c + 1] && u[|pre| + c + 2] == ts[c + 2];
      assert u[|pre| + c + 3] == ts[c + 3] && u[|pre| + c + 4] == ts[c + 4];
    }
  }

  /** Two runs one after the other are one run, standing for the statements of both in order. */
  lemma {:induction false} LetRunAppend(a: seq<Token>, b: seq<Token>, c: nat)
    requires IsLetRun(a, c) && IsLetRun(b, 0)
    ensures IsLetRun(a + b, c) && LetRunStatements(a + b, c) == LetRunStatements(a, c) + LetRunStatements(b, 0)
    decreases |a| - c
  {
    if c == |a| {
      LetRunShift(a, b, 0);
    } else {
      LetRunAppend(a, b, c + 5);
      var u := a + b;
      assert u[c] == a[c] && u[c + 1] == a[c + 1] && u[c + 2] == a[c + 2];
      assert u[c + 3] == a[c + 3] && u[c + 4] == a[c + 4];
      ConcatAssociative([Statement.LET(Identifier(a[c + 1].literal), Identifier(""))],
                        LetRunStatements(a, c + 5), LetRunStatements(b, 0));
    }
  }

  /** A run of `let <IDENT> = <INT> ;` clauses parses to the statements it stands for, in source
      order, with no errors, the loop stopping at the end of the source. */
  lemma {:induction false} LetRun(ts: seq<Token>, c: nat)
    requires IsLetRun(ts, c)
    ensures ParseFrom(ts, c) == Parsed(LetRunStatements(ts, c), [], |ts|)
    decreases |ts| - c
  {
    if c < |ts| {
      LetClause(ts, c);
      LetRun(ts, c + 5);
    }
  }

  /** From `c` to the end, the source is a run of `return <INT> ;` clauses. */
  predicate IsReturnRun(ts: seq<Token>, c: nat)
    decreases |ts| - c
  {
    c == |ts| ||
    (c + 3 <= |ts| && ts[c].tokenType == TokenType.RETURN && ts[c + 1].tokenType == INT &&
     ts[c + 2].tokenType == SEMICOLON && IsReturnRun(ts, c + 3))
  }

  /** The statements a run of RETURN clauses stands for: one RETURN per clause, holding the
      clause's RETURN literal. */
  function ReturnRunStatements(ts: seq<Token>, c: nat): seq<Statement>
    requires IsReturnRun(ts, c)
    decreases |ts| - c
  {
    if c == |ts| then []
    else [Statement.RETURN(Identifier(ts[c].literal))] + ReturnRunStatements(ts, c + 3)
  }

  /** One statement per three tokens; the `i`-th holds the literal of the `i`-th clause's RETURN. */
  lemma {:induction false} ReturnRunStatementsShape(ts: seq<Token>, c: nat)
    requires IsReturnRun(ts, c)
    ensures var s := ReturnRunStatements(ts, c);
      && 3 * |s| == |ts| - c
      && forall i :: 0 <= i < |s| ==> s[i] == Statement.RETURN(Identifier(ts[c + 3 * i].literal))
    decreases |ts| - c
  {
    if c < |ts| {
      ReturnRunStatementsShape(ts, c + 3);
      var s, rest := ReturnRunStatements(ts, c), ReturnRunStatements(ts, c + 3);
      forall i | 0 <= i < |s|
        ensures s[i] == Statement.RETURN(Identifier(ts[c + 3 * i].literal))
      {
        if i > 0 {
          var j := i - 1;
          assert s[i] == rest[j];
          assert c + 3 + 3 * j == c + 3 * i;
        }
      }
    }
  }

  /** A run is a run wherever it is placed: after `pre` it starts `|pre|` tokens later and stands
      for the same statements. */
  lemma {:induction false} ReturnRunShift(pre: seq<Token>, ts: seq<Token>, c: nat)
    requires IsReturnRun(ts, c)
    ensures IsReturnRun(pre + ts, |pre| + c) && ReturnRunStatements(pre + ts, |pre| + c) == ReturnRunStatements(ts, c)
    decreases |ts| - c
  {
    if c < |ts| {
      ReturnRunShift(pre, ts, c + 3);
      var u := pre + ts;
      assert u[|pre| + c] == ts[c] && u[|pre| + c + 1] == ts[c + 1] && u[|pre| + c + 2] == ts[c + 2];
    }
  }

  /** Two runs one after the other are one run, standing for the statements of both in order. */
  lemma {:induction false} ReturnRunAppend(a: seq<Token>, b: seq<Token>, c: nat)
    requires IsReturnRun(a, c) && IsReturnRun(b, 0)
    ensures IsReturnRun(a + b, c) && ReturnRunStatements(a + b, c) == ReturnRunStatements(a, c) + ReturnRunStatements(b, 0)
    decreases |a| - c
  {
    if c == |a| {
      ReturnRunShift(a, b, 0);
    } else {
      ReturnRunAppend(a, b, c + 3);
      var u := a + b;
      assert u[c] == a[c] && u[c + 1] == a[c + 1] && u[c + 2] == a[c + 2];
      ConcatAssociative([Statement.RETURN(Identifier(a[c].literal))],
                        ReturnRunStatements(a, c + 3), ReturnRunStatements(b, 0));
    }
  }

  /** A run of `return <INT> ;` clauses parses to the statements it stands for, in source order,
      with no errors, the loop stopping at the end of the source. */
  lemma {:induction false} ReturnRun(ts: seq<Token>, c: nat)
    requires IsReturnRun(ts, c)
    ensures ParseFrom(ts, c) == Parsed(ReturnRunStatements(ts, c), [], |ts|)
    decreases |ts| - c
  {
    if c < |ts| {
      assert TokenAt(ts, c + 3).tokenType != SEMICOLON by {
        if c + 3 < |ts| {
          assert ts[c + 3].tokenType == TokenType.RETURN;
        }
      }
      ReturnClause(ts, c);
      ReturnRun(ts, c + 3);
    }
  }

  /** One round of the `parse_program` loop: what the loop has gathered before the attempt at `c`,
      followed by the parse from `c`, is what it has gathered after the attempt followed by the
      parse from the next position. */
  lemma ParseFromRound(ts: seq<Token>, c: nat, done: seq<Statement>, before: seq<ParseError>)
    requires TokenAt(ts, c).tokenType != EOF
    ensures var st := StatementStep(ts, c);
      var p, rest := ParseFrom(ts, c), ParseFrom(ts, st.last + 1);
      var head := if st.statement.Some? then [st.statement.value] else [];
      && (done + head) + rest.statements == done + p.statements
      && (before + st.errors) + rest.errors == before + p.errors
      && rest.end == p.end
  {
    var st := StatementStep(ts, c);
    var rest := ParseFrom(ts, st.last + 1);
    var head := if st.statement.Some? then [st.statement.value] else [];
    ConcatAssociative(done, head, rest.statements);
    ConcatAssociative(before, st.errors, rest.errors);
  }

  lemma ConcatAssociative<T>(a: seq<T>, b: seq<T>, c: seq<T>)
    ensures (a + b) + c == a + (b + c)
  {
  }

  class Parser {
    /** The token source and the number of tokens pulled from it so far. */
    const tokens: seq<Token>
    var pulled: nat
    var currentToken: Token
    var peekToken: Token
    var errors: seq<ParseError>

    /** The window invariant: current and peek are the last two tokens pulled. */
    ghost predicate Valid()
      reads this
    {
      pulled >= 2 && currentToken == TokenAt(tokens, pulled - 2) && peekToken == TokenAt(tokens, pulled - 1)
    }

    /** The position of the current token in the source. */
    ghost function Cursor(): nat
      reads this
      requires Valid()
    {
      pulled - 2
    }

    /** Primes the window with the first two tokens; no errors yet. */
    constructor (tokens: seq<Token>)
      ensures this.tokens == tokens && Valid() && Cursor() == 0
      ensures currentToken == TokenAt(tokens, 0) && peekToken == TokenAt(tokens, 1)
      ensures errors == []
    {
      this.tokens := tokens;
      currentToken := TokenAt(tokens, 0);
      peekToken := TokenAt(tokens, 1);
      pulled := 2;
      errors := [];
    }

    /** Records that the peeked token was not of category `t`. */
    method PeekError(t: TokenType)
      modifies this`errors
      ensures errors == old(errors) + [ExpectedNext(t, t)]
    {
      errors := errors + [ExpectedNext(t, t)];
    }

    /** Slides the window: the old peek becomes current, and the next token is pulled. */
    method NextToken()
      requires Valid()
      modifies this`pulled, this`currentToken, this`peekToken
      ensures Valid() && Cursor() == old(Cursor()) + 1
      ensures currentToken == old(peekToken) && peekToken == TokenAt(tokens, old(pulled))
    {
      currentToken := peekToken;
      peekToken := TokenAt(tokens, pulled);
      pulled := pulled + 1;
    }

    function CurrentTokenIs(t: TokenType): (r: bool)
      reads this
      requires Valid()
      ensures r <==> TokenAt(tokens, Cursor()).tokenType == t
    {
      currentToken.tokenType == t
    }

    function PeekTokenIs(t: TokenType): (r: bool)
      reads this
      requires Valid()
      ensures r <==> TokenAt(tokens, Cursor() + 1).tokenType == t
    {
      peekToken.tokenType == t
    }

    /** On a peeked `t`: advances once and succeeds. Otherwise: records one error, keeps the window. */
    method ExpectPeek(t: TokenType) returns (ok: bool)
      requires Valid()
      modifies this`pulled, this`currentToken, this`peekToken, this`errors
      ensures Valid()
      ensures ok <==> old(peekToken).tokenType == t
      ensures ok ==> Cursor() == old(Cursor()) + 1 && currentToken == old(peekToken) && errors == old(errors)
      ensures !ok ==> Cursor() == old(Cursor()) && errors == old(errors) + [ExpectedNext(t, t)]
    {
      if PeekTokenIs(t) {
        NextToken();
        return true;
      }
      PeekError(t);
      return false;
    }

    /** The identifier named by the current token's literal. */
    function ParseIdentifier(): (r: Option<Expression>)
      reads this
      requires Valid()
      ensures r == Some(Identifier(TokenAt(tokens, Cursor()).literal))
    {
      Some(Identifier(currentToken.literal))
    }

    /** Prefix dispatch: only IDENT has a handler. The priority is accepted and ignored. */
    function ParseExpression(priority: Priority): (r: Option<Expression>)
      reads this
      requires Valid()
      ensures r.Some? <==> TokenAt(tokens, Cursor()).tokenType == IDENT
      ensures r.Some? ==> r.value == Identifier(TokenAt(tokens, Cursor()).literal)
    {
      match currentToken.tokenType
      case IDENT => ParseIdentifier()
      case _ => None
    }

    method ParseExpressionStatement() returns (s: Option<Statement>)
      requires Valid()
      modifies this
      ensures Valid()
      ensures var st := ExpressionStep(tokens, old(Cursor()));
        s == st.statement && Cursor() == st.last && errors == old(errors) + st.errors
    {
      var expression := ParseExpression(LOWEST);
      if PeekTokenIs(SEMICOLON) {
        NextToken();
      }
      if expression.Some? {
        s := Some(EXPRESSION(expression.value));
      } else {
        s := None;
      }
    }

    method ParseLetStatement() returns (s: Option<Statement>)
      requires Valid()
      modifies this
      ensures Valid()
      ensures var st := LetStep(tokens, old(Cursor()));
        s == st.statement && Cursor() == st.last && errors == old(errors) + st.errors
    {
      var ok := ExpectPeek(IDENT);
      if !ok {
        return None;
      }
      var name := Identifier(currentToken.literal);
      ok := ExpectPeek(ASSIGN);
      if !ok {
        return None;
      }
      SkipSemicolonTokens();
      return Some(Statement.LET(name, Identifier("")));
    }

    /** The loop that ends both LET and RETURN parsing: advances while the current token is a SEMICOLON. */
    method SkipSemicolonTokens()
      requires Valid()
      modifies this`pulled, this`currentToken, this`peekToken
      ensures Valid() && Cursor() == SkipSemicolons(tokens, old(Cursor()))
    {
      ghost var target := SkipSemicolons(tokens, Cursor());
      while CurrentTokenIs(SEMICOLON)
        invariant Valid()
        invariant Cursor() <= target && SkipSemicolons(tokens, Cursor()) == target
        decreases |tokens| - Cursor()
      {
        NextToken();
      }
    }

    method ParseReturnStatement() returns (s: Option<Statement>)
      requires Valid()
      modifies this
      ensures Valid()
      ensures var st := ReturnStep(tokens, old(Cursor()));
        s == st.statement && Cursor() == st.last && errors == old(errors) + st.errors
    {
      var statement := Statement.RETURN(Identifier(currentToken.literal));
      NextToken();
      SkipSemicolonTokens();
      return Some(statement);
    }

    method ParseStatement() returns (s: Option<Statement>)
      requires Valid()
      modifies this
      ensures Valid()
      ensures var st := StatementStep(tokens, old(Cursor()));
        s == st.statement && Cursor() == st.last && errors == old(errors) + st.errors
    {
      if currentToken.tokenType.LET? {
        s := ParseLetStatement();
      } else if currentToken.tokenType.RETURN? {
        s := ParseReturnStatement();
      } else {
        s := ParseExpressionStatement();
      }
    }

    /** Parses statements until the current token is EOF, advancing once after every attempt.
        Always `Ok`; failed attempts leave only their errors behind. */
    method ParseProgram() returns (r: Result<Program, string>)
      requires Valid()
      modifies this
      ensures Valid()
      ensures var p := ParseFrom(tokens, old(Cursor()));
        r == Ok(Program(p.statements)) && Cursor() == p.end && errors == old(errors) + p.errors
      ensures currentToken.tokenType == EOF
    {
      ghost var whole := ParseFrom(tokens, Cursor());
      var statements: seq<Statement> := [];
      while currentToken.tokenType != EOF
        invariant Valid()
        invariant var rest := ParseFrom(tokens, Cursor());
          && statements + rest.statements == whole.statements
          && errors + rest.errors == old(errors) + whole.errors
          && rest.end == whole.end
        decreases |tokens| - Cursor()
      {
        ghost var done, before, c := statements, errors, Cursor();
        ghost var st := StatementStep(tokens, c);
        ParseFromRound(tokens, c, done, before);
        var statement := ParseStatement();
        assert statement == st.statement && errors == before + st.errors;
        if statement.Some? {
          statements := statements + [statement.value];
        }
        assert statements == done + (if st.statement.Some? then [st.statement.value] else []);
        NextToken();
        assert Cursor() == st.last + 1;
      }
      assert ParseFrom(tokens, Cursor()) == Parsed([], [], Cursor());
      assert statements == whole.statements && errors == old(errors) + whole.errors;
      assert whole == ParseFrom(tokens, old(Cursor()));
      return Ok(Program(statements));
    }
  }

  /** Builds a parser over `ts` and parses a whole program, as the parser tests do. */
  method ParseTokens(ts: seq<Token>) returns (program: Program, errors: seq<ParseError>)
    ensures var p := ParseFrom(ts, 0); program == Program(p.statements) && errors == p.errors
  {
    var parser := new Parser(ts);
    var r := parser.ParseProgram();
    program := r.value;
    errors := parser.errors;
  }
}
