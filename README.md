# Monkey front end: token model, byte lexer and statement parser

This project models the front end of the Monkey interpreter (`shotanue/monkey`, Rust) in Dafny:

- **Token model** (`token.dfy`, module `Tokens`). It holds the closed `TokenType` enumeration and the `Token` pair of category and literal. It also holds the keyword table `lookup_ident`.
- **Lexer** (`lexer.dfy`, module `Lexing`). This is a class with the cursor fields `position`, `readPosition` and `ch` over a byte input. `NextToken` maps the current byte to a token and advances exactly one byte. As the code stands, only `= ; ( ) , + { }` and the end-of-input byte 0 are recognised. A token's literal is the *decimal text of the byte value* ("61" for `=`), as Rust's `u8::to_string` renders it (`decimal.dfy`, module `Decimal`).
- **AST** (`ast.dfy`, module `Ast`). `Expression` has the single form `Identifier`. `Statement` has the forms `LET`, `RETURN` and `EXPRESSION`, and `Program` is an ordered list of statements. `Priority` has the one level `LOWEST`.
- **Parser** (`parser.dfy`, module `Parsing`). This is a class with a two-token window (`currentToken`, `peekToken`) and an append-only `errors` list, proved against a pure specification.
  - The specification functions are `StatementStep`, which covers one statement attempt, and `ParseFrom`, which covers the `parse_program` loop.
  - The parser's token source is a sequence of tokens, and reading past its end yields `Token(EOF, "")`, as the lexer does once its input is exhausted.
  - `parse_let_statement`, `parse_return_statement` and `parse_expression_statement` are modelled with their actual token consumption and their best-effort recovery.
- **Test scenarios** (`parser_examples.dfy`, module `ParserExamples`). These are the parser's unit tests, stated over the token streams their inputs denote.
- **Pipeline** (`pipeline.dfy`, module `Pipeline`). This connects the lexer to the parser.

The Monkey language comes from the book *Writing An Interpreter In Go*, whose parser chapter the source follows (src/ast.rs:1-7). The book's language is larger than this code, and the model follows the code:
- The book's lexer skips whitespace and scans identifiers, integers, `==`/`!=` and ILLEGAL tokens. This code does none of this: any byte outside `= ; ( ) , + { }` and 0 reaches `unimplemented!()` (src/lexer.rs:43). The model turns that panic into the precondition `CanLex(ch)` of `Lexer.NextToken`.
- A token's literal is the character in the book. In this code it is the decimal byte value.
- `ast.rs` defines only `LET`. The parser uses `Statement::RETURN`, `Statement::EXPRESSION` and `Priority::LOWEST`, so the model adds them.
- A LET's value is the placeholder `Identifier("")`. A RETURN's value is the RETURN token's own literal.

The lexer never produces LET, RETURN or IDENT. So every source the parser can read without reaching `unimplemented!()` parses to an empty program with no errors (`Pipeline.ParseSource`). Such a source needs the bytes up to its first 0 byte, and the one byte after it, to lex, because the parser's window pulls one token past the EOF where its loop stops.

All three parser tests panic inside `Parser::new` (src/parser.rs:16, 149-150, 190-191, 215-216). Each test input starts with a newline byte, and the lexer's first `next_token` call sends that byte to `unimplemented!()` (src/lexer.rs:43). The model therefore states the tests over the token streams their inputs denote (`ParserExamples`).

## Model

| member | source | states |
|---|---|---|
| `Tokens.LookupIdent` | src/token.rs:43-54 | Each of the seven keywords maps to its keyword category, every other word maps to IDENT, and the result is always IDENT or a keyword category |
| `Tokens.KeywordsInjective` | src/token.rs:45-51 | A keyword never maps to IDENT, and distinct keywords map to distinct categories |
| `Tokens.KeywordTypesCovered` | src/token.rs:45-51 | Every keyword category is the image of some keyword |
| `Tokens.TokenEquality` | src/token.rs:1-5 | Two tokens are equal exactly when both their category and their literal are equal |
| `Decimal.DecimalText` | src/lexer.rs:34-41 | The text `u8::to_string` gives is a canonical digit run (no leading zero), one digit exactly for values below 10 |
| `Decimal.ValueOfText` | src/lexer.rs:34-41 | Reading the decimal text back gives the number |
| `Decimal.TextOfValue` | src/lexer.rs:34-41 | Every canonical digit run is the decimal text of the value it denotes |
| `Decimal.TextInjective` | src/lexer.rs:34-41 | Distinct numbers have distinct decimal texts |
| `Lexing.TokenFor` | src/lexer.rs:33-44 | The token of a handled byte is EOF, and has an empty literal, exactly when the byte is 0 |
| `Lexing.PunctuationLiteral` | src/lexer.rs:34-41 | The literal of each recognised byte is the decimal text of its value |
| `Lexing.PunctuationLiterals` | src/lexer.rs:34-41 | Every punctuation literal is the decimal text of its byte and reads back as the byte value |
| `Lexing.TokenForInjective` | src/lexer.rs:33-44 | Different handled bytes give different tokens |
| `Lexing.Lexer.constructor` | src/lexer.rs:11-21 | A new lexer has `position == 0`, `readPosition == 1`, and `ch` is the first byte or 0 for empty input |
| `Lexing.Lexer.ReadChar` | src/lexer.rs:22-30 | Moves `position` to the old `readPosition`, keeps `readPosition == position + 1`, and loads the byte there, or 0 past the end |
| `Lexing.Lexer.NextToken` | src/lexer.rs:32-49 | Requires a handled byte (otherwise `unimplemented!()`). Returns the token of the byte under the cursor and advances exactly one byte. Past the end it returns `Token(EOF, "")` and stays past the end, so every later call returns EOF again |
| `Lexing.ScanTokens` | src/lexer.rs:32-49 | Repeated calls yield one token per byte, in input order, none of them EOF, stopping exactly at the first 0 byte or the end of input. Only the bytes up to that first 0 need to be lexable |
| `Lexing.PunctuationOnlyInput` | src/lexer.rs:34-41 | Input made only of the eight recognised bytes yields exactly `|input|` tokens before EOF |
| `Lexing.Drain` | src/repl.rs:14-20 | Pulling until the first EOF collects exactly the tokens `Scan` gives from the cursor, and leaves the cursor one byte past that EOF's byte |
| `Lexing.LexAll` | src/repl.rs:13-20 | Draining a fresh lexer up to its first EOF collects exactly the tokens `Scan` describes. It requires only that the bytes up to and including the first 0 can be lexed |
| `Ast.StatementShapes` | src/ast.rs:8-20 | Every expression, a LET's name included, is an identifier, and every statement is one of the three forms |
| `Parsing.SkippedSemicolons` | src/parser.rs:100-102 | The semicolon-skipping loop passes over SEMICOLONs only and stops on the first token that is not one |
| `Parsing.StatementStep` | src/parser.rs:46-52 | A statement attempt never moves the current position backwards |
| `Parsing.StatementStepErrors` | src/parser.rs:46-52 | An attempt records at most one error, and never both yields a statement and records an error |
| `Parsing.ParseFromEnd` | src/parser.rs:35-45 | The parse loop stops on an EOF at or after its start |
| `Parsing.ParseFromBound` | src/parser.rs:35-45 | The loop yields at most one statement or error per token left, so it terminates on any finite source |
| `Parsing.LetStepOutcome` | src/parser.rs:77-94 | LET yields `LET{name, ""}` exactly when the peeked token is IDENT and the one after it is ASSIGN. It then leaves current on the ASSIGN, so the semicolon loop cannot run. Otherwise it yields nothing and records exactly one error, for IDENT or for ASSIGN |
| `Parsing.ReturnStepOutcome` | src/parser.rs:95-105 | RETURN always yields `RETURN(Identifier(<RETURN literal>))` with no error. It advances once, then past any SEMICOLONs |
| `Parsing.ExpressionStepOutcome` | src/parser.rs:53-76 | An expression statement is produced exactly when the current token is IDENT, and no error is ever recorded. A peeked SEMICOLON is consumed either way |
| `Parsing.NoOpenerNoStatements` | src/parser.rs:53-76 | A source with no LET, RETURN or IDENT token parses to nothing, without errors. If it has no EOF token either, the loop runs to its end |
| `Parsing.ParseFromAgrees` | src/parser.rs:35-120 | Without RETURN tokens the parse reads nothing past an EOF: two sources that agree up to an EOF parse alike |
| `Parsing.EofThenPeekAgrees` | src/parser.rs:35-45 | A RETURN-free source parses alike with an EOF and any one further token appended, the window the loop has pulled when it stops |
| `Parsing.ReturnStepsOverEof` | src/parser.rs:95-105 | A RETURN just before an EOF makes the parse step over that EOF: `return`, EOF, `a` gives RETURN and then `EXPRESSION(a)` |
| `Parsing.NoLetNoErrors` | src/parser.rs:113-120 | Errors come only from LET statements: a source without LET tokens parses without errors |
| `Parsing.ErrorsNameExpectation` | src/parser.rs:23-28 | Every recorded error expects IDENT or ASSIGN and shows the expected category again in the "got" slot |
| `Parsing.IdentifierStatements` | src/parser.rs:35-76 | `a; b; ...` parses to those identifiers as expression statements, in source order, without errors |
| `Parsing.LetClause` | src/parser.rs:77-94 | `let <IDENT> = <INT> ;` takes exactly five tokens and two loop rounds, and yields one LET and no error |
| `Parsing.ReturnClause` | src/parser.rs:95-105 | `return <INT> ;` takes exactly three tokens and two loop rounds, and yields one RETURN and no error |
| `Parsing.LetRun` | src/parser.rs:35-45 | A run of LET clauses parses to one LET per clause, in source order, with no errors, ending at the end of the source |
| `Parsing.LetRunStatementsShape` | src/parser.rs:77-94 | A run of LET clauses stands for one statement per five tokens, the i-th named by the i-th clause's identifier |
| `Parsing.LetRunAppend` | src/parser.rs:35-45 | Two LET runs in sequence form one run whose statements are those of both, in order |
| `Parsing.ReturnRun` | src/parser.rs:35-45 | A run of RETURN clauses parses to one RETURN per clause, in source order, with no errors |
| `Parsing.ReturnRunStatementsShape` | src/parser.rs:95-105 | A run of RETURN clauses stands for one statement per three tokens, the i-th holding the i-th RETURN literal |
| `Parsing.ReturnRunAppend` | src/parser.rs:35-45 | Two RETURN runs in sequence form one run whose statements are those of both, in order |
| `Parsing.ParseFromRound` | src/parser.rs:38-43 | One loop round appends the attempt's statement and errors to what has been gathered, and the rest of the parse follows |
| `Parsing.Parser.constructor` | src/parser.rs:14-21 | The window holds the first two tokens of the source, and `errors` is empty |
| `Parsing.Parser.PeekError` | src/parser.rs:23-28 | Appends exactly one error naming the expected category in both slots |
| `Parsing.Parser.NextToken` | src/parser.rs:30-33 | The new current token is the old peek, and the new peek is the next token of the source |
| `Parsing.Parser.CurrentTokenIs` | src/parser.rs:106-108 | True exactly when the token at the cursor has the given category |
| `Parsing.Parser.PeekTokenIs` | src/parser.rs:109-111 | True exactly when the token after the cursor has the given category |
| `Parsing.Parser.ExpectPeek` | src/parser.rs:113-120 | On a match it advances once, returns true and leaves `errors` unchanged. On a mismatch it returns false, keeps the window and appends exactly one error |
| `Parsing.Parser.ParseIdentifier` | src/parser.rs:74-76 | Always an identifier carrying the current token's literal |
| `Parsing.Parser.ParseExpression` | src/parser.rs:66-73 | An expression exists exactly when the current token is IDENT, and it is that identifier. The priority is ignored |
| `Parsing.Parser.ParseExpressionStatement` | src/parser.rs:53-65 | Statement, new cursor and new errors are those of `ExpressionStep` |
| `Parsing.Parser.ParseLetStatement` | src/parser.rs:77-94 | Statement, new cursor and new errors are those of `LetStep` |
| `Parsing.Parser.SkipSemicolonTokens` | src/parser.rs:86-88 | Leaves the cursor where `SkipSemicolons` says: on the first non-SEMICOLON token |
| `Parsing.Parser.ParseReturnStatement` | src/parser.rs:95-105 | Statement, new cursor and new errors are those of `ReturnStep` |
| `Parsing.Parser.ParseStatement` | src/parser.rs:46-52 | Dispatches on LET, RETURN or anything else, with the outcome of `StatementStep` |
| `Parsing.Parser.ParseProgram` | src/parser.rs:35-45 | Always `Ok`. The program and the appended errors are those of `ParseFrom`, in parse order, and the loop ends with current on EOF |
| `Parsing.ParseTokens` | src/parser.rs:149-151 | A fresh parser over a token source returns the statements and errors of `ParseFrom` from the start |
| `ParserExamples.LetStatements` | src/parser.rs:141-163 | `let x = 5; let y = 10; let foobar = 838383;` gives three LETs named x, y, foobar and no errors |
| `ParserExamples.LetTestChecks` | src/parser.rs:165-180 | The test's exhaustive match on each statement's name sees the identifiers x, y, foobar |
| `ParserExamples.ReturnStatements` | src/parser.rs:183-208 | `return 5; return 10; return 993322;` gives three RETURNs and no errors |
| `ParserExamples.IdentifierExpression` | src/parser.rs:209-233 | `foobar;` gives the single statement `EXPRESSION(Identifier("foobar"))` |
| `ParserExamples.MissingName` | src/parser.rs:77-80 | `let = 5;` terminates and yields no statement and exactly one error expecting IDENT |
| `Pipeline.PullTokens` | src/lexer.rs:32-49 | The lexer's first `|input|` pulls give the token of each byte in order, and later pulls give EOF, as the parser's token source does past its end |
| `Pipeline.LexedStreamParsesToNothing` | src/lexer.rs:33-44 | The lexer's stream parses to the empty program with no errors, because the lexer yields no LET, RETURN or IDENT |
| `Pipeline.DrainParsesLikeStream` | src/repl.rs:13-20 | Draining the lexer to its first EOF and parsing that gives the same parse as the lexer's full stream. The stream holds no RETURN |
| `Pipeline.PullForParse` | src/parser.rs:14-17 | The lexer pulls that `Parser::new` and `parse_program` make on a source with no statement opener: the tokens before the first EOF, that EOF, and the one token the peek pulls after it |
| `Pipeline.PulledStreamParsesToNothing` | src/parser.rs:35-45 | Those pulled tokens parse to nothing, without errors, and the loop stops on the first EOF |
| `Pipeline.ParseSource` | src/parser.rs:14-21 | Lexing then parsing gives `Program([])` and no errors. It requires only the bytes the source reads to lex: those up to the first 0 byte, and the one after it |

## Left out

- `src/repl.rs` and `src/main.rs`: reading stdin, printing tokens and the banner are I/O. `Lexing.LexAll` models only the REPL's drain-until-EOF loop.
- Error message text: the `format!` of `peek_error` is modelled as the value `ExpectedNext(expected, got)`. Following the code, both slots hold the expected category.
- The panic of `unimplemented!()`: it is a precondition of `Lexing.Lexer.NextToken`, not modelled crash behaviour.
- Lexer input: a Rust `String` is modelled as its bytes (`seq<Byte>`). UTF-8 validity is not modelled.
- `usize` overflow of `read_position`: positions are unbounded naturals. An overflow would need an input of `usize::MAX` bytes.
- Lexer ownership: the `Parser` class reads from a token sequence, not from a `Lexer` object. `Pipeline.PullTokens` builds that sequence by pulling the lexer, one token per byte; past its end both give EOF. The parse can look past an EOF: a RETURN just before it steps over it (`Parsing.ReturnStepsOverEof`). So a stream cut at its first EOF is proved to parse alike when it has no RETURN (`Parsing.ParseFromAgrees`), as the lexer's streams do.
- `Pipeline.PullTokens` requires every byte of the input to be lexable, because its loop pulls one token per byte. `Pipeline.PullForParse` pulls only what the parser reads, and `Pipeline.ParseSource` uses it.
- Features the code does not have are not modelled: whitespace skipping, identifier and integer scanning, `==`/`!=`, ILLEGAL tokens, infix parsing and the precedence ladder beyond `LOWEST`.
- Parsing of let/return right-hand sides: the code binds placeholders, and the model keeps them.
