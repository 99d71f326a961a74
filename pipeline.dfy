/** The lexer feeding the parser, as `Parser::new` wires them: the parser pulls the lexer's tokens
    one at a time. The `k`-th pull gives the token of byte `k`, and EOF past the end of the input;
    that is a token sequence read as EOF past its end, the parser's token source. */
module Pipeline {
  import opened Tokens
  import opened Ast
  import opened Lexing
  import opened Parsing

  /** The tokens the lexer gives on its first `|input|` pulls: the token of each byte, in order.
      Every later pull gives EOF, as the parser's token source does past its end. */
  method PullTokens(input: seq<Byte>) returns (tokens: seq<Token>)
    requires forall i :: 0 <= i < |input| ==> CanLex(input[i])
    ensures |tokens| == |input|
    ensures forall k :: 0 <= k < |input| ==> tokens[k] == TokenFor(input[k])
    ensures forall k: nat :: TokenAt(tokens, k) == TokenFor(ByteAt(input, k))
  {
    var lexer := new Lexer(input);
    tokens := [];
    while |tokens| < |input|
      invariant lexer.Valid() && lexer.input == input
      invariant lexer.position == |tokens| <= |input|
      invariant forall k :: 0 <= k < |tokens| ==> tokens[k] == TokenFor(input[k])
    {
      var token := lexer.NextToken();
      tokens := tokens + [token];
    }
  }

  /** The lexer only yields punctuation and EOF, so the stream it gives opens no statement: the program
      is empty and no error is recorded. */
  lemma LexedStreamParsesToNothing(input: seq<Byte>, ts: seq<Token>)
    requires forall i :: 0 <= i < |input| ==> CanLex(input[i])
    requires |ts| == |input| && forall k :: 0 <= k < |input| ==> ts[k] == TokenFor(input[k])
    ensures ParseFrom(ts, 0).statements == [] && ParseFrom(ts, 0).errors == []
  {
    forall k | 0 <= k < |ts|
      ensures !OpensStatement(ts[k])
    {
      assert ts[k] == TokenFor(input[k]);
    }
    NoOpenerNoStatements(ts, 0);
  }

  /** Draining the lexer up to its first EOF (as the REPL does) loses nothing the parser would read:
      the lexer's stream holds no RETURN, so the parse looks at nothing past that EOF. */
  lemma DrainParsesLikeStream(input: seq<Byte>, ts: seq<Token>)
    requires forall i :: 0 <= i < |input| ==> CanLex(input[i])
    requires |ts| == |input| && forall k :: 0 <= k < |input| ==> ts[k] == TokenFor(input[k])
    ensures LexableFrom(input, 0) && ParseFrom(Scan(input, 0), 0) == ParseFrom(ts, 0)
  {
    AllLexable(input, 0);
    var drained := Scan(input, 0);
    var e := |drained|;
    ScanTokens(input, 0);
    forall k | 0 <= k <= e
      ensures TokenAt(drained, k) == TokenAt(ts, k)
    {
      if k < e {
        assert drained[k] == TokenFor(input[k]) == ts[k];
      } else if k < |input| {
        assert input[k] == 0;
      }
    }
    forall k | 0 <= k < e
      ensures TokenAt(drained, k).tokenType != TokenType.RETURN
    {
      assert drained[k] == TokenFor(input[k]);
    }
    ParseFromAgrees(drained, ts, 0, e);
  }

  /** The tokens `Parser::new` and `parse_program` pull from a fresh lexer over a source that holds no
      statement opener: the loop stops when the first EOF becomes current, and by then the window has
      pulled one token more. So the bytes read are those up to the first 0, and the one after it. */
  method PullForParse(input: seq<Byte>) returns (tokens: seq<Token>)
    requires LexableFrom(input, 0) && CanLex(ByteAt(input, |Scan(input, 0)| + 1))
    ensures tokens == Scan(input, 0) + [Token(EOF, ""), TokenFor(ByteAt(input, |Scan(input, 0)| + 1))]
  {
    var lexer := new Lexer(input);
    var drained := Drain(lexer);
    var peek := lexer.NextToken();
    tokens := drained + [Token(EOF, ""), peek];
  }

  /** What the parser pulls from the lexer parses to nothing, silently, and the loop stops on the first
      EOF, the token before the last one pulled. */
  lemma PulledStreamParsesToNothing(input: seq<Byte>)
    requires LexableFrom(input, 0) && CanLex(ByteAt(input, |Scan(input, 0)| + 1))
    ensures var drained := Scan(input, 0);
      var ts := drained + [Token(EOF, ""), TokenFor(ByteAt(input, |drained| + 1))];
      ParseFrom(ts, 0) == Parsed([], [], |drained|)
  {
    var drained := Scan(input, 0);
    ScanTokens(input, 0);
    forall k | 0 <= k < |drained|
      ensures !OpensStatement(drained[k]) && drained[k].tokenType != EOF
    {
      assert drained[k] == TokenFor(input[k]);
    }
    NoOpenerNoStatements(drained, 0);
    EofThenPeekAgrees(drained, TokenFor(ByteAt(input, |drained| + 1)));
  }

  /** Lexes `input` as the parser pulls it and parses the tokens: the empty program, without errors.
      Only the bytes the source reads need to lex: those up to the first 0, and the one after it. */
  method ParseSource(input: seq<Byte>) returns (program: Program, errors: seq<ParseError>)
    requires LexableFrom(input, 0) && CanLex(ByteAt(input, |Scan(input, 0)| + 1))
    ensures program == Program([]) && errors == []
  {
    var tokens := PullForParse(input);
    PulledStreamParsesToNothing(input);
    program, errors := ParseTokens(tokens);
  }
}
