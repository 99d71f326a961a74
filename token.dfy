/** The token categories, the token value and the keyword table. */
module Tokens {

  /** The closed set of lexical categories, in declaration order. */
  datatype TokenType =
    | ILLEGAL | EOF | IDENT | INT
    // operators
    | ASSIGN | PLUS | MINUS | BANG | ASTERISK | SLASH | LT | GT
    // delimiters
    | COMMA | SEMICOLON | LPAREN | RPAREN | LBRACE | RBRACE
    // keywords
    | FUNCTION | LET | TRUE | FALSE | IF | ELSE | RETURN
    | EQ | NotEq

  /** A category paired with its literal text. Equality is structural, as the derived `Eq` is. */
  datatype Token = Token(tokenType: TokenType, literal: string)

  /** The categories a keyword can map to. */
  predicate IsKeywordType(t: TokenType) {
    t.FUNCTION? || t.LET? || t.TRUE? || t.FALSE? || t.IF? || t.ELSE? || t.RETURN?
  }

  /** The keyword table as data: an independent statement of what `LookupIdent` decides. */
  const Keywords: map<string, TokenType> :=
    map["fn" := FUNCTION, "let" := LET, "true" := TRUE, "false" := FALSE,
        "if" := IF, "else" := ELSE, "return" := RETURN]

  /** Classifies an identifier-shaped word: a keyword category, or IDENT for every other word. */
  function LookupIdent(ident: string): (t: TokenType)
    ensures ident in Keywords ==> t == Keywords[ident]
    ensures ident !in Keywords ==> t == IDENT
    ensures t == IDENT || IsKeywordType(t)
  {
    match ident
    case "fn" => FUNCTION
    case "let" => LET
    case "true" => TRUE
    case "false" => FALSE
    case "if" => IF
    case "else" => ELSE
    case "return" => RETURN
    case _ => IDENT
  }

  /** Distinct keywords get distinct categories, and a keyword never maps to IDENT. */
  lemma KeywordsInjective(a: string, b: string)
    requires a in Keywords && b in Keywords
    ensures LookupIdent(a) != IDENT
    ensures LookupIdent(a) == LookupIdent(b) ==> a == b
  {
  }

  /** Every keyword category is reached by some word of the table (by `KeywordsInjective`, by only one). */
  lemma KeywordTypesCovered(t: TokenType)
    requires IsKeywordType(t)
    ensures exists w :: w in Keywords && LookupIdent(w) == t
  {
    var w := match t
      case FUNCTION => "fn"
      case LET => "let"
      case TRUE => "true"
      case FALSE => "false"
      case IF => "if"
      case ELSE => "else"
      case RETURN => "return";
    assert w in Keywords && LookupIdent(w) == t;
  }

  /** Two tokens are equal exactly when both their category and their literal are. */
  lemma TokenEquality(a: Token, b: Token)
    ensures a == b <==> a.tokenType == b.tokenType && a.literal == b.literal
  {
  }
}
