/** The byte scanner: a cursor over the input that turns the current byte into a token. */
module Lexing {
  import opened Tokens
  import opened Decimal

  /** Rust's `u8`. */
  type Byte = b: int | 0 <= b < 256

  /** The bytes the scanner recognises, `= ; ( ) , + { }`, and the token each yields. The literal
      is the decimal text of the byte value, as `u8::to_string` renders it (`PunctuationLiterals`). */
  const Punctuation: map<Byte, Token> :=
    map[61 := Token(ASSIGN, "61"),       // '='
        59 := Token(SEMICOLON, "59"),    // ';'
        40 := Token(LPAREN, "40"),       // '('
        41 := Token(RPAREN, "41"),       // ')'
        44 := Token(COMMA, "44"),        // ','
        43 := Token(PLUS, "43"),         // '+'
        123 := Token(LBRACE, "123"),     // '{'
        125 := Token(RBRACE, "125")]     // '}'

  /** The bytes `next_token` handles: the punctuation above and the end-of-input byte 0.
      Every other byte reaches `unimplemented!()`. */
  predicate CanLex(b: Byte) {
    b == 0 || b in Punctuation
  }

  /** The byte at `i`, or 0 past the end of the input. */
  function ByteAt(input: seq<Byte>, i: nat): Byte {
    if i < |input| then input[i] else 0
  }

  /** The token the scanner yields for current byte `b`: EOF with an empty literal for 0,
      otherwise the byte's entry in the punctuation table. */
  function TokenFor(b: Byte): (t: Token)
    requires CanLex(b)
    ensures t.tokenType == EOF <==> b == 0
    ensures t.literal == "" <==> b == 0
  {
    if b == 0 then Token(EOF, "") else Punctuation[b]
  }

  /** The text of a two- or three-digit number, digit by digit. */
  lemma ShortText(n: nat)
    requires 10 <= n < 1000
    ensures n < 100 ==> DecimalText(n) == [DigitChar(n / 10), DigitChar(n % 10)]
    ensures n >= 100 ==> DecimalText(n) == [DigitChar(n / 100), DigitChar(n / 10 % 10), DigitChar(n % 10)]
  {
    if n >= 100 {
      assert DecimalText(n / 10) == [DigitChar(n / 100), DigitChar(n / 10 % 10)];
    }
  }

  /** The literal of one recognised byte is the decimal text of its value. */
  lemma PunctuationLiteral(b: Byte)
    requires b in Punctuation
    ensures Punctuation[b].literal == DecimalText(b)
  {
    assert DigitChar(0) == '0' && DigitChar(1) == '1' && DigitChar(2) == '2' && DigitChar(3) == '3';
    assert DigitChar(4) == '4' && DigitChar(5) == '5' && DigitChar(6) == '6' && DigitChar(9) == '9';
    ShortText(b);
  }

  /** Every literal in the table is the decimal text of its byte, and so reads back as the byte value. */
  lemma PunctuationLiterals()
    ensures forall b :: b in Punctuation ==> Punctuation[b].literal == DecimalText(b)
    ensures forall b :: b in Punctuation ==> DecimalValue(Punctuation[b].literal) == b
  {
    forall b | b in Punctuation
      ensures Punctuation[b].literal == DecimalText(b) && DecimalValue(Punctuation[b].literal) == b
    {
      PunctuationLiteral(b);
      ValueOfText(b);
    }
  }

  /** Different bytes give different tokens. */
  lemma TokenForInjective(a: Byte, b: Byte)
    requires CanLex(a) && CanLex(b)
    ensures TokenFor(a) == TokenFor(b) ==> a == b
  {
    if a != 0 && b != 0 {
      PunctuationLiterals();
      TextInjective(a, b);
    }
  }

  class Lexer {
    const input: seq<Byte>
    var position: nat
    var readPosition: nat
    var ch: Byte

    /** The cursor invariant: `readPosition` is one past `position`, and `ch` is the byte under `position`. */
    ghost predicate Valid()
      reads this
    {
      readPosition == position + 1 && ch == ByteAt(input, position)
    }

    constructor (input: seq<Byte>)
      ensures this.input == input && Valid()
      ensures position == 0 && readPosition == 1
      ensures ch == (if |input| == 0 then 0 else input[0])
    {
      this.input := input;
      position := 0;
      readPosition := 0;
      ch := 0;
      new;
      ReadChar();
    }

    /** Moves the cursor to `readPosition` and loads the byte there (0 past the end). */
    method ReadChar()
      modifies this`position, this`readPosition, this`ch
      ensures Valid()
      ensures position == old(readPosition) && readPosition == old(readPosition) + 1
      ensures ch == ByteAt(input, old(readPosition))
    {
      ch := if readPosition >= |input| then 0 else input[readPosition];
      position := readPosition;
      readPosition := readPosition + 1;
    }

    /** Returns the token for the current byte and advances the cursor by exactly one byte. */
    method NextToken() returns (token: Token)
      requires Valid() && CanLex(ch)
      modifies this`position, this`readPosition, this`ch
      ensures Valid() && position == old(position) + 1
      ensures token == TokenFor(ByteAt(input, old(position)))
      ensures old(position) >= |input| ==> token == Token(EOF, "") && position >= |input|
    {
      if ch != 0 {
        PunctuationLiteral(ch);
      }
      token := match ch
        case 61 => Token(ASSIGN, DecimalText(ch))
        case 59 => Token(SEMICOLON, DecimalText(ch))
        case 40 => Token(LPAREN, DecimalText(ch))
        case 41 => Token(RPAREN, DecimalText(ch))
        case 44 => Token(COMMA, DecimalText(ch))
        case 43 => Token(PLUS, DecimalText(ch))
        case 123 => Token(LBRACE, DecimalText(ch))
        case 125 => Token(RBRACE, DecimalText(ch))
        case 0 => Token(EOF, "")
        case _ => assert false; Token(ILLEGAL, "");
      ReadChar();
    }
  }

  /** The bytes a drain from `i` examines can all be lexed: every byte from `i` up to and including
      the first 0 at or after `i` (the drain stops on the EOF that byte gives). */
  predicate LexableFrom(input: seq<Byte>, i: nat)
    decreases |input| - i
  {
    i >= |input| || (CanLex(input[i]) && (input[i] == 0 || LexableFrom(input, i + 1)))
  }

  /** A drain from a lexable position can read the byte there, and, unless it is 0, stays lexable
      one byte on. */
  lemma LexableStep(input: seq<Byte>, i: nat)
    requires LexableFrom(input, i)
    ensures CanLex(ByteAt(input, i))
    ensures ByteAt(input, i) != 0 ==> i < |input| && LexableFrom(input, i + 1)
  {
  }

  /** Input whose bytes can all be lexed is lexable from every position. */
  lemma {:induction false} AllLexable(input: seq<Byte>, i: nat)
    requires forall j :: 0 <= j < |input| ==> CanLex(input[j])
    ensures LexableFrom(input, i)
    decreases |input| - i
  {
    if i < |input| {
      AllLexable(input, i + 1);
    }
  }

  /** The tokens a lexer yields from position `i` on before its first EOF token:
      one per byte, in input order, up to the first 0 byte or the end of the input. */
  function Scan(input: seq<Byte>, i: nat): (tokens: seq<Token>)
    requires LexableFrom(input, i)
    decreases |input| - i
  {
    if ByteAt(input, i) == 0 then [] else [TokenFor(input[i])] + Scan(input, i + 1)
  }

  /** The `k`-th token `Scan` yields from `i` is the token of byte `i + k`, which is not 0. */
  lemma {:induction false} ScanAt(input: seq<Byte>, i: nat, k: nat)
    requires LexableFrom(input, i)
    requires k < |Scan(input, i)|
    ensures i + k < |input| && input[i + k] != 0 && CanLex(input[i + k])
    ensures Scan(input, i)[k] == TokenFor(input[i + k])
    decreases k
  {
    if k > 0 {
      ScanAt(input, i + 1, k - 1);
    }
  }

  /** `Scan` stops exactly at the first 0 byte from `i` on, or at the end of the input. */
  lemma {:induction false} ScanEnd(input: seq<Byte>, i: nat)
    requires LexableFrom(input, i)
    requires i <= |input|
    ensures i + |Scan(input, i)| <= |input|
    ensures i + |Scan(input, i)| < |input| ==> input[i + |Scan(input, i)|] == 0
    decreases |input| - i
  {
    if ByteAt(input, i) != 0 {
      ScanEnd(input, i + 1);
    }
  }

  /** What `Scan` yields: the token of each byte from `i` on, none of them EOF, stopping
      exactly at the first 0 byte or at the end of the input. */
  lemma ScanTokens(input: seq<Byte>, i: nat)
    requires LexableFrom(input, i)
    requires i <= |input|
    ensures var tokens := Scan(input, i);
      && i + |tokens| <= |input|
      && (forall j :: i <= j < i + |tokens| ==> input[j] != 0 && CanLex(input[j]))
      && (forall k :: 0 <= k < |tokens| ==> tokens[k] == TokenFor(input[i + k]) && tokens[k].tokenType != EOF)
      && (i + |tokens| < |input| ==> input[i + |tokens|] == 0)
  {
    ScanEnd(input, i);
    var tokens := Scan(input, i);
    forall k | 0 <= k < |tokens|
      ensures CanLex(input[i + k]) && tokens[k] == TokenFor(input[i + k])
    {
      ScanAt(input, i, k);
    }
    forall j | i <= j < i + |tokens|
      ensures input[j] != 0 && CanLex(input[j])
    {
      ScanAt(input, i, j - i);
    }
  }

  /** On input made only of recognised punctuation, one token per byte. */
  lemma PunctuationOnlyInput(input: seq<Byte>)
    requires forall i :: 0 <= i < |input| ==> input[i] in Punctuation
    ensures LexableFrom(input, 0) && |Scan(input, 0)| == |input|
  {
    AllLexable(input, 0);
    ScanTokens(input, 0);
  }

  /** One step of a drain from a lexable position: a 0 byte ends it; any other byte is the next token,
      and the drain goes on from the next byte. */
  lemma ScanStep(input: seq<Byte>, n: nat)
    requires LexableFrom(input, n)
    ensures CanLex(ByteAt(input, n))
    ensures ByteAt(input, n) == 0 ==> Scan(input, n) == []
    ensures ByteAt(input, n) != 0 ==>
      n < |input| && LexableFrom(input, n + 1) && Scan(input, n) == [TokenFor(input[n])] + Scan(input, n + 1)
  {
  }

  /** Pulls tokens from `lexer` until the first EOF token, which it pulls but does not keep. The
      tokens are those `Scan` gives from the cursor, and the cursor ends one byte past that EOF's byte. */
  method Drain(lexer: Lexer) returns (tokens: seq<Token>)
    requires lexer.Valid() && LexableFrom(lexer.input, lexer.position)
    modifies lexer`position, lexer`readPosition, lexer`ch
    ensures lexer.Valid()
    ensures tokens == Scan(lexer.input, old(lexer.position))
    ensures lexer.position == old(lexer.position) + |tokens| + 1
  {
    var input, start := lexer.input, lexer.position;
    ghost var whole := Scan(input, start);
    tokens := [];
    var pos := start;
    ScanStep(input, pos);
    var token := lexer.NextToken();
    while token.tokenType != EOF
      invariant lexer.Valid() && lexer.input == input
      invariant pos == start + |tokens| && lexer.position == pos + 1
      invariant LexableFrom(input, pos) && token == TokenFor(ByteAt(input, pos))
      invariant tokens + Scan(input, pos) == whole
      decreases |input| - pos
    {
      ScanStep(input, pos);
      ScanStep(input, pos + 1);
      assert tokens + Scan(input, pos) == (tokens + [token]) + Scan(input, pos + 1);
      tokens := tokens + [token];
      pos := pos + 1;
      token := lexer.NextToken();
    }
    ScanStep(input, pos);
  }

  /** Drains a fresh lexer until the first EOF token, as the REPL does with each line. */
  method LexAll(input: seq<Byte>) returns (tokens: seq<Token>)
    requires LexableFrom(input, 0)
    ensures tokens == Scan(input, 0)
  {
    var lexer := new Lexer(input);
    tokens := Drain(lexer);
  }
}
