/** Tokens as the tokenizer produces them. */
module Tokens {
  import opened Wrappers

  /** The token categories the classifier and the scanner assign. */
  datatype TokenType =
    | Number
    | StringLit
    | IdKeyword
    | Semicolon
    | LBrace
    | RBrace
    | LBracket
    | RBracket
    | Comma
    | Colon
    | Assign
    | MathOp
    | RelOp
    | FcHeader

  /** A lexeme with the file and 1-based line it came from.  `ty` is `None`
      when the classifier knows no type for the lexeme. */
  datatype Token = Token(lexeme: string, file: string, line: int, ty: Option<TokenType>)
}
