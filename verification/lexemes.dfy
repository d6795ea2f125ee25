/** The token categories of C-simple and the lexeme a scanner step returns (scanner.py, `Token` and `Lexeme`). */
module Lexemes {

  /** One constructor per member of the source's `Token` enumeration, in its order. */
  datatype Token =
    | LPar | RPar | LBrace | RBrace
    | Id | Num
    | Assign | Eq | Gt | Lt
    | Plus | Minus | Mul
    | Semi
    | Ignore
    | If | Else | For | Int

  /** A token category together with the exact text it was matched from. */
  datatype Lexeme = Lexeme(token: Token, value: string)
}
