/** Tokens as the lexer produces them and the parser consumes them. */
module Tokens {

  datatype TokenKind =
    | NumberLiteral | StringLiteral | BooleanLiteral | Identifier | Delete
    | Plus | PlusAssign | Increment
    | Minus | MinusAssign | Decrement
    | Star | StarAssign | Exponent
    | Slash | SlashAssign
    | Modulo | ModuloAssign
    | Assign | Equal | Not | NotEqual
    | Greater | GreaterEqual | Less | LessEqual
    | And | Or
    | OpenParen | CloseParen | OpenBrace | CloseBrace | OpenBracket | CloseBracket
    | Comma | Dot | Colon | Semicolon
    | Eof

  /** `Token{type, value, lineNumber}`: the kind, the token's text and the line it was read on. */
  datatype Token = Token(kind: TokenKind, text: string, line: nat)
}
