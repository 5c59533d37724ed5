/** The syntax tree the parser builds: the expression nodes and the statement nodes the
    interpreter reads, as one closed datatype. */
module Ast {
  import opened Wrappers
  import opened Tokens

  datatype Expr =
    | NumberLit(token: Token)
    | StringLit(token: Token)
    | BooleanLit(token: Token)
    | NullLit
    | Identifier(name: Token)
    | Delete(name: Token)
    | Assignment(left: Expr, right: Expr)
      /** the operator token comes first, as in the source's node */
    | Binary(operator: Token, left: Expr, right: Expr)
    | Unary(operator: Token, operand: Expr)
    | FunctionCall(name: Token, args: seq<Expr>)
    | Block(statements: seq<Expr>)
    | VarDecl(name: Token, initializer: Expr, isConst: bool)
    | If(condition: Expr, thenBranch: Expr, elseBranch: Option<Expr>)
    | While(condition: Expr, body: Expr)
    | For(init: Expr, condition: Expr, update: Expr, body: Expr)
      /** the statements of the function's block */
    | FunctionDecl(name: Token, params: seq<Token>, statements: seq<Expr>)
    | Return(argument: Expr)
    | EmptyStmt

  datatype Program = Program(body: seq<Expr>)
}
