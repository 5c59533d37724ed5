/** The recursive-descent parser as functions over the token list: each function takes
    the tokens still to read and returns the node it built together with the tokens it
    left, or the message of the error it raised.  The `Parser` class in module Parsing is
    proved to compute exactly these. */
module ParserSpec {
  import opened Wrappers
  import opened Tokens
  import opened Ast

  /** A token list the parser may read: it is closed by an EOF token, so looking one or
      two tokens ahead past a non-EOF token never leaves the list. */
  predicate Valid(ts: seq<Token>) { |ts| > 0 && ts[|ts| - 1].kind == Eof }

  datatype Parsed<T> = Parsed(node: T, rest: seq<Token>)

  /** The outcome of a parse that, when it succeeds, consumed at least one token and left
      a list that can still be read. */
  predicate Progress<T>(ts: seq<Token>, r: Result<Parsed<T>>)
  {
    r.Ok? ==> |r.value.rest| < |ts| && Valid(r.value.rest)
  }

  const UnexpectedToken := "Unexpected token"
  const ConstWithoutValue := "const variables must be initialized"

  /** `consume(kind)`: takes the first token when it has that kind. */
  function Consume(ts: seq<Token>, kind: TokenKind): (r: Result<Parsed<Token>>)
    requires Valid(ts)
    ensures r.Ok? <==> ts[0].kind == kind
    ensures r.Ok? ==> r.value.node == ts[0] && r.value.rest == ts[1..]
    ensures r.Err? ==> r.msg == UnexpectedToken
    ensures kind != Eof ==> Progress(ts, r)
  {
    if ts[0].kind == kind then Ok(Parsed(ts[0], ts[1..])) else Err(UnexpectedToken)
  }

  /** `parseExpr`, which is `parseAssignmentExpr`: a logical expression, optionally
      followed by `=`, a second logical expression and a mandatory `;`. */
  function ParseExpr(ts: seq<Token>): (r: Result<Parsed<Expr>>)
    requires Valid(ts)
    ensures Progress(ts, r)
    decreases |ts|, 13
  {
    var left :- ParseLevel(3, ts);
    if left.rest[0].kind == Assign then
      var right :- ParseLevel(3, left.rest[1..]);
      var semi :- Consume(right.rest, Semicolon);
      Ok(Parsed(Assignment(left.node, right.node), semi.rest))
    else
      Ok(left)
  }

  /** The operator kinds of the four binary levels, tightest first. */
  function LevelOps(n: nat): set<TokenKind>
    requires n <= 3
  {
    match n
    case 0 => {Star, Slash, Modulo, Exponent}
    case 1 => {Plus, Minus}
    case 2 => {Equal, NotEqual, Greater, GreaterEqual, Less, LessEqual}
    case 3 => {And, Or}
  }

  /** The operand of level `n`: the next tighter level, or a unary expression. */
  function Operand(n: nat, ts: seq<Token>): (r: Result<Parsed<Expr>>)
    requires n <= 3 && Valid(ts)
    ensures Progress(ts, r)
    decreases |ts|, 4 + 2 * n
  {
    if n == 0 then ParseUnary(ts) else ParseLevel(n - 1, ts)
  }

  /** One binary level (`parseMultiplicationExpr` for 0, `parseAdditionExpr` for 1,
      `parseEqualityAndComparisonExpr` for 2, `parseLogicalExpr` for 3): an operand
      followed by any number of (operator, operand) pairs, grouped to the left. */
  function ParseLevel(n: nat, ts: seq<Token>): (r: Result<Parsed<Expr>>)
    requires n <= 3 && Valid(ts)
    ensures Progress(ts, r)
    decreases |ts|, 5 + 2 * n
  {
    var first :- Operand(n, ts);
    LevelTail(n, first.node, first.rest)
  }

  /** The loop of a binary level, with `left` the expression built so far. */
  function LevelTail(n: nat, left: Expr, ts: seq<Token>): (r: Result<Parsed<Expr>>)
    requires n <= 3 && Valid(ts)
    ensures r.Ok? ==> |r.value.rest| <= |ts| && Valid(r.value.rest)
    decreases |ts|, 0
  {
    if ts[0].kind in LevelOps(n) then
      var right :- Operand(n, ts[1..]);
      LevelTail(n, Binary(ts[0], left, right.node), right.rest)
    else
      Ok(Parsed(left, ts))
  }

  /** `parseUnaryExpr`: prefix `!` and `-` nest; one postfix `++` or `--` may follow a
      primary expression. */
  function ParseUnary(ts: seq<Token>): (r: Result<Parsed<Expr>>)
    requires Valid(ts)
    ensures Progress(ts, r)
    decreases |ts|, 3
  {
    if ts[0].kind == Not || ts[0].kind == Minus then
      var operand :- ParseUnary(ts[1..]);
      Ok(Parsed(Unary(ts[0], operand.node), operand.rest))
    else
      var e :- ParsePrimary(ts);
      if e.rest[0].kind == Decrement || e.rest[0].kind == Increment then
        Ok(Parsed(Unary(e.rest[0], e.node), e.rest[1..]))
      else
        Ok(e)
  }

  /** `parsePrimaryExpr` */
  function ParsePrimary(ts: seq<Token>): (r: Result<Parsed<Expr>>)
    requires Valid(ts)
    ensures Progress(ts, r)
    decreases |ts|, 2
  {
    var t := ts[0];
    if t.kind == TokenKind.Delete then ParseDelete(ts)
    else if t.kind == NumberLiteral then Ok(Parsed(NumberLit(t), ts[1..]))
    else if t.kind == StringLiteral then Ok(Parsed(StringLit(t), ts[1..]))
    else if t.kind == TokenKind.Identifier then ParseIdentifierExpr(ts)
    else if t.kind == OpenParen then
      var e :- ParseExpr(ts[1..]);
      var close :- Consume(e.rest, CloseParen);
      Ok(Parsed(e.node, close.rest))
    else if t.kind == OpenBrace then
      var b :- ParseBlock(ts);
      Ok(Parsed(Block(b.node), b.rest))
    else Err(UnexpectedToken)
  }

  /** `parseDeleteExpr`: DELETE, a name and `;`. */
  function ParseDelete(ts: seq<Token>): (r: Result<Parsed<Expr>>)
    requires Valid(ts)
    ensures Progress(ts, r)
  {
    var kw :- Consume(ts, TokenKind.Delete);
    var name :- Consume(kw.rest, TokenKind.Identifier);
    var semi :- Consume(name.rest, Semicolon);
    Ok(Parsed(Expr.Delete(name.node), semi.rest))
  }

  /** `parseBlockStatement`: `{`, expressions up to the next `}` at this level, `}`.  The
      node is the list of the block's expressions. */
  function ParseBlock(ts: seq<Token>): (r: Result<Parsed<seq<Expr>>>)
    requires Valid(ts)
    ensures Progress(ts, r)
    decreases |ts|, 0
  {
    var open :- Consume(ts, OpenBrace);
    BlockBody(open.rest, [])
  }

  /** The loop of `parseBlockStatement`, with `body` the expressions read so far. */
  function BlockBody(ts: seq<Token>, body: seq<Expr>): (r: Result<Parsed<seq<Expr>>>)
    requires Valid(ts)
    ensures Progress(ts, r)
    decreases |ts|, 14
  {
    if ts[0].kind == CloseBrace then Ok(Parsed(body, ts[1..]))
    else
      var e :- ParseExpr(ts);
      BlockBody(e.rest, body + [e.node])
  }

  /** The loop over a function's parameter names, up to (not including) `)`: each must be
      an identifier, and a comma after it is optional. */
  function Params(ts: seq<Token>, params: seq<Token>): (r: Result<Parsed<seq<Token>>>)
    requires Valid(ts)
    ensures r.Ok? ==> |r.value.rest| <= |ts| && Valid(r.value.rest)
    decreases |ts|
  {
    if ts[0].kind == CloseParen then Ok(Parsed(params, ts))
    else
      var p :- Consume(ts, TokenKind.Identifier);
      var after := if p.rest[0].kind == Comma then p.rest[1..] else p.rest;
      Params(after, params + [p.node])
  }

  /** The loop over a call's arguments, up to (not including) `)`: each is an expression,
      and a comma after it is optional. */
  function Args(ts: seq<Token>, args: seq<Expr>): (r: Result<Parsed<seq<Expr>>>)
    requires Valid(ts)
    ensures r.Ok? ==> |r.value.rest| <= |ts| && Valid(r.value.rest)
    decreases |ts|, 14
  {
    if ts[0].kind == CloseParen then Ok(Parsed(args, ts))
    else
      var e :- ParseExpr(ts);
      var after := if e.rest[0].kind == Comma then e.rest[1..] else e.rest;
      Args(after, args + [e.node])
  }

  /** `parseIdentifierExpr` on an IDENTIFIER token: keywords are recognised by their text,
      in this order, before the token is taken as a name. */
  function ParseIdentifierExpr(ts: seq<Token>): (r: Result<Parsed<Expr>>)
    requires Valid(ts) && ts[0].kind == TokenKind.Identifier
    ensures Progress(ts, r)
    decreases |ts|, 1
  {
    var text := ts[0].text;
    if text == "null" then Ok(Parsed(NullLit, ts[1..]))
    else if text == "var" || text == "const" then ParseVarDecl(ts)
    else if text == "while" then ParseWhile(ts)
    else if text == "for" then ParseFor(ts)
    else if text == "function" then ParseFunctionDecl(ts)
    else if text == "if" then ParseIf(ts)
    else if ts[1].kind == OpenParen then ParseCall(ts)
    else if text == "return" then
      var e :- ParseExpr(ts[1..]);
      var semi :- Consume(e.rest, Semicolon);
      Ok(Parsed(Return(e.node), semi.rest))
    else if text == "true" || text == "false" then Ok(Parsed(BooleanLit(ts[0]), ts[1..]))
    else if ts[1].kind == Semicolon then Ok(Parsed(Expr.Identifier(ts[0]), ts[2..]))
    else Ok(Parsed(Expr.Identifier(ts[0]), ts[1..]))
  }

  /** `var` or `const`, a name, then `= expr ;` or `;` (the latter refused for `const`). */
  function ParseVarDecl(ts: seq<Token>): (r: Result<Parsed<Expr>>)
    requires Valid(ts) && ts[0].kind == TokenKind.Identifier
    ensures Progress(ts, r)
    decreases |ts|, 0
  {
    var isConst := ts[0].text == "const";
    var name :- Consume(ts[1..], TokenKind.Identifier);
    var t := name.rest;
    if t[0].kind == Assign then
      assert |t| > 1 && Valid(t[1..]);
      var value :- ParseExpr(t[1..]);
      var semi :- Consume(value.rest, Semicolon);
      Ok(Parsed(VarDecl(name.node, value.node, isConst), semi.rest))
    else if t[0].kind == Semicolon && isConst then
      Err(ConstWithoutValue)
    else
      var semi :- Consume(t, Semicolon);
      Ok(Parsed(VarDecl(name.node, EmptyStmt, isConst), semi.rest))
  }

  /** `while ( expr ) block` */
  function ParseWhile(ts: seq<Token>): (r: Result<Parsed<Expr>>)
    requires Valid(ts) && ts[0].kind == TokenKind.Identifier
    ensures Progress(ts, r)
    decreases |ts|, 0
  {
    var open :- Consume(ts[1..], OpenParen);
    var cond :- ParseExpr(open.rest);
    var close :- Consume(cond.rest, CloseParen);
    var body :- ParseBlock(close.rest);
    Ok(Parsed(While(cond.node, Block(body.node)), body.rest))
  }

  /** `for ( clauses ) block` */
  function ParseFor(ts: seq<Token>): (r: Result<Parsed<Expr>>)
    requires Valid(ts) && ts[0].kind == TokenKind.Identifier
    ensures Progress(ts, r)
    decreases |ts|, 0
  {
    var open :- Consume(ts[1..], OpenParen);
    var clauses :- ForClauses(open.rest);
    var close :- Consume(clauses.rest, CloseParen);
    var body :- ParseBlock(close.rest);
    var (init, cond, update) := clauses.node;
    Ok(Parsed(For(init, cond, update, Block(body.node)), body.rest))
  }

  /** The three clauses of a `for` header, `expr expr ; expr`: the init expression brings
      its own `;`. */
  function ForClauses(ts: seq<Token>): (r: Result<Parsed<(Expr, Expr, Expr)>>)
    requires Valid(ts)
    ensures Progress(ts, r)
    decreases |ts|, 14
  {
    var init :- ParseExpr(ts);
    var cond :- ParseExpr(init.rest);
    var semi :- Consume(cond.rest, Semicolon);
    var update :- ParseExpr(semi.rest);
    Ok(Parsed((init.node, cond.node, update.node), update.rest))
  }

  /** `function name ( params ) block` */
  function ParseFunctionDecl(ts: seq<Token>): (r: Result<Parsed<Expr>>)
    requires Valid(ts) && ts[0].kind == TokenKind.Identifier
    ensures Progress(ts, r)
    decreases |ts|, 0
  {
    var name :- Consume(ts[1..], TokenKind.Identifier);
    var open :- Consume(name.rest, OpenParen);
    var params :- Params(open.rest, []);
    var close :- Consume(params.rest, CloseParen);
    var body :- ParseBlock(close.rest);
    Ok(Parsed(FunctionDecl(name.node, params.node, body.node), body.rest))
  }

  /** `if ( expr ) block`, then `else block` when the next token's text is `else`. */
  function ParseIf(ts: seq<Token>): (r: Result<Parsed<Expr>>)
    requires Valid(ts) && ts[0].kind == TokenKind.Identifier
    ensures Progress(ts, r)
    decreases |ts|, 0
  {
    var open :- Consume(ts[1..], OpenParen);
    var cond :- ParseExpr(open.rest);
    var close :- Consume(cond.rest, CloseParen);
    var thenBody :- ParseBlock(close.rest);
    var elseBody :- ElseBranch(thenBody.rest);
    Ok(Parsed(If(cond.node, Block(thenBody.node), elseBody.node), elseBody.rest))
  }

  /** What follows the then-block of an `if`: `else block` when the next token's text is
      `else`, nothing otherwise. */
  function ElseBranch(ts: seq<Token>): (r: Result<Parsed<Option<Expr>>>)
    requires Valid(ts)
    ensures r.Ok? ==> |r.value.rest| <= |ts| && Valid(r.value.rest)
    decreases |ts|, 14
  {
    if ts[0].text == "else" then
      var kw :- Consume(ts, TokenKind.Identifier);
      var elseBody :- ParseBlock(kw.rest);
      Ok(Parsed(Some(Block(elseBody.node)), elseBody.rest))
    else Ok(Parsed(None, ts))
  }

  /** `name ( args )`, then an optional `;`. */
  function ParseCall(ts: seq<Token>): (r: Result<Parsed<Expr>>)
    requires Valid(ts) && ts[0].kind == TokenKind.Identifier
    ensures Progress(ts, r)
    decreases |ts|, 0
  {
    var open :- Consume(ts[1..], OpenParen);
    var args :- Args(open.rest, []);
    var close :- Consume(args.rest, CloseParen);
    Ok(Parsed(FunctionCall(ts[0], args.node), SkipSemicolon(close.rest)))
  }

  /** The tokens after an optional `;`. */
  function SkipSemicolon(ts: seq<Token>): (r: seq<Token>)
    requires Valid(ts)
    ensures |r| <= |ts| && Valid(r)
  {
    if ts[0].kind == Semicolon then ts[1..] else ts
  }

  /** The loop of `produceAST`, with `body` the top-level expressions read so far. */
  function ProgramBody(ts: seq<Token>, body: seq<Expr>): Result<Program>
    requires Valid(ts)
    decreases |ts|
  {
    if ts[0].kind == Eof then Ok(Program(body))
    else
      var e :- ParseExpr(ts);
      ProgramBody(e.rest, body + [e.node])
  }

  /** `produceAST` */
  function ProduceAst(ts: seq<Token>): Result<Program>
    requires Valid(ts)
  {
    ProgramBody(ts, [])
  }
}
