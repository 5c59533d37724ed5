/** The parser as the source writes it: a recursive descent over a token list held in a
    field and consumed from the front, with while-loops for the binary levels, blocks,
    parameter and argument lists and the program body.  Every method is proved to do what
    the function of the same name in module ParserSpec says. */
module Parsing {
  import opened Wrappers
  import opened Tokens
  import opened Ast
  import opened ParserSpec

  /** A method's outcome `r`, with `rest` the tokens it left, is the one `spec` gives. */
  predicate Agrees<T(==)>(spec: Result<Parsed<T>>, r: Result<T>, rest: seq<Token>)
  {
    match spec
    case Ok(p) => r == Ok(p.node) && rest == p.rest
    case Err(m) => r == Err(m)
  }

  class Parser {
    var tokens: seq<Token>

    constructor(tokens: seq<Token>)
      ensures this.tokens == tokens
    {
      this.tokens := tokens;
    }

    function Peek(index: nat): Token
      reads this
      requires index < |tokens|
    {
      tokens[index]
    }

    predicate IsAtEnd()
      reads this
      requires |tokens| > 0
    {
      tokens[0].kind == Eof
    }

    /** `tokens.shift()` */
    method Advance() returns (t: Token)
      requires |tokens| > 0
      modifies this
      ensures t == old(tokens)[0] && tokens == old(tokens)[1..]
    {
      t := tokens[0];
      tokens := tokens[1..];
    }

    method Consume(kind: TokenKind) returns (r: Result<Token>)
      requires Valid(tokens)
      modifies this
      ensures Agrees(ParserSpec.Consume(old(tokens), kind), r, tokens)
    {
      if Peek(0).kind == kind {
        var t := Advance();
        return Ok(t);
      }
      return Err(UnexpectedToken);
    }

    method ParseExpr() returns (r: Result<Expr>)
      requires Valid(tokens)
      modifies this
      ensures Agrees(ParserSpec.ParseExpr(old(tokens)), r, tokens)
      decreases |tokens|, 15
    {
      r := ParseAssignmentExpr();
    }

    method ParseAssignmentExpr() returns (r: Result<Expr>)
      requires Valid(tokens)
      modifies this
      ensures Agrees(ParserSpec.ParseExpr(old(tokens)), r, tokens)
      decreases |tokens|, 14
    {
      var expr :- ParseLogicalExpr();
      if Peek(0).kind == Assign {
        var assign := Advance();
        var value :- ParseLogicalExpr();
        var semi :- Consume(Semicolon);
        return Ok(Assignment(expr, value));
      }
      return Ok(expr);
    }

    method ParseLogicalExpr() returns (r: Result<Expr>)
      requires Valid(tokens)
      modifies this
      ensures Agrees(ParseLevel(3, old(tokens)), r, tokens)
      decreases |tokens|, 13
    {
      ghost var t0 := tokens;
      var expr :- ParseEqualityAndComparisonExpr();
      while Peek(0).kind == And || Peek(0).kind == Or
        invariant Valid(tokens) && |tokens| < |t0|
        invariant ParseLevel(3, t0) == LevelTail(3, expr, tokens)
        decreases |tokens|
      {
        var operator := Advance();
        var right :- ParseEqualityAndComparisonExpr();
        expr := Binary(operator, expr, right);
      }
      return Ok(expr);
    }

    method ParseEqualityAndComparisonExpr() returns (r: Result<Expr>)
      requires Valid(tokens)
      modifies this
      ensures Agrees(ParseLevel(2, old(tokens)), r, tokens)
      decreases |tokens|, 12
    {
      ghost var t0 := tokens;
      var expr :- ParseAdditionExpr();
      while Peek(0).kind in {Equal, NotEqual, Greater, GreaterEqual, Less, LessEqual}
        invariant Valid(tokens) && |tokens| < |t0|
        invariant ParseLevel(2, t0) == LevelTail(2, expr, tokens)
        decreases |tokens|
      {
        var operator := Advance();
        var right :- ParseAdditionExpr();
        expr := Binary(operator, expr, right);
      }
      return Ok(expr);
    }

    method ParseAdditionExpr() returns (r: Result<Expr>)
      requires Valid(tokens)
      modifies this
      ensures Agrees(ParseLevel(1, old(tokens)), r, tokens)
      decreases |tokens|, 11
    {
      ghost var t0 := tokens;
      var expr :- ParseMultiplicationExpr();
      while Peek(0).kind == Plus || Peek(0).kind == Minus
        invariant Valid(tokens) && |tokens| < |t0|
        invariant ParseLevel(1, t0) == LevelTail(1, expr, tokens)
        decreases |tokens|
      {
        var operator := Advance();
        var right :- ParseMultiplicationExpr();
        expr := Binary(operator, expr, right);
      }
      return Ok(expr);
    }

    method ParseMultiplicationExpr() returns (r: Result<Expr>)
      requires Valid(tokens)
      modifies this
      ensures Agrees(ParseLevel(0, old(tokens)), r, tokens)
      decreases |tokens|, 10
    {
      ghost var t0 := tokens;
      var expr :- ParseUnaryExpr();
      while Peek(0).kind in {Star, Slash, Modulo, Exponent}
        invariant Valid(tokens) && |tokens| < |t0|
        invariant ParseLevel(0, t0) == LevelTail(0, expr, tokens)
        decreases |tokens|
      {
        var operator := Advance();
        var right :- ParseUnaryExpr();
        expr := Binary(operator, expr, right);
      }
      return Ok(expr);
    }

    method ParseUnaryExpr() returns (r: Result<Expr>)
      requires Valid(tokens)
      modifies this
      ensures Agrees(ParserSpec.ParseUnary(old(tokens)), r, tokens)
      decreases |tokens|, 9
    {
      if Peek(0).kind == Not || Peek(0).kind == Minus {
        var operator := Advance();
        var operand :- ParseUnaryExpr();
        return Ok(Unary(operator, operand));
      }
      var expr :- ParsePrimaryExpr();
      if Peek(0).kind == Decrement || Peek(0).kind == Increment {
        var operator := Advance();
        return Ok(Unary(operator, expr));
      }
      return Ok(expr);
    }

    method ParsePrimaryExpr() returns (r: Result<Expr>)
      requires Valid(tokens)
      modifies this
      ensures Agrees(ParserSpec.ParsePrimary(old(tokens)), r, tokens)
      decreases |tokens|, 8
    {
      var kind := Peek(0).kind;
      if kind == TokenKind.Delete {
        r := ParseDeleteExpr();
        return;
      }
      if kind == NumberLiteral {
        var t := Advance();
        return Ok(NumberLit(t));
      }
      if kind == StringLiteral {
        var t := Advance();
        return Ok(StringLit(t));
      }
      if kind == TokenKind.Identifier {
        r := ParseIdentifierExpr();
        return;
      }
      if kind == OpenParen {
        var open := Advance();
        var expr :- ParseExpr();
        var close :- Consume(CloseParen);
        return Ok(expr);
      }
      if kind == OpenBrace {
        var body :- ParseBlockStatement();
        return Ok(Block(body));
      }
      return Err(UnexpectedToken);
    }

    method ParseDeleteExpr() returns (r: Result<Expr>)
      requires Valid(tokens)
      modifies this
      ensures Agrees(ParserSpec.ParseDelete(old(tokens)), r, tokens)
    {
      var keyword :- Consume(TokenKind.Delete);
      var name :- Consume(TokenKind.Identifier);
      var semi :- Consume(Semicolon);
      return Ok(Expr.Delete(name));
    }

    /** Gives the statements of the block. */
    method ParseBlockStatement() returns (r: Result<seq<Expr>>)
      requires Valid(tokens)
      modifies this
      ensures Agrees(ParseBlock(old(tokens)), r, tokens)
      decreases |tokens|, 6
    {
      ghost var t0 := tokens;
      var body: seq<Expr> := [];
      var open :- Consume(OpenBrace);
      while Peek(0).kind != CloseBrace
        invariant Valid(tokens) && |tokens| < |t0|
        invariant ParseBlock(t0) == BlockBody(tokens, body)
        decreases |tokens|
      {
        var e :- ParseExpr();
        body := body + [e];
      }
      var close := Advance();
      return Ok(body);
    }

    method ParseIdentifierExpr() returns (r: Result<Expr>)
      requires Valid(tokens) && tokens[0].kind == TokenKind.Identifier
      modifies this
      ensures Agrees(ParserSpec.ParseIdentifierExpr(old(tokens)), r, tokens)
      decreases |tokens|, 7
    {
      var text := Peek(0).text;
      if text == "null" {
        var keyword := Advance();
        return Ok(NullLit);
      }
      if text == "var" || text == "const" {
        r := ParseVarDecl();
        return;
      }
      if text == "while" {
        r := ParseWhile();
        return;
      }
      if text == "for" {
        r := ParseFor();
        return;
      }
      if text == "function" {
        r := ParseFunctionDecl();
        return;
      }
      if text == "if" {
        r := ParseIf();
        return;
      }
      if Peek(1).kind == OpenParen {
        r := ParseCall();
        return;
      }
      if text == "return" {
        var keyword := Advance();
        var value :- ParseExpr();
        var semi :- Consume(Semicolon);
        return Ok(Return(value));
      }
      if text == "true" || text == "false" {
        var t := Advance();
        return Ok(BooleanLit(t));
      }
      if Peek(1).kind == Semicolon {
        var name := Advance();
        var semi := Advance();
        return Ok(Expr.Identifier(name));
      }
      var name := Advance();
      return Ok(Expr.Identifier(name));
    }

    method ParseVarDecl() returns (r: Result<Expr>)
      requires Valid(tokens) && tokens[0].kind == TokenKind.Identifier
      modifies this
      ensures Agrees(ParserSpec.ParseVarDecl(old(tokens)), r, tokens)
      decreases |tokens|, 6
    {
      var keyword := Advance();
      var name :- Consume(TokenKind.Identifier);
      if Peek(0).kind == Assign {
        var assign := Advance();
        var value :- ParseExpr();
        var semi :- Consume(Semicolon);
        return Ok(VarDecl(name, value, keyword.text == "const"));
      } else if Peek(0).kind == Semicolon && keyword.text == "const" {
        return Err(ConstWithoutValue);
      }
      var semi :- Consume(Semicolon);
      return Ok(VarDecl(name, EmptyStmt, keyword.text == "const"));
    }

    method ParseWhile() returns (r: Result<Expr>)
      requires Valid(tokens) && tokens[0].kind == TokenKind.Identifier
      modifies this
      ensures Agrees(ParserSpec.ParseWhile(old(tokens)), r, tokens)
      decreases |tokens|, 6
    {
      var keyword := Advance();
      var open :- Consume(OpenParen);
      var condition :- ParseExpr();
      var close :- Consume(CloseParen);
      var body :- ParseBlockStatement();
      return Ok(While(condition, Block(body)));
    }

    method ParseFor() returns (r: Result<Expr>)
      requires Valid(tokens) && tokens[0].kind == TokenKind.Identifier
      modifies this
      ensures Agrees(ParserSpec.ParseFor(old(tokens)), r, tokens)
      decreases |tokens|, 6
    {
      var keyword := Advance();
      var open :- Consume(OpenParen);
      ghost var t1 := tokens;
      var start :- ParseExpr();
      var condition :- ParseExpr();
      var semi :- Consume(Semicolon);
      var increment :- ParseExpr();
      assert ForClauses(t1) == Ok(Parsed((start, condition, increment), tokens));
      var close :- Consume(CloseParen);
      var body :- ParseBlockStatement();
      return Ok(For(start, condition, increment, Block(body)));
    }

    method ParseFunctionDecl() returns (r: Result<Expr>)
      requires Valid(tokens) && tokens[0].kind == TokenKind.Identifier
      modifies this
      ensures Agrees(ParserSpec.ParseFunctionDecl(old(tokens)), r, tokens)
      decreases |tokens|, 6
    {
      var keyword := Advance();
      var name :- Consume(TokenKind.Identifier);
      var open :- Consume(OpenParen);
      ghost var t1 := tokens;
      var params: seq<Token> := [];
      while Peek(0).kind != CloseParen
        invariant Valid(tokens) && |tokens| <= |t1|
        invariant Params(t1, []) == Params(tokens, params)
        decreases |tokens|
      {
        var p :- Consume(TokenKind.Identifier);
        params := params + [p];
        if Peek(0).kind == Comma {
          var comma := Advance();
        }
      }
      var close := Advance();
      var body :- ParseBlockStatement();
      return Ok(FunctionDecl(name, params, body));
    }

    method ParseIf() returns (r: Result<Expr>)
      requires Valid(tokens) && tokens[0].kind == TokenKind.Identifier
      modifies this
      ensures Agrees(ParserSpec.ParseIf(old(tokens)), r, tokens)
      decreases |tokens|, 6
    {
      var keyword := Advance();
      var open :- Consume(OpenParen);
      var condition :- ParseExpr();
      var close :- Consume(CloseParen);
      var body :- ParseBlockStatement();
      if Peek(0).text == "else" {
        var elseKeyword :- Consume(TokenKind.Identifier);
        var elseBody :- ParseBlockStatement();
        return Ok(If(condition, Block(body), Some(Block(elseBody))));
      }
      return Ok(If(condition, Block(body), None));
    }

    method ParseCall() returns (r: Result<Expr>)
      requires Valid(tokens) && tokens[0].kind == TokenKind.Identifier
      modifies this
      ensures Agrees(ParserSpec.ParseCall(old(tokens)), r, tokens)
      decreases |tokens|, 6
    {
      var name := Advance();
      var open :- Consume(OpenParen);
      ghost var t1 := tokens;
      var args: seq<Expr> := [];
      while Peek(0).kind != CloseParen
        invariant Valid(tokens) && |tokens| <= |t1| < |old(tokens)|
        invariant Args(t1, []) == Args(tokens, args)
        decreases |tokens|
      {
        var arg :- ParseExpr();
        args := args + [arg];
        if Peek(0).kind == Comma {
          var comma := Advance();
        }
      }
      var close := Advance();
      if Peek(0).kind == Semicolon {
        var semi := Advance();
      }
      return Ok(FunctionCall(name, args));
    }

    /** Parses top-level expressions until EOF. */
    method ProduceAst() returns (r: Result<Program>)
      requires Valid(tokens)
      modifies this
      ensures r == ParserSpec.ProduceAst(old(tokens))
    {
      ghost var t0 := tokens;
      var body: seq<Expr> := [];
      while !IsAtEnd()
        invariant Valid(tokens) && ProgramBody(tokens, body) == ParserSpec.ProduceAst(t0)
        decreases |tokens|
      {
        var e :- ParseExpr();
        body := body + [e];
      }
      return Ok(Program(body));
    }
  }

  /** `new Parser(tokens).produceAST()` on a token list closed by EOF. */
  method ParseTokens(ts: seq<Token>) returns (r: Result<Program>)
    requires Valid(ts)
    ensures r == ProduceAst(ts)
  {
    var parser := new Parser(ts);
    r := parser.ProduceAst();
  }
}
