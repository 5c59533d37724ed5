/** What the parser promises, proved about the functions of module ParserSpec (and so
    about the `Parser` class, which computes them). */
module ParserProperties {
  import opened Wrappers
  import opened Tokens
  import opened Ast
  import opened ParserSpec

  /** `kind` is an operator of none of the levels 0 .. k. */
  predicate OutsideLevels(kind: TokenKind, k: nat)
    requires k <= 3
  {
    kind !in LevelOps(k) && (k == 0 || OutsideLevels(kind, k - 1))
  }

  /** A token that ends an expression: no binary operator, no postfix operator, no `=`. */
  predicate Ends(t: Token)
  {
    OutsideLevels(t.kind, 3) && t.kind !in {Increment, Decrement, Assign}
  }

  lemma LevelsDisjoint(kind: TokenKind, n: nat)
    requires 0 < n <= 3 && kind in LevelOps(n)
    ensures OutsideLevels(kind, n - 1)
  {
  }

  lemma {:induction false} OutsideLower(kind: TokenKind, k: nat, j: nat)
    requires j <= k <= 3 && OutsideLevels(kind, k)
    ensures OutsideLevels(kind, j)
    decreases k
  {
    if j < k { OutsideLower(kind, k - 1, j); }
  }

  /** A unary expression followed by a token of no level up to `k` is all that level `k`
      reads, and a failing unary expression makes level `k` fail the same way. */
  lemma {:induction false} UnaryAtLevel(k: nat, ts: seq<Token>)
    requires k <= 3 && Valid(ts)
    ensures ParseUnary(ts).Err? ==> ParseLevel(k, ts) == ParseUnary(ts)
    ensures ParseUnary(ts).Ok? && OutsideLevels(ParseUnary(ts).value.rest[0].kind, k) ==>
              ParseLevel(k, ts) == ParseUnary(ts)
  {
    if k > 0 {
      UnaryAtLevel(k - 1, ts);
    }
    assert Operand(k, ts) == if k == 0 then ParseUnary(ts) else ParseLevel(k - 1, ts);
  }

  /** Likewise for a whole expression statement: the unary expression is all of it. */
  lemma UnaryIsExpr(ts: seq<Token>)
    requires Valid(ts)
    ensures ParseUnary(ts).Err? ==> ParseExpr(ts) == ParseUnary(ts)
    ensures ParseUnary(ts).Ok? && Ends(ParseUnary(ts).value.rest[0]) ==>
              ParseExpr(ts) == ParseUnary(ts)
  {
    UnaryAtLevel(3, ts);
  }

  lemma LiteralAtLevel(k: nat, a: Token, rest: seq<Token>)
    requires k <= 3 && a.kind == NumberLiteral && Valid(rest)
    requires rest[0].kind !in {Increment, Decrement} && OutsideLevels(rest[0].kind, k)
    ensures ParseLevel(k, [a] + rest) == Ok(Parsed(NumberLit(a), rest))
  {
    var ts := [a] + rest;
    assert ts[1..] == rest;
    assert ParseUnary(ts) == Ok(Parsed(NumberLit(a), rest));
    UnaryAtLevel(k, ts);
  }

  /** A number literal is the whole operand of level `n` when the next token is no
      operator of a tighter level. */
  lemma OperandLiteral(n: nat, a: Token, rest: seq<Token>)
    requires n <= 3 && a.kind == NumberLiteral && Valid(rest)
    requires rest[0].kind !in {Increment, Decrement}
    requires n == 0 || OutsideLevels(rest[0].kind, n - 1)
    ensures Operand(n, [a] + rest) == Ok(Parsed(NumberLit(a), rest))
  {
    var ts := [a] + rest;
    assert ts[1..] == rest;
    if n > 0 {
      LiteralAtLevel(n - 1, a, rest);
    } else {
      assert ParseUnary(ts) == Ok(Parsed(NumberLit(a), rest));
    }
  }

  /** The loop of a level stops at a token that is not one of its operators. */
  lemma TailStops(n: nat, left: Expr, ts: seq<Token>)
    requires n <= 3 && Valid(ts) && ts[0].kind !in LevelOps(n)
    ensures LevelTail(n, left, ts) == Ok(Parsed(left, ts))
  {
  }

  /** The loop of a level takes one more operator of its own and a literal operand. */
  lemma TailTakesLiteral(n: nat, left: Expr, op: Token, b: Token, rest: seq<Token>)
    requires n <= 3 && op.kind in LevelOps(n) && b.kind == NumberLiteral && Valid(rest)
    requires rest[0].kind !in {Increment, Decrement}
    requires n == 0 || OutsideLevels(rest[0].kind, n - 1)
    ensures LevelTail(n, left, [op, b] + rest) ==
            LevelTail(n, Binary(op, left, NumberLit(b)), rest)
  {
    var ts := [op, b] + rest;
    assert ts[1..] == [b] + rest;
    OperandLiteral(n, b, rest);
  }

  /** Start of a level on a literal followed by one of its operators. */
  lemma LevelStartsWithLiteral(n: nat, a: Token, ts: seq<Token>)
    requires n <= 3 && a.kind == NumberLiteral && Valid(ts) && ts[0].kind in LevelOps(n)
    ensures ParseLevel(n, [a] + ts) == LevelTail(n, NumberLit(a), ts)
  {
    if n > 0 { LevelsDisjoint(ts[0].kind, n); }
    OperandLiteral(n, a, ts);
  }

  /** `a op b` at the level of `op`, for number literals `a` and `b`. */
  lemma SingleBinary(n: nat, a: Token, op: Token, b: Token, rest: seq<Token>)
    requires n <= 3 && a.kind == NumberLiteral && b.kind == NumberLiteral && op.kind in LevelOps(n)
    requires Valid(rest) && rest[0].kind !in {Increment, Decrement} && OutsideLevels(rest[0].kind, n)
    ensures ParseLevel(n, [a, op, b] + rest) == Ok(Parsed(Binary(op, NumberLit(a), NumberLit(b)), rest))
  {
    var t1 := [op, b] + rest;
    assert [a, op, b] + rest == [a] + t1;
    if n > 0 { OutsideLower(rest[0].kind, n, n - 1); }
    LevelStartsWithLiteral(n, a, t1);
    TailTakesLiteral(n, NumberLit(a), op, b, rest);
    TailStops(n, Binary(op, NumberLit(a), NumberLit(b)), rest);
  }

  lemma {:induction false} LiftLevel(n: nat, m: nat, ts: seq<Token>)
    requires n <= m <= 3 && Valid(ts)
    requires ParseLevel(n, ts).Ok? && OutsideLevels(ParseLevel(n, ts).value.rest[0].kind, m)
    ensures ParseLevel(m, ts) == ParseLevel(n, ts)
    decreases m
  {
    if n < m {
      OutsideLower(ParseLevel(n, ts).value.rest[0].kind, m, m - 1);
      LiftLevel(n, m - 1, ts);
      assert Operand(m, ts) == ParseLevel(m - 1, ts);
    }
  }

  /** A level's expression that is followed by a token ending every level is the whole
      expression statement. */
  lemma LevelIsExpr(n: nat, ts: seq<Token>)
    requires n <= 3 && Valid(ts) && ParseLevel(n, ts).Ok? && Ends(ParseLevel(n, ts).value.rest[0])
    ensures ParseExpr(ts) == ParseLevel(n, ts)
  {
    LiftLevel(n, 3, ts);
  }

  /** Operators of one level group to the left: `a op1 b op2 c` is `(a op1 b) op2 c`. */
  lemma SameLevelGroupsLeft(n: nat, a: Token, op1: Token, b: Token, op2: Token, c: Token,
                            rest: seq<Token>)
    requires n <= 3 && a.kind == NumberLiteral && b.kind == NumberLiteral && c.kind == NumberLiteral
    requires op1.kind in LevelOps(n) && op2.kind in LevelOps(n)
    requires Valid(rest) && Ends(rest[0])
    ensures ParseExpr([a, op1, b, op2, c] + rest) ==
            Ok(Parsed(Binary(op2, Binary(op1, NumberLit(a), NumberLit(b)), NumberLit(c)), rest))
  {
    var ts := [a, op1, b, op2, c] + rest;
    var t1 := [op1, b, op2, c] + rest;
    var t2 := [op2, c] + rest;
    assert ts == [a] + t1 && t1 == [op1, b] + t2;
    OutsideLower(rest[0].kind, 3, n);
    if n > 0 {
      LevelsDisjoint(op2.kind, n);
      OutsideLower(rest[0].kind, 3, n - 1);
    }
    LevelStartsWithLiteral(n, a, t1);
    TailTakesLiteral(n, NumberLit(a), op1, b, t2);
    TailTakesLiteral(n, Binary(op1, NumberLit(a), NumberLit(b)), op2, c, rest);
    TailStops(n, Binary(op2, Binary(op1, NumberLit(a), NumberLit(b)), NumberLit(c)), rest);
    LevelIsExpr(n, ts);
  }

  /** A tighter operator on the right takes its operands first: with `op2` of a tighter
      level than `op1`, `a op1 b op2 c` is `a op1 (b op2 c)`. */
  lemma TighterRightGroupsFirst(lo: nat, hi: nat, a: Token, op1: Token, b: Token, op2: Token,
                                c: Token, rest: seq<Token>)
    requires hi < lo <= 3
    requires a.kind == NumberLiteral && b.kind == NumberLiteral && c.kind == NumberLiteral
    requires op1.kind in LevelOps(lo) && op2.kind in LevelOps(hi)
    requires Valid(rest) && Ends(rest[0])
    ensures ParseExpr([a, op1, b, op2, c] + rest) ==
            Ok(Parsed(Binary(op1, NumberLit(a), Binary(op2, NumberLit(b), NumberLit(c))), rest))
  {
    var ts := [a, op1, b, op2, c] + rest;
    var t1 := [op1, b, op2, c] + rest;
    var t2 := [b, op2, c] + rest;
    assert ts == [a] + t1 && t1[1..] == t2;
    OutsideLower(rest[0].kind, 3, hi);
    OutsideLower(rest[0].kind, 3, lo - 1);
    LevelStartsWithLiteral(lo, a, t1);
    SingleBinary(hi, b, op2, c, rest);
    LiftLevel(hi, lo - 1, t2);
    assert Operand(lo, t2) == ParseLevel(lo - 1, t2);
    var right := Binary(op2, NumberLit(b), NumberLit(c));
    assert LevelTail(lo, NumberLit(a), t1) == LevelTail(lo, Binary(op1, NumberLit(a), right), rest);
    OutsideLower(rest[0].kind, 3, lo);
    TailStops(lo, Binary(op1, NumberLit(a), right), rest);
    LevelIsExpr(lo, ts);
  }

  /** A tighter operator on the left takes its operands first: with `op1` of a tighter
      level than `op2`, `a op1 b op2 c` is `(a op1 b) op2 c`. */
  lemma TighterLeftGroupsFirst(lo: nat, hi: nat, a: Token, op1: Token, b: Token, op2: Token,
                               c: Token, rest: seq<Token>)
    requires hi < lo <= 3
    requires a.kind == NumberLiteral && b.kind == NumberLiteral && c.kind == NumberLiteral
    requires op1.kind in LevelOps(hi) && op2.kind in LevelOps(lo)
    requires Valid(rest) && Ends(rest[0])
    ensures ParseExpr([a, op1, b, op2, c] + rest) ==
            Ok(Parsed(Binary(op2, Binary(op1, NumberLit(a), NumberLit(b)), NumberLit(c)), rest))
  {
    var ts := [a, op1, b, op2, c] + rest;
    var t2 := [op2, c] + rest;
    assert ts == [a, op1, b] + t2;
    LevelsDisjoint(op2.kind, lo);
    OutsideLower(op2.kind, lo - 1, hi);
    SingleBinary(hi, a, op1, b, t2);
    LiftLevel(hi, lo - 1, ts);
    var left := Binary(op1, NumberLit(a), NumberLit(b));
    assert Operand(lo, ts) == ParseLevel(lo - 1, ts);
    assert ParseLevel(lo, ts) == LevelTail(lo, left, t2);
    OutsideLower(rest[0].kind, 3, lo);
    OutsideLower(rest[0].kind, 3, lo - 1);
    TailTakesLiteral(lo, left, op2, c, rest);
    TailStops(lo, Binary(op2, left, NumberLit(c)), rest);
    LevelIsExpr(lo, ts);
  }

  // ---- program ----------------------------------------------------------------------------

  function PrependBody(prefix: seq<Expr>, r: Result<Program>): Result<Program>
  {
    match r
    case Ok(p) => Ok(Program(prefix + p.body))
    case Err(m) => Err(m)
  }

  lemma {:induction false} ProgramBodyAccumulates(ts: seq<Token>, body: seq<Expr>)
    requires Valid(ts)
    ensures ProgramBody(ts, body) == PrependBody(body, ProgramBody(ts, []))
    decreases |ts|
  {
    if ts[0].kind != Eof {
      var e := ParseExpr(ts);
      if e.Ok? {
        var n := e.value.node;
        assert ProgramBody(ts, body) == ProgramBody(e.value.rest, body + [n]);
        assert ProgramBody(ts, []) == ProgramBody(e.value.rest, [] + [n]);
        ProgramBodyAccumulates(e.value.rest, body + [n]);
        ProgramBodyAccumulates(e.value.rest, [n]);
        assert [] + [n] == [n];
        match ProgramBody(e.value.rest, []) {
          case Ok(q) =>
            assert ProgramBody(e.value.rest, body + [n]) == Ok(Program((body + [n]) + q.body));
            assert ProgramBody(e.value.rest, [n]) == Ok(Program([n] + q.body));
            assert (body + [n]) + q.body == body + ([n] + q.body);
            assert PrependBody(body, Ok(Program([n] + q.body))) == Ok(Program(body + ([n] + q.body)));
          case Err(_) =>
        }
      }
    } else {
      assert body + [] == body;
    }
  }

  /** `produceAST` parses one expression after another until EOF, keeping their order:
      the program is the first expression followed by the program of what it left. */
  lemma ProduceAstCons(ts: seq<Token>)
    requires Valid(ts) && ts[0].kind != Eof
    ensures ProduceAst(ts) ==
            match ParseExpr(ts)
            case Err(m) => Err(m)
            case Ok(p) => PrependBody([p.node], ProduceAst(p.rest))
  {
    var e := ParseExpr(ts);
    if e.Ok? {
      ProgramBodyAccumulates(e.value.rest, [e.value.node]);
      assert [] + [e.value.node] == [e.value.node];
    }
  }

  /** At EOF the program is empty. */
  lemma ProduceAstAtEof(ts: seq<Token>)
    requires Valid(ts) && ts[0].kind == Eof
    ensures ProduceAst(ts) == Ok(Program([]))
  {
  }

  // ---- one layer at a time --------------------------------------------------------------

  lemma PrimaryOfIdentifier(ts: seq<Token>)
    requires Valid(ts) && ts[0].kind == TokenKind.Identifier
    ensures ParsePrimary(ts) == ParseIdentifierExpr(ts)
  {
  }

  /** A primary expression that fails, or that no postfix operator follows, is the whole
      unary expression. */
  lemma UnaryOfPrimary(ts: seq<Token>)
    requires Valid(ts) && ts[0].kind !in {Not, Minus}
    ensures ParsePrimary(ts).Err? ==> ParseUnary(ts) == ParsePrimary(ts)
    ensures ParsePrimary(ts).Ok? && ParsePrimary(ts).value.rest[0].kind !in {Increment, Decrement} ==>
              ParseUnary(ts) == ParsePrimary(ts)
  {
  }

  /** An expression that starts with an IDENTIFIER token and ends before any operator,
      postfix operator or `=`: it is what `parseIdentifierExpr` reads. */
  lemma IdentifierIsExpr(ts: seq<Token>)
    requires Valid(ts) && ts[0].kind == TokenKind.Identifier
    ensures ParseIdentifierExpr(ts).Err? ==> ParseExpr(ts) == ParseIdentifierExpr(ts)
    ensures ParseIdentifierExpr(ts).Ok? && Ends(ParseIdentifierExpr(ts).value.rest[0]) ==>
              ParseExpr(ts) == ParseIdentifierExpr(ts)
  {
    PrimaryOfIdentifier(ts);
    UnaryOfPrimary(ts);
    UnaryIsExpr(ts);
  }

  /** A name that is no keyword and is not followed by `(`. */
  lemma NameNode(ts: seq<Token>)
    requires Valid(ts) && ts[0].kind == TokenKind.Identifier && !IsKeyword(ts[0].text)
    requires ts[1].kind != OpenParen
    ensures ParseIdentifierExpr(ts) ==
            if ts[1].kind == Semicolon then Ok(Parsed(Expr.Identifier(ts[0]), ts[2..]))
            else Ok(Parsed(Expr.Identifier(ts[0]), ts[1..]))
  {
  }

  lemma DeclarationDispatch(ts: seq<Token>)
    requires Valid(ts) && ts[0].kind == TokenKind.Identifier
    requires ts[0].text == "var" || ts[0].text == "const"
    ensures ParseIdentifierExpr(ts) == ParseVarDecl(ts)
  {
  }

  // ---- declarations -----------------------------------------------------------------------

  /** `const x;` is refused. */
  lemma ConstWithoutValueFails(kw: Token, name: Token, semi: Token, rest: seq<Token>)
    requires kw.kind == TokenKind.Identifier && kw.text == "const"
    requires name.kind == TokenKind.Identifier && semi.kind == Semicolon && Valid(rest)
    ensures ParseExpr([kw, name, semi] + rest) == Err(ConstWithoutValue)
  {
    var ts := [kw, name, semi] + rest;
    assert ts[1..] == [name, semi] + rest && ts[1..][1..] == [semi] + rest;
    assert ParseVarDecl(ts) == Err(ConstWithoutValue);
    DeclarationDispatch(ts);
    IdentifierIsExpr(ts);
  }

  /** `var x;` declares `x` with an empty statement as its value. */
  lemma VarWithoutValue(kw: Token, name: Token, semi: Token, rest: seq<Token>)
    requires kw.kind == TokenKind.Identifier && kw.text == "var"
    requires name.kind == TokenKind.Identifier && semi.kind == Semicolon
    requires Valid(rest) && Ends(rest[0])
    ensures ParseExpr([kw, name, semi] + rest) == Ok(Parsed(VarDecl(name, EmptyStmt, false), rest))
  {
    var ts := [kw, name, semi] + rest;
    ThreeTokens(ts, kw, name, semi, rest);
    VarDeclOf(ts, rest);
    DeclarationDispatch(ts);
    IdentifierIsExpr(ts);
  }

  /** How a list that starts with three given tokens splits. */
  lemma ThreeTokens(ts: seq<Token>, a: Token, b: Token, c: Token, rest: seq<Token>)
    requires Valid(rest) && ts == [a, b, c] + rest
    ensures Valid(ts) && ts[0] == a && ts[1..][0] == b && ts[1..][1..][0] == c
    ensures Valid(ts[1..]) && Valid(ts[1..][1..]) && ts[1..][1..][1..] == rest
  {
    assert ts[1..] == [b, c] + rest && ts[1..][1..] == [c] + rest;
  }

  /** `var name ;` once the list is split. */
  lemma VarDeclOf(ts: seq<Token>, rest: seq<Token>)
    requires Valid(ts) && ts[0].kind == TokenKind.Identifier && ts[0].text == "var"
    requires Valid(ts[1..]) && ts[1..][0].kind == TokenKind.Identifier
    requires Valid(ts[1..][1..]) && ts[1..][1..][0].kind == Semicolon && ts[1..][1..][1..] == rest
    ensures ParseVarDecl(ts) == Ok(Parsed(VarDecl(ts[1..][0], EmptyStmt, false), rest))
  {
  }

  /** A declaration with `= expr` succeeds exactly when `;` follows the expression. */
  lemma DeclarationNeedsSemicolon(kw: Token, name: Token, assign: Token, ts: seq<Token>)
    requires kw.kind == TokenKind.Identifier && (kw.text == "var" || kw.text == "const")
    requires name.kind == TokenKind.Identifier && assign.kind == Assign && Valid(ts)
    requires ParseExpr(ts).Ok?
    ensures var p := ParseExpr(ts).value;
            ParseVarDecl([kw, name, assign] + ts) ==
              if p.rest[0].kind == Semicolon
              then Ok(Parsed(VarDecl(name, p.node, kw.text == "const"), p.rest[1..]))
              else Err(UnexpectedToken)
  {
    var all := [kw, name, assign] + ts;
    assert all[1..] == [name, assign] + ts && all[1..][1..] == [assign] + ts;
    assert all[1..][1..][1..] == ts;
  }

  // ---- assignments, names and calls -------------------------------------------------------

  /** Texts the parser treats as keywords when they head an expression. */
  predicate IsKeyword(text: string)
  {
    text in {"null", "var", "const", "while", "for", "function", "if", "return", "true", "false"}
  }

  /** A name that is not followed by `(` or `;` is an identifier node and nothing more. */
  lemma PlainName(x: Token, rest: seq<Token>)
    requires x.kind == TokenKind.Identifier && !IsKeyword(x.text) && Valid(rest)
    requires rest[0].kind !in {OpenParen, Semicolon, Increment, Decrement}
    requires OutsideLevels(rest[0].kind, 3)
    ensures ParseLevel(3, [x] + rest) == Ok(Parsed(Expr.Identifier(x), rest))
  {
    var ts := [x] + rest;
    assert ts[1..] == rest && ts[1] == rest[0];
    NameNode(ts);
    PrimaryOfIdentifier(ts);
    UnaryOfPrimary(ts);
    UnaryAtLevel(3, ts);
  }

  /** A name directly followed by `;` is an identifier node that takes the `;` with it. */
  lemma NameTakesSemicolon(x: Token, semi: Token, rest: seq<Token>)
    requires x.kind == TokenKind.Identifier && !IsKeyword(x.text) && semi.kind == Semicolon
    requires Valid(rest) && Ends(rest[0])
    ensures ParseExpr([x, semi] + rest) == Ok(Parsed(Expr.Identifier(x), rest))
  {
    var ts := [x, semi] + rest;
    assert ts[1] == semi && ts[2..] == rest;
    NameNode(ts);
    IdentifierIsExpr(ts);
  }

  /** Assignment does not chain: `a = b = ...` is refused, since after `a = b` the parser
      demands `;`. */
  lemma AssignmentChainRejected(a: Token, eq1: Token, b: Token, eq2: Token, rest: seq<Token>)
    requires a.kind == TokenKind.Identifier && !IsKeyword(a.text)
    requires b.kind == TokenKind.Identifier && !IsKeyword(b.text)
    requires eq1.kind == Assign && eq2.kind == Assign && Valid(rest)
    ensures ParseExpr([a, eq1, b, eq2] + rest) == Err(UnexpectedToken)
  {
    var ts := [a, eq1, b, eq2] + rest;
    assert ts == [a] + ([eq1, b, eq2] + rest);
    PlainName(a, [eq1, b, eq2] + rest);
    assert ([eq1, b, eq2] + rest)[1..] == [b] + ([eq2] + rest);
    PlainName(b, [eq2] + rest);
  }

  /** Because a name takes the `;` after it, a statement whose last operand is a bare name
      needs a second `;`: `x = y;` alone is refused. */
  lemma AssignedNameTakesSemicolon(x: Token, eq: Token, y: Token, semi: Token, rest: seq<Token>)
    requires x.kind == TokenKind.Identifier && !IsKeyword(x.text)
    requires y.kind == TokenKind.Identifier && !IsKeyword(y.text)
    requires eq.kind == Assign && semi.kind == Semicolon
    requires Valid(rest) && Ends(rest[0]) && rest[0].kind != Semicolon
    ensures ParseExpr([x, eq, y, semi] + rest) == Err(UnexpectedToken)
  {
    var ts := [x, eq, y, semi] + rest;
    var t1 := [eq, y, semi] + rest;
    var t2 := [y, semi] + rest;
    assert ts == [x] + t1 && t1[1..] == t2 && t2 == [y] + ([semi] + rest);
    PlainName(x, t1);
    NameNode(t2);
    assert t2[2..] == rest;
    PrimaryOfIdentifier(t2);
    UnaryOfPrimary(t2);
    UnaryAtLevel(3, t2);
  }

  /** `return expr ;` */
  lemma ReturnDispatch(ts: seq<Token>)
    requires Valid(ts) && ts[0].kind == TokenKind.Identifier && ts[0].text == "return"
    requires ts[1].kind != OpenParen && ParseExpr(ts[1..]).Ok?
    ensures var e := ParseExpr(ts[1..]).value;
            ParseIdentifierExpr(ts) ==
              if e.rest[0].kind == Semicolon then Ok(Parsed(Return(e.node), e.rest[1..]))
              else Err(UnexpectedToken)
  {
  }

  /** For the same reason `return x;` alone is refused. */
  lemma ReturnedNameTakesSemicolon(ret: Token, x: Token, semi: Token, rest: seq<Token>)
    requires ret.kind == TokenKind.Identifier && ret.text == "return"
    requires x.kind == TokenKind.Identifier && !IsKeyword(x.text) && semi.kind == Semicolon
    requires Valid(rest) && Ends(rest[0]) && rest[0].kind != Semicolon
    ensures ParseIdentifierExpr([ret, x, semi] + rest) == Err(UnexpectedToken)
  {
    var ts := [ret, x, semi] + rest;
    assert ts[1..] == [x, semi] + rest && ts[1] == x;
    NameTakesSemicolon(x, semi, rest);
    ReturnDispatch(ts);
  }

  lemma CallDispatch(ts: seq<Token>)
    requires Valid(ts) && ts[0].kind == TokenKind.Identifier && ts[1].kind == OpenParen
    requires ts[0].text !in {"null", "var", "const", "while", "for", "function", "if"}
    ensures ParseIdentifierExpr(ts) == ParseCall(ts)
  {
  }

  /** The call test comes before the `return` test: `return()` is a call of a function
      named `return`. */
  lemma ReturnWithParenIsCall(ret: Token, open: Token, close: Token, rest: seq<Token>)
    requires ret.kind == TokenKind.Identifier && ret.text == "return"
    requires open.kind == OpenParen && close.kind == CloseParen
    requires Valid(rest) && rest[0].kind != Semicolon
    ensures ParseIdentifierExpr([ret, open, close] + rest) == Ok(Parsed(FunctionCall(ret, []), rest))
  {
    var ts := [ret, open, close] + rest;
    ThreeTokens(ts, ret, open, close, rest);
    EmptyCall(ts, rest);
    CallDispatch(ts);
  }

  /** `name ( )` once the list is split. */
  lemma EmptyCall(ts: seq<Token>, rest: seq<Token>)
    requires Valid(ts) && ts[0].kind == TokenKind.Identifier
    requires Valid(ts[1..]) && ts[1..][0].kind == OpenParen
    requires Valid(ts[1..][1..]) && ts[1..][1..][0].kind == CloseParen && ts[1..][1..][1..] == rest
    requires rest[0].kind != Semicolon
    ensures ParseCall(ts) == Ok(Parsed(FunctionCall(ts[0], []), rest))
  {
    assert Args(ts[1..][1..], []) == Ok(Parsed([], ts[1..][1..]));
  }

  /** A literal followed by a token ending every level is a whole argument. */
  lemma LiteralIsExpr(a: Token, rest: seq<Token>)
    requires a.kind == NumberLiteral && Valid(rest) && Ends(rest[0])
    ensures ParseExpr([a] + rest) == Ok(Parsed(NumberLit(a), rest))
  {
    LiteralAtLevel(3, a, rest);
    LevelIsExpr(3, [a] + rest);
  }

  /** A call whose arguments read up to the closing parenthesis. */
  lemma CallOf(ts: seq<Token>, args: seq<Expr>, close: seq<Token>)
    requires Valid(ts) && ts[0].kind == TokenKind.Identifier && ts[1].kind == OpenParen
    requires Valid(close) && close[0].kind == CloseParen && close[1..][0].kind != Semicolon
    requires Args(ts[1..][1..], []) == Ok(Parsed(args, close))
    ensures ParseCall(ts) == Ok(Parsed(FunctionCall(ts[0], args), close[1..]))
  {
  }

  /** `f(a, b)` is a call of `f` with the two arguments in order (lemma CallDispatch says
      when an identifier is read as a call). */
  lemma CallArguments(f: Token, open: Token, a: Token, comma: Token, b: Token, close: Token,
                      rest: seq<Token>)
    requires f.kind == TokenKind.Identifier
    requires open.kind == OpenParen && comma.kind == Comma && close.kind == CloseParen
    requires a.kind == NumberLiteral && b.kind == NumberLiteral
    requires Valid(rest) && rest[0].kind != Semicolon
    ensures ParseCall([f, open, a, comma, b, close] + rest) ==
            Ok(Parsed(FunctionCall(f, [NumberLit(a), NumberLit(b)]), rest))
  {
    var ts := [f, open, a, comma, b, close] + rest;
    var t4 := [close] + rest;
    CallShape(ts, t4, f, open, a, comma, b, close, rest);
    TwoLiteralArgs(a, comma, b, close, rest);
    CallOf(ts, [NumberLit(a), NumberLit(b)], t4);
  }

  /** How the token list of `f(a, b)` splits around its argument tokens. */
  lemma CallShape(ts: seq<Token>, t4: seq<Token>, f: Token, open: Token, a: Token, comma: Token,
                  b: Token, close: Token, rest: seq<Token>)
    requires Valid(rest) && ts == [f, open, a, comma, b, close] + rest && t4 == [close] + rest
    ensures Valid(ts) && ts[0] == f && ts[1] == open && ts[1..][1..] == [a, comma, b, close] + rest
    ensures Valid(t4) && t4[0] == close && t4[1..] == rest
  {
    assert ts[1..][1..] == [a, comma, b, close] + rest;
  }

  /** One turn of the argument loop. */
  lemma ArgsStep(ts: seq<Token>, args: seq<Expr>, e: Expr, r: seq<Token>)
    requires Valid(ts) && ts[0].kind != CloseParen && ParseExpr(ts) == Ok(Parsed(e, r))
    ensures Args(ts, args) == Args(if r[0].kind == Comma then r[1..] else r, args + [e])
  {
  }

  /** Two arguments separated by a comma and closed by `)`. */
  lemma TwoArgs(t2: seq<Token>, t3: seq<Token>, t4: seq<Token>, e1: Expr, e2: Expr)
    requires Valid(t2) && Valid(t3) && Valid(t4) && |t3| > 0 && t3[0].kind == Comma
    requires t2[0].kind != CloseParen && t3[1..][0].kind != CloseParen
    requires t4[0].kind == CloseParen
    requires ParseExpr(t2) == Ok(Parsed(e1, t3)) && ParseExpr(t3[1..]) == Ok(Parsed(e2, t4))
    ensures Args(t2, []) == Ok(Parsed([e1, e2], t4))
  {
    ArgsStep(t2, [], e1, t3);
    ArgsStep(t3[1..], [e1], e2, t4);
    assert [] + [e1] == [e1] && [e1] + [e2] == [e1, e2];
  }

  lemma TwoLiteralArgs(a: Token, comma: Token, b: Token, close: Token, rest: seq<Token>)
    requires comma.kind == Comma && close.kind == CloseParen
    requires a.kind == NumberLiteral && b.kind == NumberLiteral && Valid(rest)
    ensures Args([a, comma, b, close] + rest, []) ==
            Ok(Parsed([NumberLit(a), NumberLit(b)], [close] + rest))
  {
    var t3 := [comma, b, close] + rest;
    var t4 := [close] + rest;
    ArgsShape(a, comma, b, close, rest, t3, t4);
    SeparatorEnds(comma);
    SeparatorEnds(close);
    LiteralIsExpr(a, t3);
    LiteralIsExpr(b, t4);
    TwoArgs([a] + t3, t3, t4, NumberLit(a), NumberLit(b));
  }

  /** A comma or a closing parenthesis ends every level. */
  lemma SeparatorEnds(t: Token)
    requires t.kind == Comma || t.kind == CloseParen
    ensures Ends(t)
  {
    assert OutsideLevels(t.kind, 0) && OutsideLevels(t.kind, 1) && OutsideLevels(t.kind, 2);
  }

  lemma ArgsShape(a: Token, comma: Token, b: Token, close: Token, rest: seq<Token>,
                  t3: seq<Token>, t4: seq<Token>)
    requires Valid(rest) && t3 == [comma, b, close] + rest && t4 == [close] + rest
    ensures [a, comma, b, close] + rest == [a] + t3 && t3[1..] == [b] + t4
    ensures Valid(t3) && Valid(t4) && Valid([a] + t3) && t3[0] == comma && t4[0] == close
  {
    assert [a, comma, b, close] + rest == [a] + t3;
    assert t3[1..] == [b] + t4;
  }

  // ---- primaries --------------------------------------------------------------------------

  /** Parentheses leave no node of their own. */
  lemma ParenthesesLeaveNoNode(open: Token, ts: seq<Token>)
    requires open.kind == OpenParen && Valid(ts)
    requires ParseExpr(ts).Ok? && ParseExpr(ts).value.rest[0].kind == CloseParen
    ensures ParsePrimary([open] + ts) ==
            Ok(Parsed(ParseExpr(ts).value.node, ParseExpr(ts).value.rest[1..]))
  {
    assert ([open] + ts)[1..] == ts;
  }

  /** A block (the body of every while, for, if and function) must open with `{`. */
  lemma BlockOpensWithBrace(ts: seq<Token>)
    requires Valid(ts) && ParseBlock(ts).Ok?
    ensures ts[0].kind == OpenBrace
  {
  }

  /** Prefix `!` and `-` nest to any depth. */
  lemma PrefixNests(op: Token, ts: seq<Token>)
    requires (op.kind == Not || op.kind == Minus) && Valid(ts) && ParseUnary(ts).Ok?
    ensures ParseUnary([op] + ts) ==
            Ok(Parsed(Unary(op, ParseUnary(ts).value.node), ParseUnary(ts).value.rest))
  {
    assert ([op] + ts)[1..] == ts;
  }

  /** Only one postfix operator is taken after an operand. */
  lemma PostfixOnlyOnce(a: Token, p1: Token, p2: Token, rest: seq<Token>)
    requires a.kind == NumberLiteral && Valid(rest)
    requires p1.kind in {Increment, Decrement} && p2.kind in {Increment, Decrement}
    ensures ParseUnary([a, p1, p2] + rest) == Ok(Parsed(Unary(p1, NumberLit(a)), [p2] + rest))
  {
    var ts := [a, p1, p2] + rest;
    assert ts[1..] == [p1, p2] + rest && ts[1..][1..] == [p2] + rest;
    assert ParsePrimary(ts) == Ok(Parsed(NumberLit(a), [p1, p2] + rest));
  }

  /** So a second `++` or `--` after `a++` makes the program fail. */
  lemma DoublePostfixFails(a: Token, p1: Token, p2: Token, rest: seq<Token>)
    requires a.kind == NumberLiteral && Valid(rest)
    requires p1.kind in {Increment, Decrement} && p2.kind in {Increment, Decrement}
    ensures ProduceAst([a, p1, p2] + rest) == Err(UnexpectedToken)
  {
    var ts := [a, p1, p2] + rest;
    ThreeTokens(ts, a, p1, p2, rest);
    PostfixOnlyOnce(a, p1, p2, rest);
    ExprBeforePostfix(ts);
    PostfixStartFails([p2] + rest);
    ProduceAstCons(ts);
  }

  /** A unary expression followed by a postfix operator is a whole expression. */
  lemma ExprBeforePostfix(ts: seq<Token>)
    requires Valid(ts) && ParseUnary(ts).Ok? && ParseUnary(ts).value.rest[0].kind in {Increment, Decrement}
    ensures ParseExpr(ts) == ParseUnary(ts)
  {
    PostfixOutsideLevels(ParseUnary(ts).value.rest[0].kind);
    UnaryAtLevel(3, ts);
  }

  lemma PostfixOutsideLevels(kind: TokenKind)
    requires kind in {Increment, Decrement}
    ensures OutsideLevels(kind, 3)
  {
    assert OutsideLevels(kind, 0) && OutsideLevels(kind, 1) && OutsideLevels(kind, 2);
  }

  /** A program cannot go on with a postfix operator. */
  lemma PostfixStartFails(ts: seq<Token>)
    requires Valid(ts) && ts[0].kind in {Increment, Decrement}
    ensures ProduceAst(ts) == Err(UnexpectedToken)
  {
    assert ParsePrimary(ts) == Err(UnexpectedToken);
    UnaryOfPrimary(ts);
    UnaryAtLevel(3, ts);
    assert ParseExpr(ts) == Err(UnexpectedToken);
    ProduceAstCons(ts);
  }
}
