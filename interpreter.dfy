/** The tree walk as the source writes it: an `Interpreter` object whose `interpret` method
    dispatches on the node kind, with handlers that open child scopes, loop and call.

    All scopes of a run live in one `Scopes` arena, so a child `Interpreter` built over a
    fresh `Environment` is this same object working in the child's scope: every method
    takes the index `env` of the scope it runs in.  Every method is proved to do what the
    function of module Evaluation for its node kind says. */
module Interpreting {
  import opened Wrappers
  import opened Ast
  import opened Values
  import opened Operators
  import opened Environments
  import opened Std
  import opened Evaluation

  /** A method's outcome `r`, with `frames` the arena it left, is the one `spec` gives. */
  predicate Agrees(spec: Result<Outcome>, r: Result<Value>, frames: seq<Frame>)
  {
    match spec
    case Ok(o) => r == Ok(o.value) && frames == o.frames
    case Err(m) => r == Err(m)
  }

  /** `values` already collected in front of what evaluating the remaining nodes gives. */
  function Prefixed(values: seq<Value>, r: Result<Evaluated>): Result<Evaluated>
  {
    match r
    case Ok(a) => Ok(Evaluated(a.frames, values + a.values))
    case Err(m) => Err(m)
  }

  class Interpreter {
    const ast: seq<Expr>
    const host: Host
    /** The arena every scope of the run lives in. */
    const scopes: Scopes
    /** The interpreter's own `environment`: the root scope. */
    const root: nat

    predicate Valid()
      reads this, scopes
    {
      scopes.Valid() && root < |scopes.frames|
    }

    /** `new Interpreter(ast)`: a fresh root environment filled by the standard library. */
    constructor(ast: seq<Expr>, host: Host)
      ensures Valid() && fresh(scopes)
      ensures this.ast == ast && this.host == host && scopes.frames == [RootFrame()] && root == 0
    {
      this.ast := ast;
      this.host := host;
      var s := new Scopes();
      var env := NewRoot(s);
      scopes := s;
      root := env;
    }

    /** `start`: every statement of the program in the root scope, in order; the values
        are those it echoes. */
    method Start(fuel: nat) returns (r: Result<seq<Value>>)
      requires Valid()
      modifies scopes
      ensures Valid()
      ensures match EvalEach(host, fuel, old(scopes.frames), root, ast)
              case Ok(a) => r == Ok(a.values) && scopes.frames == a.frames
              case Err(m) => r == Err(m)
    {
      r := InterpretEach(fuel, root, ast);
    }

    method Interpret(fuel: nat, env: nat, e: Expr) returns (r: Result<Value>)
      requires scopes.Valid() && env < |scopes.frames|
      modifies scopes
      ensures scopes.Valid() && |old(scopes.frames)| <= |scopes.frames|
      ensures Agrees(Eval(host, fuel, old(scopes.frames), env, e), r, scopes.frames)
      decreases fuel, e, 2
    {
      match e
      case NumberLit(t) => r := Ok(NumberV(t.text));
      case StringLit(t) => r := Ok(StringV(t.text));
      case NullLit => r := Ok(NullV);
      case BooleanLit(t) => r := Ok(BooleanV(t.text));
      case VarDecl(_, _, _) => r := VariableDeclaration(fuel, env, e);
      case Identifier(name) => r := scopes.Get(env, name.text);
      case Assignment(_, _) => r := AssignmentExpr(fuel, env, e);
      case Unary(_, _) => r := UnaryExpr(fuel, env, e);
      case Binary(_, _, _) => r := BinaryExpr(fuel, env, e);
      case If(_, _, _) => r := IfStatement(fuel, env, e);
      case Block(_) => r := BlockStatement(fuel, env, e);
      case FunctionDecl(name, params, statements) =>
        r := scopes.Define(env, name.text, FunctionV(name.text, params, statements, env), false, true);
      case FunctionCall(_, _) => r := FunctionCallExpr(fuel, env, e);
      case Return(argument) => r := Interpret(fuel, env, argument);
      case EmptyStmt => r := Ok(NullV);
      case While(_, _) => r := WhileStatement(fuel, env, e);
      case For(_, _, _, _) => r := ForStatement(fuel, env, e);
      case Delete(name) => r := scopes.Delete(env, name.text);
    }

    /** The nodes `es` interpreted in order in scope `env`, their values collected: the
        arguments of a call (`args.map`), the body of a block, the program. */
    method InterpretEach(fuel: nat, env: nat, es: seq<Expr>) returns (r: Result<seq<Value>>)
      requires scopes.Valid() && env < |scopes.frames|
      modifies scopes
      ensures scopes.Valid() && |old(scopes.frames)| <= |scopes.frames|
      ensures match EvalEach(host, fuel, old(scopes.frames), env, es)
              case Ok(a) => r == Ok(a.values) && scopes.frames == a.frames
              case Err(m) => r == Err(m)
      decreases fuel, es, 1
    {
      var values: seq<Value> := [];
      assert es[0..] == es;
      assert Prefixed([], EvalEach(host, fuel, scopes.frames, env, es)) == EvalEach(host, fuel, scopes.frames, env, es) by {
        match EvalEach(host, fuel, scopes.frames, env, es)
        case Ok(a) => assert [] + a.values == a.values;
        case Err(_) =>
      }
      for i := 0 to |es|
        invariant scopes.Valid() && |old(scopes.frames)| <= |scopes.frames|
        invariant EvalEach(host, fuel, old(scopes.frames), env, es) ==
                  Prefixed(values, EvalEach(host, fuel, scopes.frames, env, es[i..]))
      {
        assert es[i..][1..] == es[i + 1..];
        ghost var before := scopes.frames;
        var v :- Interpret(fuel, env, es[i]);
        assert Prefixed(values, EvalEach(host, fuel, before, env, es[i..])) ==
               Prefixed(values + [v], EvalEach(host, fuel, scopes.frames, env, es[i + 1..])) by {
          match EvalEach(host, fuel, scopes.frames, env, es[i + 1..])
          case Ok(a) => assert values + ([v] + a.values) == values + [v] + a.values;
          case Err(_) =>
        }
        values := values + [v];
      }
      assert es[|es|..] == [];
      assert values + [] == values;
      r := Ok(values);
    }

    method VariableDeclaration(fuel: nat, env: nat, e: Expr) returns (r: Result<Value>)
      requires scopes.Valid() && env < |scopes.frames| && e.VarDecl?
      modifies scopes
      ensures scopes.Valid() && |old(scopes.frames)| <= |scopes.frames|
      ensures Agrees(Eval(host, fuel, old(scopes.frames), env, e), r, scopes.frames)
      decreases fuel, e, 1
    {
      var value :- Interpret(fuel, env, e.initializer);
      r := scopes.Define(env, e.name.text, value, e.isConst, false);
    }

    /** `environment.set(target.name.value, value)` */
    method AssignTo(env: nat, target: Expr, value: Value) returns (r: Result<Value>)
      requires scopes.Valid() && env < |scopes.frames|
      modifies scopes
      ensures scopes.Valid() && |old(scopes.frames)| == |scopes.frames|
      ensures Agrees(Assign(old(scopes.frames), env, target, value), r, scopes.frames)
    {
      var name := NameOf(target);
      if name.None? {
        return Err(NoName);
      }
      r := scopes.Set(env, name.value, value);
    }

    method AssignmentExpr(fuel: nat, env: nat, e: Expr) returns (r: Result<Value>)
      requires scopes.Valid() && env < |scopes.frames| && e.Assignment?
      modifies scopes
      ensures scopes.Valid() && |old(scopes.frames)| <= |scopes.frames|
      ensures Agrees(Eval(host, fuel, old(scopes.frames), env, e), r, scopes.frames)
      decreases fuel, e, 1
    {
      var right :- Interpret(fuel, env, e.right);
      r := AssignTo(env, e.left, right);
    }

    /** `parseDecrement`: rebinds a boolean, number or string, leaves the rest alone. */
    method Decrement(env: nat, operand: Expr, value: Value) returns (r: Result<Value>)
      requires scopes.Valid() && env < |scopes.frames|
      modifies scopes
      ensures scopes.Valid() && |old(scopes.frames)| == |scopes.frames|
      ensures Agrees(UnaryStep(host, old(scopes.frames), env, "--", operand, value), r, scopes.frames)
    {
      var d := Decremented(host, value);
      if d.None? {
        return Ok(NullV);
      }
      r := AssignTo(env, operand, d.value);
    }

    method UnaryExpr(fuel: nat, env: nat, e: Expr) returns (r: Result<Value>)
      requires scopes.Valid() && env < |scopes.frames| && e.Unary?
      modifies scopes
      ensures scopes.Valid() && |old(scopes.frames)| <= |scopes.frames|
      ensures Agrees(Eval(host, fuel, old(scopes.frames), env, e), r, scopes.frames)
      decreases fuel, e, 1
    {
      var right :- Interpret(fuel, env, e.operand);
      var op := e.operator.text;
      if op == "--" {
        r := Decrement(env, e.operand, right);
      } else if op == "++" {
        r := AssignTo(env, e.operand, Incremented(host, right));
      } else if op == "!" {
        r := Ok(BooleanV(BoolText(NotValue(host, right))));
      } else if op == "-" {
        r := Ok(NegateValue(host, right));
      } else {
        r := Err(UnaryUnknown(op));
      }
    }

    method BinaryExpr(fuel: nat, env: nat, e: Expr) returns (r: Result<Value>)
      requires scopes.Valid() && env < |scopes.frames| && e.Binary?
      modifies scopes
      ensures scopes.Valid() && |old(scopes.frames)| <= |scopes.frames|
      ensures Agrees(Eval(host, fuel, old(scopes.frames), env, e), r, scopes.frames)
      decreases fuel, e, 1
    {
      var left :- Interpret(fuel, env, e.left);
      var right :- Interpret(fuel, env, e.right);
      r := BinaryOp(host, e.operator.text, left, right);
    }

    method IfStatement(fuel: nat, env: nat, e: Expr) returns (r: Result<Value>)
      requires scopes.Valid() && env < |scopes.frames| && e.If?
      modifies scopes
      ensures scopes.Valid() && |old(scopes.frames)| <= |scopes.frames|
      ensures Agrees(Eval(host, fuel, old(scopes.frames), env, e), r, scopes.frames)
      decreases fuel, e, 1
    {
      var condition :- Interpret(fuel, env, e.condition);
      var local := scopes.NewScope(Some(env));
      if IsTrue(condition) {
        var _ :- Interpret(fuel, local, e.thenBranch);
      } else if e.elseBranch.Some? {
        var _ :- Interpret(fuel, local, e.elseBranch.value);
      }
      r := Ok(NullV);
    }

    method BlockStatement(fuel: nat, env: nat, e: Expr) returns (r: Result<Value>)
      requires scopes.Valid() && env < |scopes.frames| && e.Block?
      modifies scopes
      ensures scopes.Valid() && |old(scopes.frames)| <= |scopes.frames|
      ensures Agrees(Eval(host, fuel, old(scopes.frames), env, e), r, scopes.frames)
      decreases fuel, e, 1
    {
      var local := scopes.NewScope(Some(env));
      var _ :- InterpretEach(fuel, local, e.statements);
      scopes.Destroy(local);
      r := Ok(NullV);
    }

    method WhileStatement(fuel: nat, env: nat, e: Expr) returns (r: Result<Value>)
      requires scopes.Valid() && env < |scopes.frames| && e.While?
      modifies scopes
      ensures scopes.Valid() && |old(scopes.frames)| <= |scopes.frames|
      ensures Agrees(Eval(host, fuel, old(scopes.frames), env, e), r, scopes.frames)
      decreases fuel, e, 1
    {
      var local := scopes.NewScope(Some(env));
      ghost var start := scopes.frames;
      var f: nat := fuel;
      while true
        invariant scopes.Valid() && local < |scopes.frames| && |old(scopes.frames)| <= |scopes.frames|
        invariant f <= fuel
        invariant WhileLoop(host, fuel, start, local, e) == WhileLoop(host, f, scopes.frames, local, e)
        decreases f
      {
        var condition :- Interpret(f, local, e.condition);
        if !IsTrue(condition) {
          break;
        }
        if f == 0 {
          return Err(OutOfFuel);
        }
        var _ :- Interpret(f, local, e.body);
        scopes.Destroy(local);
        f := f - 1;
      }
      r := Ok(NullV);
    }

    method ForStatement(fuel: nat, env: nat, e: Expr) returns (r: Result<Value>)
      requires scopes.Valid() && env < |scopes.frames| && e.For?
      modifies scopes
      ensures scopes.Valid() && |old(scopes.frames)| <= |scopes.frames|
      ensures Agrees(Eval(host, fuel, old(scopes.frames), env, e), r, scopes.frames)
      decreases fuel, e, 1
    {
      var local := scopes.NewScope(Some(env));
      var _ :- Interpret(fuel, local, e.init);
      ghost var start := scopes.frames;
      var f: nat := fuel;
      while true
        invariant scopes.Valid() && local < |scopes.frames| && |old(scopes.frames)| <= |scopes.frames|
        invariant f <= fuel
        invariant ForLoop(host, fuel, start, local, e) == ForLoop(host, f, scopes.frames, local, e)
        decreases f
      {
        var condition :- Interpret(f, local, e.condition);
        if !IsTrue(condition) {
          break;
        }
        if f == 0 {
          return Err(OutOfFuel);
        }
        var _ :- Interpret(f, local, e.body);
        var _ :- Interpret(f, local, e.update);
        f := f - 1;
      }
      scopes.Destroy(local);
      r := Ok(NullV);
    }

    method FunctionCallExpr(fuel: nat, env: nat, e: Expr) returns (r: Result<Value>)
      requires scopes.Valid() && env < |scopes.frames| && e.FunctionCall?
      modifies scopes
      ensures scopes.Valid() && |old(scopes.frames)| <= |scopes.frames|
      ensures Agrees(Eval(host, fuel, old(scopes.frames), env, e), r, scopes.frames)
      decreases fuel, e, 1
    {
      var func :- scopes.Get(env, e.name.text);
      var args :- InterpretEach(fuel, env, e.args);
      if func.FunctionV? {
        if fuel == 0 {
          return Err(OutOfFuel);
        }
        r := Call(fuel - 1, func, args);
      } else if func.NativeV? {
        r := CallNative(host, func.name, args);
      } else {
        r := Err(NotCallable);
      }
    }

    /** `FunctionValue.call` */
    method Call(fuel: nat, f: Value, args: seq<Value>) returns (r: Result<Value>)
      requires scopes.Valid() && f.FunctionV?
      modifies scopes
      ensures scopes.Valid() && |old(scopes.frames)| <= |scopes.frames|
      ensures Agrees(CallFunction(host, fuel, old(scopes.frames), f, args), r, scopes.frames)
      decreases fuel
    {
      if f.closure >= |scopes.frames| {
        return Err(UnknownScope);
      }
      var local := scopes.NewScope(Some(f.closure));
      ghost var start := scopes.frames;
      for i := 0 to |f.params|
        invariant scopes.Valid() && |scopes.frames| == |start|
        invariant BindParams(start, local, f.params, args, 0) ==
                  BindParams(scopes.frames, local, f.params, args, i)
      {
        var _ :- scopes.Define(local, f.params[i].text, ArgOrNull(args, i), false, false);
      }
      ghost var bound := scopes.frames;
      var lastExpr := NullV;
      for i := 0 to |f.body|
        invariant scopes.Valid() && local < |scopes.frames| && |old(scopes.frames)| <= |scopes.frames|
        invariant RunBody(host, fuel, bound, local, f.body) ==
                  RunBody(host, fuel, scopes.frames, local, f.body[i..])
      {
        assert f.body[i..][1..] == f.body[i + 1..];
        lastExpr :- Interpret(fuel, local, f.body[i]);
        if f.body[i].Return? {
          return Ok(lastExpr);
        }
      }
      r := Ok(NullV);
    }
  }
}
