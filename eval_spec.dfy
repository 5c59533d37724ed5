/** What `Interpreter.interpret` computes, as functions over the scope arena.

    Every function takes the arena before the step and the index of the scope the
    interpreter runs in, and gives the arena after the step together with the value the
    source returns, or the message of the error the source throws.  A child `Interpreter`
    over a fresh `Environment` is the same walk run in a new scope at the end of the arena.

    Loops and calls of user functions have no bound in the source; here they consume
    `fuel`, and running out is the error `OutOfFuel`. */
module Evaluation {
  import opened Wrappers
  import Tokens
  import opened Ast
  import opened Values
  import opened Operators
  import opened Environments
  import opened Std

  const OutOfFuel: string := "Evaluation ran out of fuel"
  /** What reading `.name.value` of a node without a `name` field throws. */
  const NoName: string := "Cannot read properties of undefined (reading 'value')"
  /** What calling a value that is neither a function nor a native throws. */
  const NotCallable: string := "func.call is not a function"
  /** A function value naming a scope the arena does not hold (only a host result can). */
  const UnknownScope: string := "Closure scope is not part of the arena"

  function UnaryUnknown(op: string): string { "Unimplemented unary operator " + op }

  /** The `name` field's text of the nodes that have one. */
  function NameOf(e: Expr): (n: Option<string>)
    ensures n.Some? <==> e.Identifier? || e.Delete? || e.FunctionCall? || e.VarDecl? || e.FunctionDecl?
  {
    match e
    case Identifier(name) => Some(name.text)
    case Delete(name) => Some(name.text)
    case FunctionCall(name, _) => Some(name.text)
    case VarDecl(name, _, _) => Some(name.text)
    case FunctionDecl(name, _, _) => Some(name.text)
    case _ => None
  }

  /** `condition.value === "true"` */
  predicate IsTrue(v: Value)
  {
    PayloadOf(v) == PText("true")
  }

  /** The arena after evaluating a list of nodes, and their values in order. */
  datatype Evaluated = Evaluated(frames: seq<Frame>, values: seq<Value>)

  /** `args[i] ?? new NullValue()` */
  function ArgOrNull(args: seq<Value>, i: nat): Value
  {
    if i < |args| then args[i] else NullV
  }

  /** `environment.set(target.name.value, value)`: an assignment to the node `target`. */
  function Assign(frames: seq<Frame>, env: nat, target: Expr, value: Value): (r: Result<Outcome>)
    requires ValidArena(frames) && env < |frames|
    ensures r.Ok? ==> ValidArena(r.value.frames) && |r.value.frames| == |frames| &&
                      Confined(frames, r.value.frames, env)
  {
    match NameOf(target)
    case None => Err(NoName)
    case Some(name) => Rebind(frames, env, name, value)
  }

  /** `parseUnaryExpr` once the operand `v` of `operand` is evaluated. */
  function UnaryStep(host: Host, frames: seq<Frame>, env: nat, op: string, operand: Expr, v: Value)
    : (r: Result<Outcome>)
    requires ValidArena(frames) && env < |frames|
    ensures r.Ok? ==> ValidArena(r.value.frames) && |r.value.frames| == |frames| &&
                      Confined(frames, r.value.frames, env)
  {
    if op == "--" then
      match Decremented(host, v)
      case None => Ok(Outcome(frames, NullV))
      case Some(d) => Assign(frames, env, operand, d)
    else if op == "++" then Assign(frames, env, operand, Incremented(host, v))
    else if op == "!" then Ok(Outcome(frames, BooleanV(BoolText(NotValue(host, v)))))
    else if op == "-" then Ok(Outcome(frames, NegateValue(host, v)))
    else Err(UnaryUnknown(op))
  }

  /** `interpret(e)` in scope `env`. */
  function Eval(host: Host, fuel: nat, frames: seq<Frame>, env: nat, e: Expr): (r: Result<Outcome>)
    requires ValidArena(frames) && env < |frames|
    ensures r.Ok? ==> ValidArena(r.value.frames) && Confined(frames, r.value.frames, env)
    decreases fuel, e, 1
  {
    match e
    case NumberLit(t) => Ok(Outcome(frames, NumberV(t.text)))
    case StringLit(t) => Ok(Outcome(frames, StringV(t.text)))
    case BooleanLit(t) => Ok(Outcome(frames, BooleanV(t.text)))
    case NullLit => Ok(Outcome(frames, NullV))
    case VarDecl(name, init, isConst) =>
      var o :- Eval(host, fuel, frames, env, init);
      Bind(o.frames, env, name.text, o.value, isConst, false)
    case Identifier(name) =>
      var v :- Lookup(frames, env, name.text);
      Ok(Outcome(frames, v))
    case Assignment(target, source) =>
      var o :- Eval(host, fuel, frames, env, source);
      Assign(o.frames, env, target, o.value)
    case Unary(op, operand) =>
      var o :- Eval(host, fuel, frames, env, operand);
      UnaryStep(host, o.frames, env, op.text, operand, o.value)
    case Binary(op, left, right) =>
      var l :- Eval(host, fuel, frames, env, left);
      var r :- Eval(host, fuel, l.frames, env, right);
      var v :- BinaryOp(host, op.text, l.value, r.value);
      Ok(Outcome(r.frames, v))
    case If(_, _, _) => EvalIf(host, fuel, frames, env, e)
    case Block(statements) =>
      var a :- EvalEach(host, fuel, Extend(frames, Some(env)), |frames|, statements);
      Ok(Outcome(Cleared(a.frames, |frames|), NullV))
    case While(_, _) =>
      var fs :- WhileLoop(host, fuel, Extend(frames, Some(env)), |frames|, e);
      Ok(Outcome(fs, NullV))
    case For(init, _, _, _) =>
      var i :- Eval(host, fuel, Extend(frames, Some(env)), |frames|, init);
      var fs :- ForLoop(host, fuel, i.frames, |frames|, e);
      Ok(Outcome(Cleared(fs, |frames|), NullV))
    case FunctionDecl(name, params, statements) =>
      Bind(frames, env, name.text, FunctionV(name.text, params, statements, env), false, true)
    case FunctionCall(_, _) => EvalCall(host, fuel, frames, env, e)
    case Return(argument) => Eval(host, fuel, frames, env, argument)
    case EmptyStmt => Ok(Outcome(frames, NullV))
    case Delete(name) => Unbind(frames, env, name.text)
  }

  /** `parseIfStatement`: the condition, then a child scope in which at most one branch
      runs. */
  function EvalIf(host: Host, fuel: nat, frames: seq<Frame>, env: nat, e: Expr): (r: Result<Outcome>)
    requires ValidArena(frames) && env < |frames| && e.If?
    ensures r.Ok? ==> ValidArena(r.value.frames) && Confined(frames, r.value.frames, env)
    decreases fuel, e, 0
  {
    var c :- Eval(host, fuel, frames, env, e.condition);
    var fs := Extend(c.frames, Some(env));
    if IsTrue(c.value) then
      var o :- Eval(host, fuel, fs, |c.frames|, e.thenBranch);
      Ok(Outcome(o.frames, NullV))
    else if e.elseBranch.Some? then
      var o :- Eval(host, fuel, fs, |c.frames|, e.elseBranch.value);
      Ok(Outcome(o.frames, NullV))
    else Ok(Outcome(fs, NullV))
  }

  /** `parseFunctionCallExpr`: the callee, then the arguments, then the call of a function
      or a native; any other value cannot be called. */
  function EvalCall(host: Host, fuel: nat, frames: seq<Frame>, env: nat, e: Expr): (r: Result<Outcome>)
    requires ValidArena(frames) && env < |frames| && e.FunctionCall?
    ensures r.Ok? ==> ValidArena(r.value.frames) && Confined(frames, r.value.frames, env)
    decreases fuel, e, 0
  {
    var callee :- Lookup(frames, env, e.name.text);
    var a :- EvalEach(host, fuel, frames, env, e.args);
    if callee.FunctionV? then
      if fuel == 0 then Err(OutOfFuel) else CallFunction(host, fuel - 1, a.frames, callee, a.values)
    else if callee.NativeV? then
      var v :- CallNative(host, callee.name, a.values);
      Ok(Outcome(a.frames, v))
    else Err(NotCallable)
  }

  /** Evaluates `es` in order in scope `env` and collects their values: the arguments of a
      call, the statements of a block, the statements of a program. */
  function EvalEach(host: Host, fuel: nat, frames: seq<Frame>, env: nat, es: seq<Expr>)
    : (r: Result<Evaluated>)
    requires ValidArena(frames) && env < |frames|
    ensures r.Ok? ==> ValidArena(r.value.frames) && Confined(frames, r.value.frames, env) &&
                      |r.value.values| == |es|
    decreases fuel, es, 0
  {
    if |es| == 0 then Ok(Evaluated(frames, []))
    else
      var o :- Eval(host, fuel, frames, env, es[0]);
      var rest :- EvalEach(host, fuel, o.frames, env, es[1..]);
      Ok(Evaluated(rest.frames, [o.value] + rest.values))
  }

  /** The `while` of `parseWhileStatement`, run in the loop's own scope `env`: the
      condition, then the body, then `destroy` of that scope, for as long as the condition
      is "true". */
  function WhileLoop(host: Host, fuel: nat, frames: seq<Frame>, env: nat, loop: Expr)
    : (r: Result<seq<Frame>>)
    requires ValidArena(frames) && env < |frames| && loop.While?
    ensures r.Ok? ==> ValidArena(r.value) && Confined(frames, r.value, env)
    decreases fuel, loop, 0
  {
    var c :- Eval(host, fuel, frames, env, loop.condition);
    if !IsTrue(c.value) then Ok(c.frames)
    else if fuel == 0 then Err(OutOfFuel)
    else
      var b :- Eval(host, fuel, c.frames, env, loop.body);
      WhileLoop(host, fuel - 1, Cleared(b.frames, env), env, loop)
  }

  /** The `while` of `parseForStatement`, run in the loop's own scope `env`: the
      condition, then the body and the update, for as long as the condition is "true". */
  function ForLoop(host: Host, fuel: nat, frames: seq<Frame>, env: nat, loop: Expr)
    : (r: Result<seq<Frame>>)
    requires ValidArena(frames) && env < |frames| && loop.For?
    ensures r.Ok? ==> ValidArena(r.value) && Confined(frames, r.value, env)
    decreases fuel, loop, 0
  {
    var c :- Eval(host, fuel, frames, env, loop.condition);
    if !IsTrue(c.value) then Ok(c.frames)
    else if fuel == 0 then Err(OutOfFuel)
    else
      var b :- Eval(host, fuel, c.frames, env, loop.body);
      var u :- Eval(host, fuel, b.frames, env, loop.update);
      ForLoop(host, fuel - 1, u.frames, env, loop)
  }

  /** `FunctionValue.call`: a fresh scope under the closure, the parameters defined in it,
      then the body. */
  function CallFunction(host: Host, fuel: nat, frames: seq<Frame>, f: Value, args: seq<Value>)
    : (r: Result<Outcome>)
    requires ValidArena(frames) && f.FunctionV?
    ensures r.Ok? ==> ValidArena(r.value.frames) && |frames| < |r.value.frames| &&
                      Confined(frames, r.value.frames, |frames|)
    decreases fuel
  {
    if f.closure >= |frames| then Err(UnknownScope)
    else
      var bound :- BindParams(Extend(frames, Some(f.closure)), |frames|, f.params, args, 0);
      RunBody(host, fuel, bound, |frames|, f.body)
  }

  /** The first loop of `call`: parameters `i..` defined in scope `env`, by position. */
  function BindParams(frames: seq<Frame>, env: nat, params: seq<Tokens.Token>, args: seq<Value>, i: nat)
    : (r: Result<seq<Frame>>)
    requires ValidArena(frames) && env < |frames| && i <= |params|
    ensures r.Ok? ==> ValidArena(r.value) && |r.value| == |frames| && Confined(frames, r.value, env)
    decreases |params| - i
  {
    if i == |params| then Ok(frames)
    else
      var o :- Bind(frames, env, params[i].text, ArgOrNull(args, i), false, false);
      BindParams(o.frames, env, params, args, i + 1)
  }

  /** The second loop of `call`: the statements of `body` in order, stopping after the
      first return statement with its value; Null when there is none. */
  function RunBody(host: Host, fuel: nat, frames: seq<Frame>, env: nat, body: seq<Expr>)
    : (r: Result<Outcome>)
    requires ValidArena(frames) && env < |frames|
    ensures r.Ok? ==> ValidArena(r.value.frames) && Confined(frames, r.value.frames, env)
    decreases fuel, body, 0
  {
    if |body| == 0 then Ok(Outcome(frames, NullV))
    else
      var o :- Eval(host, fuel, frames, env, body[0]);
      if body[0].Return? then Ok(o) else RunBody(host, fuel, o.frames, env, body[1..])
  }

  /** `new Interpreter(ast).start()`: the statements run one after another in a fresh root
      scope; the values are those `start` echoes. */
  function RunProgram(host: Host, fuel: nat, p: Program): (r: Result<Evaluated>)
    ensures r.Ok? ==> |r.value.values| == |p.body| && 1 <= |r.value.frames|
  {
    EvalEach(host, fuel, [RootFrame()], 0, p.body)
  }
}
