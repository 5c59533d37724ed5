/** What the tree walk promises: literal values, the scopes that blocks, `for` loops and
    calls open and what becomes of them, how a call binds its parameters and where it
    stops, and what assignment, `++` and `--` do to the variable they name. */
module EvaluationProperties {
  import opened Wrappers
  import Tokens
  import opened Ast
  import opened Values
  import opened Environments
  import opened Operators
  import opened EnvironmentProperties
  import opened Std
  import opened Evaluation

  // ---- literals and statement values --------------------------------------------------------

  /** Number, string and boolean literals hold the token's text unchanged under their own
      kind; `null` holds null; no scope changes. */
  lemma LiteralsKeepText(host: Host, fuel: nat, frames: seq<Frame>, env: nat, t: Tokens.Token)
    requires ValidArena(frames) && env < |frames|
    ensures var o := Eval(host, fuel, frames, env, NumberLit(t));
            o.Ok? && o.value.frames == frames &&
            KindOf(o.value.value) == NumberKind && PayloadOf(o.value.value) == PText(t.text)
    ensures var o := Eval(host, fuel, frames, env, StringLit(t));
            o.Ok? && o.value.frames == frames &&
            KindOf(o.value.value) == StringKind && PayloadOf(o.value.value) == PText(t.text)
    ensures var o := Eval(host, fuel, frames, env, BooleanLit(t));
            o.Ok? && o.value.frames == frames &&
            KindOf(o.value.value) == BooleanKind && PayloadOf(o.value.value) == PText(t.text)
    ensures var o := Eval(host, fuel, frames, env, NullLit);
            o.Ok? && o.value.frames == frames &&
            KindOf(o.value.value) == NullKind && PayloadOf(o.value.value) == PNull
  {
  }

  /** `if`, blocks, `while`, `for` and the empty statement evaluate to Null. */
  lemma StatementsGiveNull(host: Host, fuel: nat, frames: seq<Frame>, env: nat, e: Expr)
    requires ValidArena(frames) && env < |frames|
    requires e.If? || e.Block? || e.While? || e.For? || e.EmptyStmt?
    requires Eval(host, fuel, frames, env, e).Ok?
    ensures Eval(host, fuel, frames, env, e).value.value == NullV
  {
  }

  // ---- scopes of blocks, loops and conditionals -------------------------------------------

  /** A name unbound from scope `env` stays unbound there across any change confined to a
      newer scope `c`. */
  lemma {:induction false} UnboundStaysUnbound(a: seq<Frame>, b: seq<Frame>, c: nat, env: nat, name: string)
    requires ValidArena(a) && ValidArena(b) && env < |a| && env < c && Confined(a, b, c)
    requires Lookup(a, env, name).Err?
    ensures Lookup(b, env, name).Err?
    decreases env
  {
    assert b[env].variables.Keys <= a[env].variables.Keys;
    if a[env].parent.Some? {
      UnboundStaysUnbound(a, b, c, a[env].parent.value, name);
    }
  }

  /** A block runs in a fresh scope under the current one, which is emptied afterwards. */
  lemma BlockScopeEmptied(host: Host, fuel: nat, frames: seq<Frame>, env: nat, statements: seq<Expr>)
    requires ValidArena(frames) && env < |frames|
    requires Eval(host, fuel, frames, env, Block(statements)).Ok?
    ensures var fs := Eval(host, fuel, frames, env, Block(statements)).value.frames;
            |frames| < |fs| && fs[|frames|] == EmptyFrame(Some(env)) &&
            Confined(frames, fs, |frames|)
  {
    var ext := Extend(frames, Some(env));
    var a := EvalEach(host, fuel, ext, |frames|, statements).value;
    assert a.frames[|frames|].parent == ext[|frames|].parent;
  }

  /** The declarations of a block do not outlive it: a name unbound before the block is
      unbound after it. */
  lemma BlockDeclarationsDoNotOutlive(host: Host, fuel: nat, frames: seq<Frame>, env: nat,
                                      statements: seq<Expr>, name: string)
    requires ValidArena(frames) && env < |frames| && Lookup(frames, env, name).Err?
    requires Eval(host, fuel, frames, env, Block(statements)).Ok?
    ensures Lookup(Eval(host, fuel, frames, env, Block(statements)).value.frames, env, name).Err?
  {
    BlockScopeEmptied(host, fuel, frames, env, statements);
    var fs := Eval(host, fuel, frames, env, Block(statements)).value.frames;
    UnboundStaysUnbound(frames, fs, |frames|, env, name);
  }

  /** A `for` loop runs in a fresh scope under the current one, which is emptied after the
      loop, so the binding its initializer makes is gone. */
  lemma ForScopeEmptied(host: Host, fuel: nat, frames: seq<Frame>, env: nat, loop: Expr, name: string)
    requires ValidArena(frames) && env < |frames| && loop.For?
    requires Eval(host, fuel, frames, env, loop).Ok?
    ensures var fs := Eval(host, fuel, frames, env, loop).value.frames;
            |frames| < |fs| && fs[|frames|] == EmptyFrame(Some(env)) &&
            (Lookup(frames, env, name).Err? ==> Lookup(fs, env, name).Err?)
  {
    var ext := Extend(frames, Some(env));
    var i := Eval(host, fuel, ext, |frames|, loop.init).value;
    var after := ForLoop(host, fuel, i.frames, |frames|, loop).value;
    assert after[|frames|].parent == i.frames[|frames|].parent == ext[|frames|].parent;
    var fs := Eval(host, fuel, frames, env, loop).value.frames;
    if Lookup(frames, env, name).Err? {
      UnboundStaysUnbound(frames, fs, |frames|, env, name);
    }
  }

  /** `if` runs its then-branch only when the condition's text is "true", and its
      else-branch only otherwise. */
  lemma IfTakesOneBranch(host: Host, fuel: nat, frames: seq<Frame>, env: nat,
                         condition: Expr, t1: Expr, t2: Expr, e1: Option<Expr>, e2: Option<Expr>)
    requires ValidArena(frames) && env < |frames|
    requires Eval(host, fuel, frames, env, condition).Ok?
    ensures var c := Eval(host, fuel, frames, env, condition).value;
            if IsTrue(c.value) then
              Eval(host, fuel, frames, env, If(condition, t1, e1)) ==
              Eval(host, fuel, frames, env, If(condition, t1, e2))
            else
              Eval(host, fuel, frames, env, If(condition, t1, e1)) ==
              Eval(host, fuel, frames, env, If(condition, t2, e1))
  {
  }

  /** An `if` whose condition is not "true" and that has no else-branch only adds an empty
      scope. */
  lemma IfWithoutElseSkips(host: Host, fuel: nat, frames: seq<Frame>, env: nat,
                           condition: Expr, thenBranch: Expr)
    requires ValidArena(frames) && env < |frames|
    requires Eval(host, fuel, frames, env, condition).Ok?
    requires !IsTrue(Eval(host, fuel, frames, env, condition).value.value)
    ensures var c := Eval(host, fuel, frames, env, condition).value;
            Eval(host, fuel, frames, env, If(condition, thenBranch, None)) ==
            Ok(Outcome(c.frames + [EmptyFrame(Some(env))], NullV))
  {
  }

  /** A `while` whose condition is not "true" on entry never runs its body. */
  lemma WhileChecksFirst(host: Host, fuel: nat, frames: seq<Frame>, env: nat,
                         condition: Expr, b1: Expr, b2: Expr)
    requires ValidArena(frames) && env < |frames|
    requires var c := Eval(host, fuel, Extend(frames, Some(env)), |frames|, condition);
             c.Ok? && !IsTrue(c.value.value)
    ensures Eval(host, fuel, frames, env, While(condition, b1)) ==
            Eval(host, fuel, frames, env, While(condition, b2))
  {
  }

  // ---- calls --------------------------------------------------------------------------------

  /** With distinct names, none of them bound yet, parameters `i..` are bound by position in
      scope `env`: a missing argument gives Null, extra arguments are ignored, and no other
      scope changes. */
  lemma {:induction false} BindParamsByPosition(frames: seq<Frame>, env: nat, params: seq<Tokens.Token>,
                                                args: seq<Value>, i: nat)
    requires ValidArena(frames) && env < |frames| && i <= |params|
    requires forall j, k :: i <= j < k < |params| ==> params[j].text != params[k].text
    requires forall j :: i <= j < |params| ==> params[j].text !in frames[env].variables
    ensures var r := BindParams(frames, env, params, args, i);
            r.Ok? &&
            (forall j :: i <= j < |params| ==>
               params[j].text in r.value[env].variables &&
               r.value[env].variables[params[j].text] == ArgOrNull(args, j) &&
               params[j].text !in r.value[env].constants && params[j].text !in r.value[env].functions) &&
            (forall n :: n in frames[env].variables ==>
               n in r.value[env].variables && r.value[env].variables[n] == frames[env].variables[n]) &&
            r.value[env].constants == frames[env].constants &&
            r.value[env].functions == frames[env].functions &&
            r.value[env].parent == frames[env].parent &&
            (forall k :: 0 <= k < |frames| && k != env ==> r.value[k] == frames[k])
    decreases |params| - i
  {
    if i < |params| {
      var f := frames[env];
      assert Tidy(f);
      var o := Bind(frames, env, params[i].text, ArgOrNull(args, i), false, false).value;
      assert o.frames[env] == f.(variables := f.variables[params[i].text := ArgOrNull(args, i)]);
      BindParamsByPosition(o.frames, env, params, args, i + 1);
    }
  }

  /** A call defines its parameters by position in a fresh scope under the closure; the
      closure and every other scope gain no parameter names. */
  lemma CallBindsParameters(frames: seq<Frame>, f: Value, args: seq<Value>)
    requires ValidArena(frames) && f.FunctionV? && f.closure < |frames|
    requires forall j, k :: 0 <= j < k < |f.params| ==> f.params[j].text != f.params[k].text
    ensures var r := BindParams(Extend(frames, Some(f.closure)), |frames|, f.params, args, 0);
            r.Ok? && r.value[..|frames|] == frames && r.value[|frames|].parent == Some(f.closure) &&
            forall j :: 0 <= j < |f.params| ==>
              Lookup(r.value, |frames|, f.params[j].text) == Ok(ArgOrNull(args, j))
  {
    var ext := Extend(frames, Some(f.closure));
    BindParamsByPosition(ext, |frames|, f.params, args, 0);
    var r := BindParams(ext, |frames|, f.params, args, 0).value;
    assert r[..|frames|] == frames;
  }

  /** Binding stops at the first parameter whose name is already bound in the scope or
      repeats an earlier parameter, with "Cannot redefine". */
  lemma {:induction false} BindParamsStopsAtDuplicate(frames: seq<Frame>, env: nat, params: seq<Tokens.Token>,
                                                      args: seq<Value>, i: nat, b: nat)
    requires ValidArena(frames) && env < |frames| && i <= b < |params|
    requires params[b].text in frames[env].variables ||
             exists j :: i <= j < b && params[j].text == params[b].text
    requires forall j :: i <= j < b ==> params[j].text !in frames[env].variables
    requires forall j, k :: i <= j < k < b ==> params[j].text != params[k].text
    ensures BindParams(frames, env, params, args, i) == Err(Redefined(params[b].text))
    decreases b - i
  {
    if i < b {
      var o := Bind(frames, env, params[i].text, ArgOrNull(args, i), false, false).value;
      assert o.frames[env].variables == frames[env].variables[params[i].text := ArgOrNull(args, i)];
      BindParamsStopsAtDuplicate(o.frames, env, params, args, i + 1, b);
    }
  }

  /** A function whose parameter list repeats a name fails on every call with a
      redefinition error for the first repeated name. */
  lemma DuplicateParameterFails(host: Host, fuel: nat, frames: seq<Frame>, f: Value, args: seq<Value>,
                                a: nat, b: nat)
    requires ValidArena(frames) && f.FunctionV? && f.closure < |frames|
    requires a < b < |f.params| && f.params[a].text == f.params[b].text
    requires forall j, k :: 0 <= j < k < b ==> f.params[j].text != f.params[k].text
    ensures CallFunction(host, fuel, frames, f, args) == Err(Redefined(f.params[b].text))
  {
    BindParamsStopsAtDuplicate(Extend(frames, Some(f.closure)), |frames|, f.params, args, 0, b);
  }

  /** The body stops at its first top-level return statement: what follows never runs. */
  lemma {:induction false} ReturnEndsBody(host: Host, fuel: nat, frames: seq<Frame>, env: nat,
                                          before: seq<Expr>, ret: Expr, after: seq<Expr>)
    requires ValidArena(frames) && env < |frames| && ret.Return?
    requires forall k :: 0 <= k < |before| ==> !before[k].Return?
    ensures RunBody(host, fuel, frames, env, before + [ret] + after) ==
            RunBody(host, fuel, frames, env, before + [ret])
    decreases |before|
  {
    var whole := before + [ret] + after;
    if |before| == 0 {
      assert whole[0] == ret && (before + [ret])[0] == ret;
    } else {
      assert whole[0] == before[0] && (before + [ret])[0] == before[0];
      assert whole[1..] == before[1..] + [ret] + after;
      assert (before + [ret])[1..] == before[1..] + [ret];
      match Eval(host, fuel, frames, env, before[0])
      case Ok(o) => ReturnEndsBody(host, fuel, o.frames, env, before[1..], ret, after);
      case Err(_) =>
    }
  }

  /** A return statement at the head of the body gives the value of its argument. */
  lemma ReturnGivesValue(host: Host, fuel: nat, frames: seq<Frame>, env: nat, argument: Expr, rest: seq<Expr>)
    requires ValidArena(frames) && env < |frames|
    ensures RunBody(host, fuel, frames, env, [Return(argument)] + rest) ==
            Eval(host, fuel, frames, env, argument)
  {
    assert ([Return(argument)] + rest)[0] == Return(argument);
  }

  /** A body without a top-level return statement gives Null, whatever its statements
      evaluate to. */
  lemma {:induction false} NoReturnGivesNull(host: Host, fuel: nat, frames: seq<Frame>, env: nat, body: seq<Expr>)
    requires ValidArena(frames) && env < |frames|
    requires forall k :: 0 <= k < |body| ==> !body[k].Return?
    requires RunBody(host, fuel, frames, env, body).Ok?
    ensures RunBody(host, fuel, frames, env, body).value.value == NullV
    decreases |body|
  {
    if |body| > 0 {
      var o := Eval(host, fuel, frames, env, body[0]).value;
      NoReturnGivesNull(host, fuel, o.frames, env, body[1..]);
    }
  }

  /** Calling a name bound to a built-in passes it the argument values and returns its
      result, or throws what it throws. */
  lemma NativeCallPassesArguments(host: Host, fuel: nat, frames: seq<Frame>, env: nat,
                                  name: Tokens.Token, args: seq<Expr>, n: string)
    requires ValidArena(frames) && env < |frames|
    requires Lookup(frames, env, name.text) == Ok(NativeV(n))
    requires EvalEach(host, fuel, frames, env, args).Ok?
    ensures var a := EvalEach(host, fuel, frames, env, args).value;
            var r := CallNative(host, n, a.values);
            Eval(host, fuel, frames, env, FunctionCall(name, args)) ==
            if r.Ok? then Ok(Outcome(a.frames, r.value)) else Err(r.msg)
  {
  }

  /** Calling a name bound to anything but a function or a built-in fails once the
      arguments are evaluated. */
  lemma CallingAValueFails(host: Host, fuel: nat, frames: seq<Frame>, env: nat,
                           name: Tokens.Token, args: seq<Expr>, v: Value)
    requires ValidArena(frames) && env < |frames|
    requires Lookup(frames, env, name.text) == Ok(v) && !v.FunctionV? && !v.NativeV?
    requires EvalEach(host, fuel, frames, env, args).Ok?
    ensures Eval(host, fuel, frames, env, FunctionCall(name, args)) == Err(NotCallable)
  {
  }

  // ---- assignment, ++ and -- -----------------------------------------------------------------

  /** An assignment to a name returns a VariableValue carrying the name and the value, whose
      payload is that value as an object, and the name reads back as that value. */
  lemma AssignmentReturnsVariable(host: Host, fuel: nat, frames: seq<Frame>, env: nat,
                                  x: Tokens.Token, source: Expr)
    requires ValidArena(frames) && env < |frames|
    requires Eval(host, fuel, frames, env, Assignment(Identifier(x), source)).Ok?
    ensures var s := Eval(host, fuel, frames, env, source).value;
            var o := Eval(host, fuel, frames, env, Assignment(Identifier(x), source)).value;
            o.value == VariableV(x.text, s.value) && KindOf(o.value) == VariableKind &&
            PayloadOf(o.value) == PObject &&
            Lookup(o.frames, env, x.text) == Ok(s.value)
  {
    AssignmentStep(host, fuel, frames, env, Identifier(x), source);
    var s := Eval(host, fuel, frames, env, source).value;
    assert NameOf(Identifier(x)) == Some(x.text);
    assert Assign(s.frames, env, Identifier(x), s.value) == Rebind(s.frames, env, x.text, s.value);
    RebindNearest(s.frames, env, x.text, s.value);
    RebindNeverCreates(s.frames, env, x.text, s.value);
  }

  /** An assignment evaluates its right side, then assigns. */
  lemma AssignmentStep(host: Host, fuel: nat, frames: seq<Frame>, env: nat, target: Expr, source: Expr)
    requires ValidArena(frames) && env < |frames|
    ensures var r := Eval(host, fuel, frames, env, Assignment(target, source));
            var s := Eval(host, fuel, frames, env, source);
            r.Ok? ==> s.Ok? && r == Assign(s.value.frames, env, target, s.value.value)
  {
  }

  /** Assigning to a node that has no name field fails once the right side is evaluated. */
  lemma AssignmentNeedsAName(host: Host, fuel: nat, frames: seq<Frame>, env: nat, target: Expr, source: Expr)
    requires ValidArena(frames) && env < |frames| && NameOf(target).None?
    requires Eval(host, fuel, frames, env, source).Ok?
    ensures Eval(host, fuel, frames, env, Assignment(target, source)) == Err(NoName)
  {
  }

  /** `++x` rebinds `x` to a number whatever its kind, and returns the VariableValue. */
  lemma IncrementRebindsNumber(host: Host, fuel: nat, frames: seq<Frame>, env: nat, op: Tokens.Token,
                               x: Tokens.Token)
    requires ValidArena(frames) && env < |frames| && op.text == "++"
    requires Lookup(frames, env, x.text).Ok?
    requires Eval(host, fuel, frames, env, Unary(op, Identifier(x))).Ok?
    ensures var v := Lookup(frames, env, x.text).value;
            var o := Eval(host, fuel, frames, env, Unary(op, Identifier(x))).value;
            o.value == VariableV(x.text, Incremented(host, v)) &&
            KindOf(Incremented(host, v)) == NumberKind &&
            Lookup(o.frames, env, x.text) == Ok(Incremented(host, v))
  {
    var v := Lookup(frames, env, x.text).value;
    RebindNearest(frames, env, x.text, Incremented(host, v));
    RebindNeverCreates(frames, env, x.text, Incremented(host, v));
  }

  /** `--x` rebinds a boolean, number or string `x` to its decremented value, and leaves
      every other kind alone, giving Null. */
  lemma DecrementRebinds(host: Host, fuel: nat, frames: seq<Frame>, env: nat, op: Tokens.Token,
                         x: Tokens.Token)
    requires ValidArena(frames) && env < |frames| && op.text == "--"
    requires Lookup(frames, env, x.text).Ok?
    ensures var v := Lookup(frames, env, x.text).value;
            var r := Eval(host, fuel, frames, env, Unary(op, Identifier(x)));
            match Decremented(host, v)
            case None => r == Ok(Outcome(frames, NullV))
            case Some(d) =>
              r.Ok? ==> r.value.value == VariableV(x.text, d) && Lookup(r.value.frames, env, x.text) == Ok(d)
  {
    var v := Lookup(frames, env, x.text).value;
    UnaryEvalStep(host, fuel, frames, env, op, Identifier(x));
    assert Eval(host, fuel, frames, env, Identifier(x)) == Ok(Outcome(frames, v));
    if Decremented(host, v).Some? {
      var d := Decremented(host, v).value;
      var r := Eval(host, fuel, frames, env, Unary(op, Identifier(x)));
      assert NameOf(Identifier(x)) == Some(x.text);
      assert r == Rebind(frames, env, x.text, d);
      if r.Ok? {
        RebindNearest(frames, env, x.text, d);
        RebindNeverCreates(frames, env, x.text, d);
      }
    }
  }

  /** A unary expression evaluates its operand, then applies the operator. */
  lemma UnaryEvalStep(host: Host, fuel: nat, frames: seq<Frame>, env: nat, op: Tokens.Token, operand: Expr)
    requires ValidArena(frames) && env < |frames|
    ensures var o := Eval(host, fuel, frames, env, operand);
            o.Ok? ==> Eval(host, fuel, frames, env, Unary(op, operand)) ==
                      UnaryStep(host, o.value.frames, env, op.text, operand, o.value.value)
  {
  }

  /** An operator other than `--`, `++`, `!` and `-` fails once its operand is evaluated. */
  lemma UnknownUnaryFails(host: Host, fuel: nat, frames: seq<Frame>, env: nat, op: Tokens.Token, operand: Expr)
    requires ValidArena(frames) && env < |frames| && op.text !in {"--", "++", "!", "-"}
    requires Eval(host, fuel, frames, env, operand).Ok?
    ensures Eval(host, fuel, frames, env, Unary(op, operand)) == Err(UnaryUnknown(op.text))
  {
  }
}
