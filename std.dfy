/** The standard library: the names the root scope starts with, and the bodies of the
    built-ins.  What `rand`, `timestamp` and `input` read from a random source, the clock
    or the console is the host's text (`Host.native`); what `print` and `clear` do to the
    console is not modelled, only the null they return. */
module Std {
  import opened Wrappers
  import opened Numbers
  import opened Values
  import opened Environments

  const ExpectedOne: string := "Expected one argument"

  /** `Math.PI.toString()` and `Math.E.toString()` */
  const PiText: string := "3.141592653589793"
  const EText: string := "2.718281828459045"

  /** `number`: `Number(payload).toString()`, so `null` gives "0". */
  function NumberBuiltin(host: Host, args: seq<Value>): (r: Result<Value>)
    ensures r.Err? <==> |args| == 0
    ensures r.Ok? ==> r.value.NumberV?
  {
    if |args| == 0 then Err(ExpectedOne)
    else
      var p := PayloadOf(args[0]);
      Ok(NumberV(if p.PNull? then "0" else NumberText(host, JsString(p))))
  }

  /** `string`: `String(payload)` as a string value. */
  function StringBuiltin(args: seq<Value>): (r: Result<Value>)
    ensures r.Err? <==> |args| == 0
    ensures r.Ok? ==> r.value.StringV?
  {
    if |args| == 0 then Err(ExpectedOne) else Ok(StringV(JsString(PayloadOf(args[0]))))
  }

  /** `boolean`: the truth of the argument as the text "true" or "false", tagged STRING. */
  function BooleanBuiltin(host: Host, args: seq<Value>): (r: Result<Value>)
    ensures r.Err? <==> |args| == 0
    ensures r.Ok? ==> r.value.StringV? && (r.value.text == "true" || r.value.text == "false")
  {
    if |args| == 0 then Err(ExpectedOne)
    else
      var truth := match args[0]
        case BooleanV(t) => t == "true"
        case NumberV(t) => NumberTruthy(host, t)
        case StringV(t) => t != ""
        case _ => false;
      Ok(StringV(BoolText(truth)))
  }

  /** `length` */
  function LengthBuiltin(args: seq<Value>): (r: Result<Value>)
    ensures r.Err? <==> |args| == 0
    ensures r.Ok? ==> r.value.NumberV? && CanonicalDigits(r.value.text)
  {
    if |args| == 0 then Err(ExpectedOne)
    else
      var n := match args[0]
        case StringV(t) => |t|
        case NumberV(t) => |t|
        case BooleanV(_) => 1
        case NullV => 0
        case FunctionV(_, params, _, _) => |params|
        case ArrayV(es) => |es|
        case _ => 0;
      Ok(NumberV(NatToString(n)))
  }

  /** `type`: the lower-cased kind tag as a string value. */
  function TypeBuiltin(args: seq<Value>): (r: Result<Value>)
    ensures r.Err? <==> |args| == 0
    ensures r.Ok? ==> r.value == StringV(TypeName(KindOf(args[0])))
  {
    if |args| == 0 then Err(ExpectedOne) else Ok(StringV(TypeName(KindOf(args[0]))))
  }

  /** `NativeFunctionValue.call`: the argument list goes to the function the name was bound
      with, and its result comes back. */
  function CallNative(host: Host, name: string, args: seq<Value>): (r: Result<Value>)
    ensures r.Err? <==> |args| == 0 && name in {"number", "string", "boolean", "length", "type"}
    ensures name in {"print", "clear"} ==> r == Ok(NullV)
  {
    if name == "number" then NumberBuiltin(host, args)
    else if name == "string" then StringBuiltin(args)
    else if name == "boolean" then BooleanBuiltin(host, args)
    else if name == "length" then LengthBuiltin(args)
    else if name == "type" then TypeBuiltin(args)
    else if name == "print" || name == "clear" then Ok(NullV)
    else if name == "rand" then Ok(RandBuiltin(host, args))
    else if name == "timestamp" then Ok(NumberV(host.native(name, args)))
    // `input`, the one other name a native value is bound under
    else Ok(StringV(host.native(name, args)))
  }

  /** `rand`: a number when the first argument's payload is the text "number", a boolean
      when it is "boolean", a string otherwise; the text is the host's random source. */
  function RandBuiltin(host: Host, args: seq<Value>): (r: Value)
    ensures r.NumberV? <==> |args| > 0 && PayloadOf(args[0]) == PText("number")
    ensures r.BooleanV? <==> |args| > 0 && PayloadOf(args[0]) == PText("boolean")
    ensures r.NumberV? || r.BooleanV? || r.StringV?
  {
    var t := host.native("rand", args);
    if |args| > 0 && PayloadOf(args[0]) == PText("number") then NumberV(t)
    else if |args| > 0 && PayloadOf(args[0]) == PText("boolean") then BooleanV(t)
    else StringV(t)
  }

  /** The root scope once `defineVariables` and `defineFunctions` have run: every name is a
      plain binding, neither constant nor function. */
  function RootFrame(): (f: Frame)
    ensures forall n :: n in f.variables && f.variables[n].NativeV? ==> f.variables[n].name == n
    ensures f.constants == {} && f.functions == map[] && f.parent.None?
  {
    Frame(map["PI" := NumberV(PiText), "E" := NumberV(EText), "version" := StringV("0.0.1"),
              "rand" := NativeV("rand"), "print" := NativeV("print"), "clear" := NativeV("clear"),
              "timestamp" := NativeV("timestamp"), "number" := NativeV("number"),
              "string" := NativeV("string"), "boolean" := NativeV("boolean"),
              "length" := NativeV("length"), "type" := NativeV("type"), "input" := NativeV("input")],
          {}, map[], None)
  }

  /** One `env.define(name, value)` of the library: a plain binding of a fresh name. */
  method DefinePlain(scopes: Scopes, env: nat, name: string, value: Value)
    requires scopes.Valid() && env < |scopes.frames| && name !in scopes.frames[env].variables
    modifies scopes
    ensures scopes.Valid()
    ensures var f := old(scopes.frames[env]);
            scopes.frames == old(scopes.frames)[env := f.(variables := f.variables[name := value])]
  {
    var _ := scopes.Define(env, name, value, false, false);
  }

  /** `defineVariables` */
  method DefineVariables(scopes: Scopes, env: nat)
    requires scopes.Valid() && env < |scopes.frames| && scopes.frames[env] == EmptyFrame(None)
    modifies scopes
    ensures scopes.Valid()
    ensures scopes.frames == old(scopes.frames)[env := Frame(
              map["PI" := NumberV(PiText), "E" := NumberV(EText), "version" := StringV("0.0.1")],
              {}, map[], None)]
  {
    DefinePlain(scopes, env, "PI", NumberV(PiText));
    DefinePlain(scopes, env, "E", NumberV(EText));
    DefinePlain(scopes, env, "version", StringV("0.0.1"));
  }

  /** `defineFunctions` */
  method DefineFunctions(scopes: Scopes, env: nat)
    requires scopes.Valid() && env < |scopes.frames|
    requires scopes.frames[env] == Frame(
               map["PI" := NumberV(PiText), "E" := NumberV(EText), "version" := StringV("0.0.1")],
               {}, map[], None)
    modifies scopes
    ensures scopes.Valid() && scopes.frames == old(scopes.frames)[env := RootFrame()]
  {
    DefinePlain(scopes, env, "rand", NativeV("rand"));
    DefinePlain(scopes, env, "print", NativeV("print"));
    DefinePlain(scopes, env, "clear", NativeV("clear"));
    DefinePlain(scopes, env, "timestamp", NativeV("timestamp"));
    DefinePlain(scopes, env, "number", NativeV("number"));
    DefinePlain(scopes, env, "string", NativeV("string"));
    DefinePlain(scopes, env, "boolean", NativeV("boolean"));
    DefinePlain(scopes, env, "length", NativeV("length"));
    DefinePlain(scopes, env, "type", NativeV("type"));
    DefinePlain(scopes, env, "input", NativeV("input"));
  }

  /** `new Environment()` with no parent: a fresh scope filled by the standard library. */
  method NewRoot(scopes: Scopes) returns (env: nat)
    requires scopes.Valid()
    modifies scopes
    ensures scopes.Valid() && env == |old(scopes.frames)|
    ensures scopes.frames == old(scopes.frames) + [RootFrame()]
  {
    env := scopes.NewScope(None);
    DefineVariables(scopes, env);
    DefineFunctions(scopes, env);
  }
}
