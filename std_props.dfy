/** What the standard library promises: argument checks, the `length`, `boolean`, `type`,
    `string` and `number` tables, and a root scope whose names programs may reassign,
    delete and shadow. */
module StdProperties {
  import opened Wrappers
  import opened Numbers
  import opened Values
  import opened Environments
  import opened EnvironmentProperties
  import opened Std

  /** The five pure built-ins throw "Expected one argument" when called with none. */
  lemma BuiltinsNeedAnArgument(host: Host, name: string)
    requires name in {"number", "string", "boolean", "length", "type"}
    ensures CallNative(host, name, []) == Err(ExpectedOne)
  {
  }

  /** `length`: characters of a string or of a number's text, 1 for a boolean, 0 for null,
      the parameter count of a function, the element count of an array, 0 otherwise. */
  lemma LengthTable(v: Value, rest: seq<Value>)
    ensures var n := LengthBuiltin([v] + rest).value.text;
            (v.StringV? || v.NumberV? ==> n == NatToString(|v.text|)) &&
            (v.BooleanV? ==> n == "1") &&
            (v.NullV? ==> n == "0") &&
            (v.FunctionV? ==> n == NatToString(|v.params|)) &&
            (v.ArrayV? ==> n == NatToString(|v.elems|)) &&
            (v.NativeV? || v.VariableV? ==> n == "0")
  {
  }

  /** `boolean`: a boolean keeps its truth, a string is true iff non-empty, an integer iff it
      is not zero, and every other kind is false; the result is tagged STRING. */
  lemma BooleanTable(host: Host, v: Value, x: int)
    requires IsSafe(x)
    ensures v.BooleanV? ==> BooleanBuiltin(host, [v]) == Ok(StringV(BoolText(v.text == "true")))
    ensures v.StringV? ==> BooleanBuiltin(host, [v]) == Ok(StringV(BoolText(v.text != "")))
    ensures BooleanBuiltin(host, [NumberV(IntToString(x))]) == Ok(StringV(BoolText(x != 0)))
    ensures !(v.BooleanV? || v.StringV? || v.NumberV?) ==> BooleanBuiltin(host, [v]) == Ok(StringV("false"))
  {
    IntViewOfIntToString(x);
  }

  /** `type` names the argument's kind in lower case. */
  lemma TypeTable(v: Value)
    ensures v.NumberV? ==> TypeBuiltin([v]) == Ok(StringV("number"))
    ensures v.StringV? ==> TypeBuiltin([v]) == Ok(StringV("string"))
    ensures v.BooleanV? ==> TypeBuiltin([v]) == Ok(StringV("boolean"))
    ensures v.NullV? ==> TypeBuiltin([v]) == Ok(StringV("null"))
    ensures v.FunctionV? ==> TypeBuiltin([v]) == Ok(StringV("function"))
    ensures v.NativeV? ==> TypeBuiltin([v]) == Ok(StringV("native_function"))
    ensures v.VariableV? ==> TypeBuiltin([v]) == Ok(StringV("variable"))
    ensures v.ArrayV? ==> TypeBuiltin([v]) == Ok(StringV("array"))
  {
  }

  /** `string` hands back the stored text as a string value; `null` prints as "null". */
  lemma StringOfText(v: Value)
    ensures v.StringV? || v.NumberV? || v.BooleanV? ==> StringBuiltin([v]) == Ok(StringV(v.text))
    ensures v.NullV? || v.FunctionV? ==> StringBuiltin([v]) == Ok(StringV("null"))
  {
  }

  /** `number` leaves an integer's text as it is, and reads `null` as zero. */
  lemma NumberOfInteger(host: Host, x: int)
    requires IsSafe(x)
    ensures NumberBuiltin(host, [NumberV(IntToString(x))]) == Ok(NumberV(IntToString(x)))
    ensures NumberBuiltin(host, [StringV(IntToString(x))]) == Ok(NumberV(IntToString(x)))
    ensures NumberBuiltin(host, [NullV]) == Ok(NumberV("0"))
  {
    IntViewOfIntToString(x);
  }

  /** The I/O built-ins never fail: `print` and `clear` give null, `timestamp` a number and
      `input` a string holding the host's text, and `rand` a value whose kind the first
      argument names. */
  lemma HostBuiltins(host: Host, args: seq<Value>)
    ensures CallNative(host, "print", args) == Ok(NullV)
    ensures CallNative(host, "clear", args) == Ok(NullV)
    ensures CallNative(host, "timestamp", args) == Ok(NumberV(host.native("timestamp", args)))
    ensures CallNative(host, "input", args) == Ok(StringV(host.native("input", args)))
    ensures var r := CallNative(host, "rand", args);
            r.Ok? && r.value.text == host.native("rand", args) &&
            (r.value.NumberV? <==> |args| > 0 && PayloadOf(args[0]) == PText("number"))
  {
  }

  /** Every root name is a plain binding: a program may reassign it and delete it, but not
      define it again in the root scope. */
  lemma RootNamesArePlain(name: string, v: Value)
    requires name in RootFrame().variables
    ensures name !in RootFrame().constants && name !in RootFrame().functions
    ensures Rebind([RootFrame()], 0, name, v).Ok?
    ensures Unbind([RootFrame()], 0, name) ==
            Ok(Outcome([RootFrame().(variables := RootFrame().variables - {name})],
                       RootFrame().variables[name]))
    ensures Bind([RootFrame()], 0, name, v, false, false) == Err(Redefined(name))
  {
    var root := RootFrame();
    assert Lookup([root], 0, name) == Ok(root.variables[name]);
    assert [root][0 := root.(variables := root.variables - {name})] ==
           [root.(variables := root.variables - {name})];
  }

  /** A scope opened under the root may shadow a root name. */
  lemma RootNamesShadowable(name: string, v: Value, c: bool, f: bool)
    ensures var fs := Extend([RootFrame()], Some(0));
            Bind(fs, 1, name, v, c, f).Ok? &&
            Lookup(Bind(fs, 1, name, v, c, f).value.frames, 1, name) == Ok(v)
  {
    var fs := Extend([RootFrame()], Some(0));
    BindThenLookup(fs, 1, name, v, c, f);
  }

  /** The root scope hands out the built-ins under their own names. */
  lemma RootLookup()
    ensures Lookup([RootFrame()], 0, "length") == Ok(NativeV("length"))
    ensures Lookup([RootFrame()], 0, "PI") == Ok(NumberV(PiText))
    ensures Lookup([RootFrame()], 0, "missing") == Err(Undefined("missing"))
  {
  }
}
