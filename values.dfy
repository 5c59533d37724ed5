/** Runtime values (`RuntimeValue` and its subclasses) and the host's view of their payloads.

    Every value carries a kind tag and a payload (`value`): the token text for numbers,
    strings and booleans, `null` for null, functions and natives, the element list for
    arrays.  A `VariableValue` declares `value` as a constructor parameter property, which
    is assigned after the base constructor has stored the wrapped value's payload: its
    `value` field ends up holding the wrapped runtime-value object itself. */
module Values {
  import opened Wrappers
  import opened Tokens
  import opened Ast
  import opened Numbers

  /** The kind tag (`ValueType`). */
  datatype Kind = NumberKind | StringKind | BooleanKind | NullKind | ArrayKind
                | FunctionKind | NativeKind | VariableKind

  datatype Value =
    | NumberV(text: string)
    | StringV(text: string)
    | BooleanV(text: string)
    | NullV
    | ArrayV(elems: seq<Value>)
      /** A user function: its parameters, its body and the scope it closes over (an index
          into the scope arena of module Environments). */
    | FunctionV(name: string, params: seq<Token>, body: seq<Expr>, closure: nat)
      /** A host function bound by the standard library. */
    | NativeV(name: string)
      /** What an assignment returns: the name and the value assigned (`held`). */
    | VariableV(name: string, held: Value)

  /** What the `value` field holds. */
  datatype Payload = PText(s: string) | PNull | PArray(elems: seq<Value>)
                  /** A runtime-value object (the payload of a `VariableValue`). */
                  | PObject

  function KindOf(v: Value): Kind
  {
    match v
    case NumberV(_) => NumberKind
    case StringV(_) => StringKind
    case BooleanV(_) => BooleanKind
    case NullV => NullKind
    case ArrayV(_) => ArrayKind
    case FunctionV(_, _, _, _) => FunctionKind
    case NativeV(_) => NativeKind
    case VariableV(_, _) => VariableKind
  }

  /** The `value` field of a runtime value. */
  function PayloadOf(v: Value): (p: Payload)
    ensures v.NumberV? || v.StringV? || v.BooleanV? ==> p == PText(v.text)
    ensures v.ArrayV? ==> p == PArray(v.elems)
    ensures v.NullV? || v.FunctionV? || v.NativeV? ==> p == PNull
    ensures v.VariableV? ==> p == PObject
  {
    match v
    case NumberV(t) => PText(t)
    case StringV(t) => PText(t)
    case BooleanV(t) => PText(t)
    case ArrayV(es) => PArray(es)
    case VariableV(_, _) => PObject
    case _ => PNull
  }

  /** `value.type.toString().toLowerCase()`: the tag `type` reports. */
  function TypeName(k: Kind): (n: string)
    ensures n != "" && forall i :: 0 <= i < |n| ==> 'a' <= n[i] <= 'z' || n[i] == '_'
  {
    match k
    case NumberKind => "number"
    case StringKind => "string"
    case BooleanKind => "boolean"
    case NullKind => "null"
    case ArrayKind => "array"
    case FunctionKind => "function"
    case NativeKind => "native_function"
    case VariableKind => "variable"
  }

  /** `[object Object]` repeated `n` times, separated by commas: how JavaScript prints an
      array of runtime-value objects. */
  function ObjectList(n: nat): (s: string)
    ensures n == 0 <==> s == ""
  {
    if n == 0 then "" else if n == 1 then "[object Object]" else ObjectList(n - 1) + ",[object Object]"
  }

  /** `String(payload)`: never fails, `null` prints as `null`. */
  function JsString(p: Payload): string
  {
    match p
    case PText(s) => s
    case PNull => "null"
    case PArray(es) => ObjectList(|es|)
    case PObject => "[object Object]"
  }

  const NullToString: string := "Cannot read properties of null (reading 'toString')"

  /** `payload.toString()`: a TypeError on `null`. */
  function ToStringCall(p: Payload): (r: Result<string>)
    ensures r.Err? <==> p.PNull?
    ensures r.Ok? ==> r.value == JsString(p)
  {
    if p.PNull? then Err(NullToString) else Ok(JsString(p))
  }

  /** JavaScript truthiness of a payload: only the empty text and `null` are falsy (arrays
      and runtime-value objects are objects, and so truthy). */
  predicate Truthy(p: Payload)
  {
    match p
    case PText(s) => s != ""
    case PNull => false
    case PArray(_) => true
    case PObject => true
  }

  function BoolText(b: bool): (s: string)
    ensures s == "true" <==> b
  {
    if b then "true" else "false"
  }

  // ---- numbers ---------------------------------------------------------------------------

  datatype ArithOp = Add | Sub | Mul | Div | Mod | Pow
  datatype CmpOp = Gt | Ge | Lt | Le

  /** What the model leaves to the host's double arithmetic, each on the `String` form of
      the payloads:
      - `arith(op, a, b)`: `(parseFloat(a) op parseFloat(b)).toString()` (`**` is
        `Math.pow`);
      - `negate(a)`: `(-parseFloat(a)).toString()`;
      - `compare(op, a, b)`: `parseFloat(a) op parseFloat(b)`;
      - `isZero(a)`: `parseFloat(a) === 0`;
      - `toInteger(a)`: `parseFloat(a)` truncated toward zero as `slice` reads an index (NaN
        as 0, infinities as any integer past the ends of the string);
      - `number(a)`: `Number(a).toString()`, and `numberTruthy(a)`: `Boolean(Number(a))`;
      - `native(name, args)`: the text that `rand`, `timestamp` and `input` read from a
        random source, the clock or the console.
      On canonical safe-integer text the model computes these itself (functions below). */
  datatype Host = Host(
    arith: (ArithOp, string, string) -> string,
    negate: string -> string,
    compare: (CmpOp, string, string) -> bool,
    isZero: string -> bool,
    toInteger: string -> int,
    number: string -> string,
    numberTruthy: string -> bool,
    native: (string, seq<Value>) -> string)

  /** The exact integer result of an arithmetic operator, where it has one. */
  function ExactArith(op: ArithOp, a: int, b: int): Option<int>
  {
    match op
    case Add => Some(a + b)
    case Sub => Some(a - b)
    case Mul => Some(a * b)
    case Div => if b != 0 && a % b == 0 then Some(a / b) else None
    case _ => None
  }

  /** `(parseFloat(a) op parseFloat(b)).toString()`: exact when both texts are canonical
      safe integers and so is the result, the host's otherwise. */
  function Arith(host: Host, op: ArithOp, a: string, b: string): string
  {
    match (IntView(a), IntView(b))
    case (Some(x), Some(y)) =>
      var z := ExactArith(op, x, y);
      if z.Some? && IsSafe(z.value) then IntToString(z.value) else host.arith(op, a, b)
    case _ => host.arith(op, a, b)
  }

  function Negate(host: Host, a: string): string
  {
    match IntView(a)
    case Some(x) => IntToString(-x)
    case None => host.negate(a)
  }

  function Compare(host: Host, op: CmpOp, a: string, b: string): bool
  {
    match (IntView(a), IntView(b))
    case (Some(x), Some(y)) =>
      (match op
       case Gt => x > y
       case Ge => x >= y
       case Lt => x < y
       case Le => x <= y)
    case _ => host.compare(op, a, b)
  }

  /** `parseFloat(a) === 0` */
  predicate IsZero(host: Host, a: string)
  {
    match IntView(a)
    case Some(x) => x == 0
    case None => host.isZero(a)
  }

  /** `parseFloat(a)` as `slice` reads it. */
  function SliceIndex(host: Host, a: string): int
  {
    match IntView(a)
    case Some(x) => x
    case None => host.toInteger(a)
  }

  /** `Number(a).toString()` */
  function NumberText(host: Host, a: string): string
  {
    if IntView(a).Some? then a else host.number(a)
  }

  /** `Boolean(Number(a))` */
  predicate NumberTruthy(host: Host, a: string)
  {
    match IntView(a)
    case Some(x) => x != 0
    case None => host.numberTruthy(a)
  }

  /** On canonical integer text the arithmetic the model computes is integer arithmetic. */
  lemma ArithOnIntegers(host: Host, op: ArithOp, x: int, y: int)
    requires IsSafe(x) && IsSafe(y) && op in {Add, Sub, Mul}
    requires IsSafe(ExactArith(op, x, y).value)
    ensures IntView(Arith(host, op, IntToString(x), IntToString(y))) == ExactArith(op, x, y)
  {
    IntViewOfIntToString(x);
    IntViewOfIntToString(y);
    IntViewOfIntToString(ExactArith(op, x, y).value);
  }

  /** Negation is exact on canonical integers, and undoes itself. */
  lemma NegateTwice(host: Host, x: int)
    requires IsSafe(x)
    ensures IntView(Negate(host, IntToString(x))) == Some(-x)
    ensures Negate(host, Negate(host, IntToString(x))) == IntToString(x)
  {
    IntViewOfIntToString(x);
    IntViewOfIntToString(-x);
  }
}
