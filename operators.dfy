/** The operator table of the interpreter: what each binary and unary operator computes from
    the values of its operands.  These are pure functions of the two values; the
    interpreter evaluates the operands and, for `++` and `--`, rebinds the variable. */
module Operators {
  import opened Wrappers
  import opened Numbers
  import opened Values

  const ZeroDivision: string := "Zero division is not allowed"
  const InvalidArrayLength: string := "Invalid array length"

  // ---- string helpers (JavaScript's String methods) ---------------------------------------

  /** A `slice` index: negative counts from the end, and both ends are clamped. */
  function Clamp(len: nat, i: int): (k: nat)
    ensures k <= len
    ensures 0 <= i <= len ==> k == i
    ensures -(len as int) <= i < 0 ==> k == len + i
  {
    if i < 0 then (if len + i < 0 then 0 else len + i) else if i > len then len else i
  }

  /** `s.slice(start, end)` */
  function Slice(s: string, start: int, end: int): (r: string)
    ensures |r| <= |s|
  {
    var from := Clamp(|s|, start);
    var to := Clamp(|s|, end);
    if from < to then s[from..to] else ""
  }

  /** The first index at which `p` occurs in `s` (`indexOf`). */
  function Find(s: string, p: string): (k: Option<nat>)
    ensures k.Some? ==> k.value + |p| <= |s| && s[k.value..k.value + |p|] == p
    ensures k.Some? ==> forall j :: 0 <= j < k.value ==> !(p <= s[j..])
    ensures k.None? ==> forall j :: 0 <= j <= |s| ==> !(p <= s[j..])
    decreases |s|
  {
    if p <= s then Some(0)
    else if |s| == 0 then None
    else
      var k := Find(s[1..], p);
      assert forall j :: 1 <= j <= |s| ==> s[j..] == s[1..][j - 1..];
      if k.None? then None
      else
        assert s[k.value + 1..k.value + 1 + |p|] == s[1..][k.value..k.value + |p|];
        Some(k.value + 1)
  }

  /** `s.replace(p, "")`: the first occurrence of `p` removed. */
  function ReplaceFirst(s: string, p: string): (r: string)
    ensures Find(s, p).None? ==> r == s
    ensures Find(s, p).Some? ==> |r| == |s| - |p|
  {
    match Find(s, p)
    case None => s
    case Some(k) => s[..k] + s[k + |p|..]
  }

  /** `new Array(n).fill(0).map(() => s).join("")` */
  function Repeat(s: string, n: nat): string
  {
    if n == 0 then "" else Repeat(s, n - 1) + s
  }

  /** `s.split(sep)` for a non-empty separator, `cur` being the piece read so far. */
  function SplitFrom(s: string, sep: string, cur: string): (ps: seq<string>)
    requires sep != ""
    ensures |ps| > 0
    decreases |s|
  {
    if |s| == 0 then [cur]
    else if sep <= s then [cur] + SplitFrom(s[|sep|..], sep, "")
    else SplitFrom(s[1..], sep, cur + [s[0]])
  }

  /** `s.split(sep)`; the empty separator splits into characters. */
  function Split(s: string, sep: string): (ps: seq<string>)
    ensures sep == "" ==> |ps| == |s|
    ensures sep != "" ==> |ps| > 0
  {
    if sep == "" then seq(|s|, i requires 0 <= i < |s| => [s[i]])
    else SplitFrom(s, sep, "")
  }

  /** `.filter(x => x.length > 0)` */
  function NonEmpty(ps: seq<string>): (qs: seq<string>)
    ensures forall i :: 0 <= i < |qs| ==> qs[i] != ""
    ensures |qs| <= |ps|
  {
    if |ps| == 0 then []
    else if ps[0] == "" then NonEmpty(ps[1..])
    else [ps[0]] + NonEmpty(ps[1..])
  }

  function StringValues(ps: seq<string>): (vs: seq<Value>)
    ensures |vs| == |ps| && forall i :: 0 <= i < |ps| ==> vs[i] == StringV(ps[i])
  {
    if |ps| == 0 then [] else [StringV(ps[0])] + StringValues(ps[1..])
  }

  /** `str.join(sep)` */
  function Join(ps: seq<string>, sep: string): string
  {
    if |ps| == 0 then "" else if |ps| == 1 then ps[0] else ps[0] + sep + Join(ps[1..], sep)
  }

  /** The elements `string / n` builds: `count` slices of two characters. */
  function Pairs(s: string, count: nat): (vs: seq<Value>)
    ensures |vs| == count
    ensures forall i :: 0 <= i < count ==> vs[i] == StringV(Slice(s, 2 * i, 2 * i + 2))
  {
    seq(count, i requires 0 <= i < count => StringV(Slice(s, 2 * i, 2 * i + 2)))
  }

  /** `new Array(n)` for an integer `n`: the length it accepts. */
  predicate ArrayLength(n: int) { 0 <= n < 0x1_0000_0000 }

  // ---- binary operators --------------------------------------------------------------------

  /** `parseAdditionExpr` */
  function AddValues(host: Host, l: Value, r: Value): (o: Result<Value>)
    ensures o.Err? <==> (l.StringV? || r.StringV?) && (PayloadOf(l).PNull? || PayloadOf(r).PNull?)
    ensures o.Ok? && (l.StringV? || r.StringV?) ==> o.value.StringV?
  {
    if l.StringV? || r.StringV? then
      var a :- ToStringCall(PayloadOf(l));
      var b :- ToStringCall(PayloadOf(r));
      Ok(StringV(a + b))
    else if l.NumberV? && r.NumberV? then Ok(NumberV(Arith(host, Add, l.text, r.text)))
    else if l.BooleanV? && r.BooleanV? then Ok(BooleanV(BoolText(l.text == "true" || r.text == "true")))
    else Ok(NullV)
  }

  /** `parseSubstractionExpr` */
  function SubtractValues(host: Host, l: Value, r: Value): (v: Value)
    ensures v.StringV? ==> (l.StringV? && |v.text| <= |l.text|) || (r.StringV? && |v.text| <= |r.text|)
  {
    if l.NumberV? && r.NumberV? then NumberV(Arith(host, Sub, l.text, r.text))
    else if l.StringV? && r.StringV? then StringV(ReplaceFirst(l.text, r.text))
    else if l.StringV? && r.NumberV? then StringV(Slice(l.text, 0, -SliceIndex(host, r.text)))
    else if l.NumberV? && r.StringV? then StringV(Slice(r.text, SliceIndex(host, l.text), |r.text|))
    else if l.BooleanV? && r.BooleanV? then
      // `(l && !r).toString()` on the texts
      BooleanV(if l.text == "" then "" else BoolText(r.text == ""))
    else if (l.BooleanV? && r.NumberV?) || (l.NumberV? && r.BooleanV?) then
      NumberV(Arith(host, Sub, l.text, r.text))
    else NullV
  }

  /** `parseMultiplicationOperator` */
  function MultiplyValues(host: Host, l: Value, r: Value): (o: Result<Value>)
    ensures o.Err? ==> o.msg == InvalidArrayLength && l.StringV? && r.NumberV?
  {
    if l.NumberV? && r.NumberV? then Ok(NumberV(Arith(host, Mul, l.text, r.text)))
    else if l.StringV? && r.NumberV? then
      match ParseInt(r.text)
      case Some(n) =>
        if ArrayLength(n) then Ok(StringV(Repeat(l.text, n))) else Err(InvalidArrayLength)
      case None => Err(InvalidArrayLength)
    else if l.StringV? && r.BooleanV? then Ok(StringV(if r.text == "true" then l.text else ""))
    else if l.NumberV? && r.BooleanV? then Ok(NumberV(if r.text == "true" then l.text else "0"))
    else if l.BooleanV? && r.BooleanV? then Ok(BooleanV(BoolText(l.text == "true" && r.text == "true")))
    else Ok(NullV)
  }

  /** `Math.ceil(len / n)` for the integer `n`, when `new Array` accepts it. */
  function PairCount(len: nat, n: int): Option<nat>
  {
    if n > 0 then Some((len + n - 1) / n)
    else if n < 0 && len < -n then Some(0)
    else None
  }

  /** `parseDivisionOperator` */
  function DivideValues(host: Host, l: Value, r: Value): (o: Result<Value>)
    ensures o.Err? ==> (o.msg == ZeroDivision && l.NumberV? && r.NumberV?) ||
                       (o.msg == InvalidArrayLength && l.StringV? && r.NumberV?)
    ensures o.Ok? && l.StringV? && (r.StringV? || r.NumberV?) ==> o.value.ArrayV?
  {
    if l.NumberV? && r.NumberV? then
      if IsZero(host, r.text) then Err(ZeroDivision)
      else Ok(NumberV(Arith(host, Div, l.text, r.text)))
    else if l.StringV? && r.NumberV? then
      match ParseInt(r.text)
      case Some(n) =>
        (match PairCount(|l.text|, n)
         case Some(count) => Ok(ArrayV(Pairs(l.text, count)))
         case None => Err(InvalidArrayLength))
      case None => Err(InvalidArrayLength)
    else if l.StringV? && r.StringV? then Ok(ArrayV(StringValues(NonEmpty(Split(l.text, r.text)))))
    else Ok(NullV)
  }

  /** `left.value === right.value`.  Two arrays, or two runtime-value objects, are taken as
      distinct objects. */
  predicate SamePayload(p: Payload, q: Payload)
  {
    match (p, q)
    case (PText(a), PText(b)) => a == b
    case (PNull, PNull) => true
    case _ => false
  }

  /** `==`: same kind tag and same payload. */
  predicate Equal(l: Value, r: Value)
    ensures Equal(l, r) ==> PayloadOf(l) == PayloadOf(r) && !PayloadOf(l).PArray? && !PayloadOf(l).PObject?
  {
    KindOf(l) == KindOf(r) && SamePayload(PayloadOf(l), PayloadOf(r))
  }

  /** `&&` and `||` on the raw payloads, then `.toString()` of the payload chosen. */
  function LogicalValue(isAnd: bool, l: Value, r: Value): (o: Result<Value>)
    ensures o.Ok? ==> o.value.BooleanV? &&
                      (Ok(o.value.text) == ToStringCall(PayloadOf(l)) ||
                       Ok(o.value.text) == ToStringCall(PayloadOf(r)))
    ensures o.Err? ==> PayloadOf(l).PNull? || PayloadOf(r).PNull?
  {
    var pl := PayloadOf(l);
    var pr := PayloadOf(r);
    var chosen := if isAnd then (if Truthy(pl) then pr else pl) else (if Truthy(pl) then pl else pr);
    var t :- ToStringCall(chosen);
    Ok(BooleanV(t))
  }

  function CompareValues(host: Host, op: CmpOp, l: Value, r: Value): Value
  {
    BooleanV(BoolText(Compare(host, op, JsString(PayloadOf(l)), JsString(PayloadOf(r)))))
  }

  function NumericValue(host: Host, op: ArithOp, l: Value, r: Value): Value
  {
    NumberV(Arith(host, op, JsString(PayloadOf(l)), JsString(PayloadOf(r))))
  }

  /** `parseBinaryExpr` once both operands are evaluated, dispatching on the operator's
      text. */
  function BinaryOp(host: Host, op: string, l: Value, r: Value): (o: Result<Value>)
    ensures op in {"==", "!=", ">", ">=", "<", "<="} ==> o.Ok? && o.value.BooleanV?
    ensures o.Err? ==> op in {"+", "*", "/", "&&", "||"} || o.msg == "Unimplemented binary operator " + op
  {
    if op == "+" then AddValues(host, l, r)
    else if op == "-" then Ok(SubtractValues(host, l, r))
    else if op == "*" then MultiplyValues(host, l, r)
    else if op == "/" then DivideValues(host, l, r)
    else if op == "%" then Ok(NumericValue(host, Mod, l, r))
    else if op == "==" then Ok(BooleanV(BoolText(Equal(l, r))))
    else if op == "!=" then Ok(BooleanV(BoolText(!Equal(l, r))))
    else if op == ">" then Ok(CompareValues(host, Gt, l, r))
    else if op == ">=" then Ok(CompareValues(host, Ge, l, r))
    else if op == "<" then Ok(CompareValues(host, Lt, l, r))
    else if op == "<=" then Ok(CompareValues(host, Le, l, r))
    else if op == "&&" then LogicalValue(true, l, r)
    else if op == "||" then LogicalValue(false, l, r)
    else if op == "**" then Ok(NumericValue(host, Pow, l, r))
    else Err("Unimplemented binary operator " + op)
  }

  // ---- unary operators ---------------------------------------------------------------------

  /** `parseNotOperator` */
  predicate NotValue(host: Host, v: Value)
  {
    match v
    case BooleanV(t) => t != "true"
    case NullV => true
    case NumberV(t) => IsZero(host, t)
    case StringV(t) => t == ""
    case _ => false
  }

  /** The value `--` rebinds the variable to (`parseDecrement`); `None` for the kinds it
      leaves alone. */
  function Decremented(host: Host, v: Value): (d: Option<Value>)
    ensures d.Some? <==> v.BooleanV? || v.NumberV? || v.StringV?
    ensures d.Some? ==> KindOf(d.value) == KindOf(v)
    ensures d.Some? && v.StringV? ==> |d.value.text| == if v.text == "" then 0 else |v.text| - 1
  {
    match v
    case BooleanV(_) => Some(BooleanV("false"))
    case NumberV(t) => Some(NumberV(Arith(host, Sub, t, "1")))
    case StringV(t) => Some(StringV(Slice(t, 0, -1)))
    case _ => None
  }

  /** The value `++` rebinds the variable to, whatever its kind. */
  function Incremented(host: Host, v: Value): (w: Value)
    ensures w.NumberV?
  {
    NumberV(Arith(host, Add, JsString(PayloadOf(v)), "1"))
  }

  /** Prefix `-` */
  function NegateValue(host: Host, v: Value): (w: Value)
    ensures w.NumberV?
  {
    NumberV(Negate(host, JsString(PayloadOf(v))))
  }
}
