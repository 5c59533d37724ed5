/** What the operator table promises, row by row. */
module OperatorProperties {
  import opened Wrappers
  import opened Numbers
  import opened Values
  import opened Operators

  // ---- helpers on strings --------------------------------------------------------------------

  /** Removing the first occurrence and putting it back gives the original text. */
  lemma ReplaceFirstRemoves(s: string, p: string)
    ensures Find(s, p).None? ==> ReplaceFirst(s, p) == s
    ensures Find(s, p).Some? ==>
              var k := Find(s, p).value;
              var r := ReplaceFirst(s, p);
              |r| == |s| - |p| && s == r[..k] + p + r[k..]
  {
    if Find(s, p).Some? {
      var k := Find(s, p).value;
      var r := ReplaceFirst(s, p);
      assert r[..k] == s[..k] && r[k..] == s[k + |p|..];
      assert s == s[..k] + s[k..k + |p|] + s[k + |p|..];
    }
  }

  lemma {:induction false} RepeatLength(s: string, n: nat)
    ensures |Repeat(s, n)| == n * |s|
  {
    if n > 0 {
      RepeatLength(s, n - 1);
    }
  }

  /** Repeating `n + m` times is repeating `n` times and then `m` times. */
  lemma {:induction false} RepeatAdds(s: string, n: nat, m: nat)
    ensures Repeat(s, n + m) == Repeat(s, n) + Repeat(s, m)
    decreases m
  {
    if m > 0 {
      RepeatAdds(s, n, m - 1);
      assert Repeat(s, n + m) == Repeat(s, n + m - 1) + s;
    }
  }

  lemma {:induction false} SplitFromJoins(s: string, sep: string, cur: string)
    requires sep != ""
    ensures Join(SplitFrom(s, sep, cur), sep) == cur + s
    decreases |s|
  {
    if |s| == 0 {
      assert cur + s == cur;
    } else if sep <= s {
      var tail := SplitFrom(s[|sep|..], sep, "");
      SplitFromJoins(s[|sep|..], sep, "");
      assert [cur] + tail == SplitFrom(s, sep, cur);
      assert ([cur] + tail)[1..] == tail;
      assert s == sep + s[|sep|..];
      assert "" + s[|sep|..] == s[|sep|..];
    } else {
      SplitFromJoins(s[1..], sep, cur + [s[0]]);
      assert (cur + [s[0]]) + s[1..] == cur + s;
    }
  }

  /** `split` loses nothing: joining the pieces with the separator gives the text back. */
  lemma SplitJoins(s: string, sep: string)
    requires sep != ""
    ensures Join(Split(s, sep), sep) == s
  {
    SplitFromJoins(s, sep, "");
  }

  // ---- + ---------------------------------------------------------------------------------

  /** A string on either side concatenates both payloads as text; a `null` payload on either
      side (null, a function, a native) makes `toString` throw. */
  lemma AddConcatenates(host: Host, l: Value, r: Value)
    requires l.StringV? || r.StringV?
    ensures var pl := PayloadOf(l); var pr := PayloadOf(r);
            AddValues(host, l, r) ==
              if pl.PNull? || pr.PNull? then Err(NullToString)
              else Ok(StringV(JsString(pl) + JsString(pr)))
  {
  }

  /** Arithmetic on the texts of two safe integers is exact whenever the exact result is a
      safe integer. */
  lemma ArithOfIntegers(host: Host, op: ArithOp, x: int, y: int)
    requires IsSafe(x) && IsSafe(y)
    requires ExactArith(op, x, y).Some? && IsSafe(ExactArith(op, x, y).value)
    ensures Arith(host, op, IntToString(x), IntToString(y)) == IntToString(ExactArith(op, x, y).value)
  {
    IntViewOfIntToString(x);
    IntViewOfIntToString(y);
  }

  /** Two integer numbers add exactly. */
  lemma AddIntegers(host: Host, x: int, y: int)
    requires IsSafe(x) && IsSafe(y) && IsSafe(x + y)
    ensures AddValues(host, NumberV(IntToString(x)), NumberV(IntToString(y))) ==
            Ok(NumberV(IntToString(x + y)))
  {
    ArithOfIntegers(host, Add, x, y);
  }

  /** Two booleans give their OR. */
  lemma AddBooleansIsOr(host: Host, a: string, b: string)
    ensures AddValues(host, BooleanV(a), BooleanV(b)) == Ok(BooleanV(BoolText(a == "true" || b == "true")))
  {
  }

  /** Every other pair gives null. */
  lemma AddOtherwiseNull(host: Host, l: Value, r: Value)
    ensures AddValues(host, l, r) == Ok(NullV) <==>
            !(l.StringV? || r.StringV?) && !(l.NumberV? && r.NumberV?) && !(l.BooleanV? && r.BooleanV?)
  {
  }

  // ---- - ---------------------------------------------------------------------------------

  lemma SubtractIntegers(host: Host, x: int, y: int)
    requires IsSafe(x) && IsSafe(y) && IsSafe(x - y)
    ensures SubtractValues(host, NumberV(IntToString(x)), NumberV(IntToString(y))) ==
            NumberV(IntToString(x - y))
  {
    ArithOfIntegers(host, Sub, x, y);
  }

  /** string − string removes the first occurrence of the right text, and only that. */
  lemma SubtractRemovesFirst(host: Host, s: string, p: string)
    ensures var r := SubtractValues(host, StringV(s), StringV(p));
            r.StringV? &&
            (Find(s, p).None? ==> r.text == s) &&
            (Find(s, p).Some? ==> s == r.text[..Find(s, p).value] + p + r.text[Find(s, p).value..])
  {
    ReplaceFirstRemoves(s, p);
  }

  /** string − n drops the last n characters; `s - 0` is the empty string. */
  lemma SubtractDropsLast(host: Host, s: string, n: nat)
    requires n <= |s| && n <= MaxSafe
    ensures SubtractValues(host, StringV(s), NumberV(IntToString(n))) ==
            StringV(if n == 0 then "" else s[..|s| - n])
  {
    IntViewOfIntToString(n);
  }

  /** A negative count keeps that many characters from the front. */
  lemma SubtractNegativeKeepsPrefix(host: Host, s: string, n: nat)
    requires 0 < n <= |s| && n <= MaxSafe
    ensures SubtractValues(host, StringV(s), NumberV(IntToString(-(n as int)))) == StringV(s[..n])
  {
    IntViewOfIntToString(-(n as int));
  }

  /** i − string is the string from index i. */
  lemma SubtractFromIndex(host: Host, i: nat, s: string)
    requires i <= |s| && i <= MaxSafe
    ensures SubtractValues(host, NumberV(IntToString(i)), StringV(s)) ==
            StringV(if i < |s| then s[i..] else "")
  {
    IntViewOfIntToString(i);
  }

  /** boolean − boolean is `l && !r` on the texts: "false" for any two non-empty texts. */
  lemma BooleanMinusBoolean(host: Host, a: string, b: string)
    requires a != "" && b != ""
    ensures SubtractValues(host, BooleanV(a), BooleanV(b)) == BooleanV("false")
  {
  }

  lemma SubtractOtherwiseNull(host: Host, l: Value, r: Value)
    requires !(l.NumberV? || l.StringV? || l.BooleanV?) || !(r.NumberV? || r.StringV? || r.BooleanV?)
    ensures SubtractValues(host, l, r) == NullV
  {
  }

  // ---- * ---------------------------------------------------------------------------------

  lemma MultiplyIntegers(host: Host, x: int, y: int)
    requires IsSafe(x) && IsSafe(y) && IsSafe(x * y)
    ensures MultiplyValues(host, NumberV(IntToString(x)), NumberV(IntToString(y))) ==
            Ok(NumberV(IntToString(x * y)))
  {
    ArithOfIntegers(host, Mul, x, y);
  }

  /** string × n repeats the string n times. */
  lemma MultiplyRepeats(host: Host, s: string, n: nat)
    requires n < 0x1_0000_0000
    ensures MultiplyValues(host, StringV(s), NumberV(IntToString(n))) == Ok(StringV(Repeat(s, n)))
    ensures |Repeat(s, n)| == n * |s|
  {
    IntViewOfIntToString(n);
    ParseIntOfIntView(IntToString(n));
    RepeatLength(s, n);
  }

  /** A negative count is an invalid array length. */
  lemma MultiplyNegativeFails(host: Host, s: string, n: int)
    requires -MaxSafe <= n < 0
    ensures MultiplyValues(host, StringV(s), NumberV(IntToString(n))) == Err(InvalidArrayLength)
  {
    IntViewOfIntToString(n);
    ParseIntOfIntView(IntToString(n));
  }

  /** Multiplying by a boolean keeps the left value when it is "true", and otherwise gives ""
      for a string and "0" for a number; two booleans give their AND. */
  lemma MultiplyByBoolean(host: Host, l: Value, b: string)
    ensures l.StringV? ==> MultiplyValues(host, l, BooleanV(b)) ==
                           Ok(StringV(if b == "true" then l.text else ""))
    ensures l.NumberV? ==> MultiplyValues(host, l, BooleanV(b)) ==
                           Ok(NumberV(if b == "true" then l.text else "0"))
    ensures l.BooleanV? ==> MultiplyValues(host, l, BooleanV(b)) ==
                            Ok(BooleanV(BoolText(l.text == "true" && b == "true")))
  {
  }

  // ---- / ---------------------------------------------------------------------------------

  /** Dividing a number by a numeric zero throws, and only that division does. */
  lemma DivideByZero(host: Host, a: string, b: string)
    ensures DivideValues(host, NumberV(a), NumberV(b)).Err? <==> IsZero(host, b)
    ensures IsZero(host, b) ==> DivideValues(host, NumberV(a), NumberV(b)) == Err(ZeroDivision)
    ensures IsZero(host, "0")
  {
    assert IntView("0") == Some(0) by { IntViewOfIntToString(0); }
  }

  lemma DivideIntegers(host: Host, x: int, y: int)
    requires IsSafe(x) && IsSafe(y) && y != 0 && x % y == 0 && IsSafe(x / y)
    ensures DivideValues(host, NumberV(IntToString(x)), NumberV(IntToString(y))) ==
            Ok(NumberV(IntToString(x / y)))
  {
    ArithOfIntegers(host, Div, x, y);
    IntViewOfIntToString(y);
  }

  /** string / string splits on the right text and drops the empty pieces. */
  lemma DivideSplits(host: Host, s: string, sep: string)
    ensures var r := DivideValues(host, StringV(s), StringV(sep));
            r.Ok? && r.value.ArrayV? &&
            r.value.elems == StringValues(NonEmpty(Split(s, sep))) &&
            forall i :: 0 <= i < |r.value.elems| ==> r.value.elems[i].StringV? && r.value.elems[i].text != ""
  {
  }

  /** `Math.ceil(len / n)` for positive n: the least count whose n-fold covers the text. */
  lemma PairCountIsCeiling(len: nat, n: nat)
    requires n > 0
    ensures var c := PairCount(len, n).value;
            c * n >= len && (c == 0 || (c - 1) * n < len)
  {
    var c := (len + n - 1) / n;
    var m := (len + n - 1) % n;
    assert len + n - 1 == c * n + m && 0 <= m < n;
    if c > 0 {
      assert (c - 1) * n == c * n - n;
    }
  }

  /** string / n gives ceil(len / n) elements; element i is the slice [2i, 2i + 2). */
  lemma DividePairs(host: Host, s: string, n: nat)
    requires 0 < n <= MaxSafe
    ensures var r := DivideValues(host, StringV(s), NumberV(IntToString(n)));
            var c := PairCount(|s|, n).value;
            r == Ok(ArrayV(Pairs(s, c))) && c * n >= |s| && (c == 0 || (c - 1) * n < |s|)
  {
    IntViewOfIntToString(n);
    ParseIntOfIntView(IntToString(n));
    PairCountIsCeiling(|s|, n);
  }

  /** A zero count is an invalid array length. */
  lemma DivideStringByZeroFails(host: Host, s: string)
    ensures DivideValues(host, StringV(s), NumberV("0")) == Err(InvalidArrayLength)
  {
    IntViewOfIntToString(0);
    ParseIntOfIntView("0");
  }

  // ---- == and != -------------------------------------------------------------------------

  /** `!=` always gives the opposite of `==`. */
  lemma NotEqualIsOpposite(host: Host, l: Value, r: Value)
    ensures BinaryOp(host, "==", l, r).Ok? && BinaryOp(host, "!=", l, r).Ok?
    ensures BinaryOp(host, "!=", l, r).value.text == "true" <==>
            BinaryOp(host, "==", l, r).value.text != "true"
  {
  }

  /** `==` compares kind and payload: a number never equals a string of the same text. */
  lemma EqualNeedsSameKind(host: Host, t: string)
    ensures BinaryOp(host, "==", NumberV(t), StringV(t)) == Ok(BooleanV("false"))
    ensures BinaryOp(host, "==", StringV(t), StringV(t)) == Ok(BooleanV("true"))
  {
  }

  /** Functions carry a `null` payload, so any two functions compare equal. */
  lemma FunctionsCompareEqual(f: Value, g: Value)
    requires f.FunctionV? && g.FunctionV?
    ensures Equal(f, g)
  {
  }

  /** `==` is symmetric. */
  lemma EqualSymmetric(l: Value, r: Value)
    ensures Equal(l, r) <==> Equal(r, l)
  {
  }

  // ---- && and || -------------------------------------------------------------------------

  /** `&&` works on the raw texts: any non-empty left text, "false" included, hands over to
      the right operand, so `false && true` is "true". */
  lemma AndHandsOverOnNonEmpty(a: string, r: Value)
    requires a != "" && !PayloadOf(r).PNull?
    ensures LogicalValue(true, BooleanV(a), r) == Ok(BooleanV(JsString(PayloadOf(r))))
    ensures LogicalValue(true, BooleanV("false"), BooleanV("true")) == Ok(BooleanV("true"))
  {
  }

  /** `||` keeps any non-empty left text, so `false || true` is "false". */
  lemma OrKeepsNonEmpty(a: string, r: Value)
    requires a != ""
    ensures LogicalValue(false, BooleanV(a), r) == Ok(BooleanV(a))
  {
  }

  /** Handing over to a `null` payload makes `toString` throw. */
  lemma LogicalOnNullFails(isAnd: bool, l: Value, r: Value)
    requires var chosen := if isAnd == Truthy(PayloadOf(l)) then PayloadOf(r) else PayloadOf(l);
             chosen.PNull?
    ensures LogicalValue(isAnd, l, r) == Err(NullToString)
  {
  }

  /** An operator text outside the table is an error naming it. */
  lemma UnknownBinaryOperator(host: Host, op: string, l: Value, r: Value)
    requires op !in {"+", "-", "*", "/", "%", "==", "!=", ">", ">=", "<", "<=", "&&", "||", "**"}
    ensures BinaryOp(host, op, l, r) == Err("Unimplemented binary operator " + op)
  {
  }

  /** The ordering operators compare integers exactly. */
  lemma CompareIntegers(host: Host, x: int, y: int)
    requires IsSafe(x) && IsSafe(y)
    ensures BinaryOp(host, "<", NumberV(IntToString(x)), NumberV(IntToString(y))) ==
            Ok(BooleanV(BoolText(x < y)))
    ensures BinaryOp(host, ">=", NumberV(IntToString(x)), NumberV(IntToString(y))) ==
            Ok(BooleanV(BoolText(x >= y)))
  {
    var a, b := IntToString(x), IntToString(y);
    CompareOfIntegers(host, x, y);
    assert Compare(host, Lt, a, b) == (x < y);
    assert Compare(host, Ge, a, b) == (x >= y);
  }

  /** Ordered comparison of the texts of two safe integers is exact. */
  lemma CompareOfIntegers(host: Host, x: int, y: int)
    requires IsSafe(x) && IsSafe(y)
    ensures Compare(host, Lt, IntToString(x), IntToString(y)) == (x < y)
    ensures Compare(host, Le, IntToString(x), IntToString(y)) == (x <= y)
    ensures Compare(host, Gt, IntToString(x), IntToString(y)) == (x > y)
    ensures Compare(host, Ge, IntToString(x), IntToString(y)) == (x >= y)
  {
    IntViewOfIntToString(x);
    IntViewOfIntToString(y);
  }

  // ---- unary -----------------------------------------------------------------------------

  /** `!` is "true" exactly for a boolean other than "true", null, a number equal to zero and
      the empty string; arrays, functions and the rest give "false". */
  lemma NotTable(host: Host, v: Value)
    ensures NotValue(host, BooleanV("false")) && !NotValue(host, BooleanV("true"))
    ensures NotValue(host, NullV) && NotValue(host, StringV("")) && NotValue(host, NumberV("0"))
    ensures v.StringV? && v.text != "" ==> !NotValue(host, v)
    ensures v.ArrayV? || v.FunctionV? || v.NativeV? || v.VariableV? ==> !NotValue(host, v)
  {
    IntViewOfIntToString(0);
  }

  lemma NotOfNonZero(host: Host, x: int)
    requires IsSafe(x) && x != 0
    ensures !NotValue(host, NumberV(IntToString(x)))
  {
    IntViewOfIntToString(x);
  }

  /** `--` takes a boolean to "false", a number n to n − 1 and a string to the string without
      its last character; other kinds are left alone. */
  lemma DecrementTable(host: Host, v: Value)
    ensures v.BooleanV? ==> Decremented(host, v) == Some(BooleanV("false"))
    ensures v.StringV? ==> Decremented(host, v) ==
                           Some(StringV(if v.text == "" then "" else v.text[..|v.text| - 1]))
    ensures !(v.BooleanV? || v.NumberV? || v.StringV?) ==> Decremented(host, v).None?
  {
  }

  lemma DecrementInteger(host: Host, x: int)
    requires IsSafe(x) && IsSafe(x - 1)
    ensures Decremented(host, NumberV(IntToString(x))) == Some(NumberV(IntToString(x - 1)))
  {
    IntViewOfIntToString(x);
    IntViewOfIntToString(1);
  }

  /** `++` always produces a number, n + 1 on an integer. */
  lemma IncrementInteger(host: Host, x: int, v: Value)
    requires IsSafe(x) && IsSafe(x + 1)
    ensures Incremented(host, NumberV(IntToString(x))) == NumberV(IntToString(x + 1))
    ensures Incremented(host, v).NumberV?
  {
    IntViewOfIntToString(x);
    IntViewOfIntToString(1);
  }

  /** Prefix `-` negates an integer exactly, and twice is the identity. */
  lemma NegateInteger(host: Host, x: int)
    requires IsSafe(x)
    ensures NegateValue(host, NumberV(IntToString(x))) == NumberV(IntToString(-x))
    ensures NegateValue(host, NegateValue(host, NumberV(IntToString(x)))) == NumberV(IntToString(x))
  {
    IntViewOfIntToString(x);
    IntViewOfIntToString(-x);
  }
}
