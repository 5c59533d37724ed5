/** Decimal text and its integer view.

    The language keeps every number as text and re-parses it on each arithmetic use
    (`parseFloat`, then `toString`).  This module gives that text an exact meaning where
    the host's double arithmetic is exact: canonical integer text whose value is a safe
    integer.  Everything else is left to the host (see `Host` in module Values). */
module Numbers {
  import opened Wrappers

  /** Largest integer a double holds exactly together with all its neighbours (2^53 - 1). */
  const MaxSafe: int := 0x1F_FFFF_FFFF_FFFF

  predicate IsDigit(c: char) { '0' <= c <= '9' }

  predicate AllDigits(s: string) { forall i :: 0 <= i < |s| ==> IsDigit(s[i]) }

  function DigitValue(c: char): nat
    requires IsDigit(c)
  {
    c as int - '0' as int
  }

  function DigitChar(d: nat): (c: char)
    requires d < 10
    ensures IsDigit(c) && DigitValue(c) == d
  {
    ('0' as int + d) as char
  }

  /** The value of a run of decimal digits, read left to right. */
  function DigitsValue(s: string): nat
    requires AllDigits(s)
  {
    if |s| == 0 then 0 else DigitsValue(s[..|s| - 1]) * 10 + DigitValue(s[|s| - 1])
  }

  /** Digit text without superfluous leading zeros: the form `toString` gives a non-negative
      integer. */
  predicate CanonicalDigits(s: string)
  {
    |s| > 0 && AllDigits(s) && (s[0] == '0' ==> |s| == 1)
  }

  /** Decimal text of a natural number, as `String(n)` writes it. */
  function NatToString(n: nat): (s: string)
    ensures CanonicalDigits(s)
  {
    if n < 10 then [DigitChar(n)] else NatToString(n / 10) + [DigitChar(n % 10)]
  }

  /** Decimal text of an integer, with a leading `-` when negative. */
  function IntToString(i: int): string
  {
    if i < 0 then "-" + NatToString(-i) else NatToString(i)
  }

  /** The integer that a number's text denotes, when that text is the canonical form of a
      safe integer; `None` for every other text (fractions, `NaN`, exponent forms, ...). */
  function IntView(s: string): (r: Option<int>)
    ensures r.Some? ==> IsSafe(r.value)
  {
    if |s| > 1 && s[0] == '-' && CanonicalDigits(s[1..]) && s[1..] != "0"
       && DigitsValue(s[1..]) <= MaxSafe then
      Some(-(DigitsValue(s[1..]) as int))
    else if CanonicalDigits(s) && DigitsValue(s) <= MaxSafe then
      Some(DigitsValue(s))
    else
      None
  }

  predicate IsSafe(i: int) { -MaxSafe <= i <= MaxSafe }

  /** `NatToString` writes the digits whose value is `n`. */
  lemma {:induction false} NatToStringValue(n: nat)
    ensures DigitsValue(NatToString(n)) == n
  {
    if n >= 10 {
      var s := NatToString(n / 10) + [DigitChar(n % 10)];
      assert s[..|s| - 1] == NatToString(n / 10);
      NatToStringValue(n / 10);
    }
  }

  lemma {:induction false} LeadingNonZeroValue(s: string)
    requires |s| > 0 && AllDigits(s) && s[0] != '0'
    ensures DigitsValue(s) >= 1
    ensures |s| > 1 ==> DigitsValue(s) >= 10
  {
    if |s| > 1 {
      LeadingNonZeroValue(s[..|s| - 1]);
    }
  }

  lemma {:induction false} DigitsValueRoundTrip(s: string)
    requires CanonicalDigits(s)
    ensures NatToString(DigitsValue(s)) == s
  {
    if |s| > 1 {
      var p := s[..|s| - 1];
      LeadingNonZeroValue(s);
      LeadingNonZeroValue(p);
      DigitsValueRoundTrip(p);
      assert s == p + [s[|s| - 1]];
    }
  }

  /** `IntView` reads back exactly the integer `IntToString` wrote. */
  lemma IntViewOfIntToString(i: int)
    requires IsSafe(i)
    ensures IntView(IntToString(i)) == Some(i)
  {
    var s := IntToString(i);
    if i < 0 {
      assert s[1..] == NatToString(-i);
      NatToStringValue(-i);
      assert |s| > 1 && s[0] == '-' && CanonicalDigits(s[1..]) && s[1..] != "0";
      assert DigitsValue(s[1..]) == -i <= MaxSafe;
    } else {
      NatToStringValue(i);
      assert CanonicalDigits(s) && DigitsValue(s) == i;
      assert !(|s| > 1 && s[0] == '-');
    }
  }

  /** Every text with an integer view is the text `IntToString` writes for it. */
  lemma IntToStringOfIntView(s: string)
    requires IntView(s).Some?
    ensures IsSafe(IntView(s).value) && IntToString(IntView(s).value) == s
  {
    if |s| > 1 && s[0] == '-' && CanonicalDigits(s[1..]) && s[1..] != "0"
       && DigitsValue(s[1..]) <= MaxSafe {
      DigitsValueRoundTrip(s[1..]);
      LeadingNonZeroValue(s[1..]);
      assert s == "-" + s[1..];
    } else {
      DigitsValueRoundTrip(s);
    }
  }

  /** The longest prefix of `s` made of digits. */
  function LeadingDigits(s: string): (d: string)
    ensures AllDigits(d) && d <= s
    ensures d == s || !IsDigit(s[|d|])
  {
    if |s| > 0 && IsDigit(s[0]) then [s[0]] + LeadingDigits(s[1..]) else ""
  }

  /** JavaScript's `parseInt(s)` (radix 10) on the text of a number: an optional sign, then
      the longest run of digits; `None` (NaN) when there is no digit. */
  function ParseInt(s: string): (r: Option<int>)
    ensures r.Some? <==> (var b := if |s| > 0 && (s[0] == '-' || s[0] == '+') then s[1..] else s;
                          |b| > 0 && IsDigit(b[0]))
  {
    var neg := |s| > 0 && s[0] == '-';
    var body := if |s| > 0 && (s[0] == '-' || s[0] == '+') then s[1..] else s;
    var d := LeadingDigits(body);
    if d == "" then None
    else if neg then Some(-(DigitsValue(d) as int))
    else Some(DigitsValue(d))
  }

  /** `parseInt` agrees with the integer view on canonical integer text. */
  lemma {:induction false} ParseIntOfIntView(s: string)
    requires IntView(s).Some?
    ensures ParseInt(s) == IntView(s)
  {
    if |s| > 1 && s[0] == '-' && CanonicalDigits(s[1..]) && s[1..] != "0"
       && DigitsValue(s[1..]) <= MaxSafe {
      LeadingDigitsOfDigits(s[1..]);
    } else {
      LeadingDigitsOfDigits(s);
    }
  }

  lemma {:induction false} LeadingDigitsOfDigits(s: string)
    requires AllDigits(s)
    ensures LeadingDigits(s) == s
  {
    if |s| > 0 {
      LeadingDigitsOfDigits(s[1..]);
    }
  }

  /** Index of the first `c` in `s`, or `|s|` when there is none. */
  function IndexOf(s: string, c: char): (k: nat)
    ensures k <= |s|
    ensures k < |s| ==> s[k] == c
    ensures forall j :: 0 <= j < k ==> s[j] != c
  {
    if |s| == 0 then 0 else if s[0] == c then 0 else 1 + IndexOf(s[1..], c)
  }

  /** The number literal grammar `^[0-9]+(\.[0-9]+)?$`. */
  predicate ValidNumberLiteral(s: string)
  {
    |s| > 0 &&
    (AllDigits(s) ||
     (var k := IndexOf(s, '.');
      0 < k < |s| - 1 && AllDigits(s[..k]) && AllDigits(s[k + 1..])))
  }

  function StripTrailingZeros(s: string): (r: string)
    ensures r <= s
    ensures r == "" || r[|r| - 1] != '0'
    ensures forall j :: |r| <= j < |s| ==> s[j] == '0'
  {
    if |s| == 0 then ""
    else if s[|s| - 1] == '0' then StripTrailingZeros(s[..|s| - 1])
    else s
  }

  /** The number of `0` characters that `s` starts with. */
  function ZeroRun(s: string): (n: nat)
    ensures n <= |s|
    ensures forall j :: 0 <= j < n ==> s[j] == '0'
    ensures n < |s| ==> s[n] != '0'
  {
    if |s| > 0 && s[0] == '0' then 1 + ZeroRun(s[1..]) else 0
  }

  /** A valid literal written in its canonical decimal form: leading zeros of the integer
      part and trailing zeros of the fraction are dropped, and so is an all-zero fraction. */
  function CanonicalNumber(s: string): (r: string)
    requires ValidNumberLiteral(s)
    ensures var k := IndexOf(r, '.');
            CanonicalDigits(r[..k]) && (k < |r| ==> k < |r| - 1 && AllDigits(r[k + 1..]) && r[|r| - 1] != '0')
  {
    if AllDigits(s) then
      var r := NatToString(DigitsValue(s));
      NoDotInDigits(r);
      r
    else
      var k := IndexOf(s, '.');
      var whole := NatToString(DigitsValue(s[..k]));
      var frac := StripTrailingZeros(s[k + 1..]);
      NoDotInDigits(whole);
      if frac == "" then whole
      else
        FractionText(whole, frac);
        whole + "." + frac
  }

  /** The parts of `whole.frac` as the canonical-text check reads them. */
  lemma FractionText(whole: string, frac: string)
    requires CanonicalDigits(whole) && frac != "" && frac[|frac| - 1] != '0'
    requires AllDigits(frac)
    ensures var r := whole + "." + frac;
            IndexOf(r, '.') == |whole| && r[..|whole|] == whole && r[|whole| + 1..] == frac
  {
    IndexOfAfter(whole, "." + frac);
    var r := whole + "." + frac;
    assert r == whole + ("." + frac);
    assert r[..|whole|] == whole && r[|whole| + 1..] == frac;
  }

  lemma NoDotInDigits(d: string)
    requires AllDigits(d)
    ensures IndexOf(d, '.') == |d| && d[..|d|] == d
  {
  }

  lemma {:induction false} IndexOfAfter(d: string, t: string)
    requires AllDigits(d) && |t| > 0 && t[0] == '.'
    ensures IndexOf(d + t, '.') == |d|
  {
    if |d| > 0 {
      assert (d + t)[1..] == d[1..] + t;
      IndexOfAfter(d[1..], t);
    }
  }

  /** Literals whose double prints back as their canonical text: an integer literal whose
      value is a safe integer; a fraction with at most 15 significant digits (which a double
      tells apart, so the shortest text that reads back is the literal itself) and, when
      below one, at most five zeros after the point (from `1e-7` down `toString` switches to
      exponent notation). */
  predicate ShortLiteral(s: string)
    requires ValidNumberLiteral(s)
  {
    if AllDigits(s) then DigitsValue(s) <= MaxSafe
    else
      var k := IndexOf(s, '.');
      var frac := StripTrailingZeros(s[k + 1..]);
      if frac == "" then DigitsValue(s[..k]) <= MaxSafe
      else if DigitsValue(s[..k]) == 0 then ZeroRun(frac) <= 5 && |frac| - ZeroRun(frac) <= 15
      else |NatToString(DigitsValue(s[..k]))| + |frac| <= 15
  }

  /** How the host writes `parseFloat(s).toString()` for a number literal: its rounding to
      a double and the double's shortest decimal (or exponent) form. */
  type NumberFormat = string -> string

  /** `parseFloat(literal).toString()` for a valid literal: the canonical text when the
      literal is short, the host's formatting `fmt` otherwise. */
  function LiteralText(fmt: NumberFormat, s: string): string
    requires ValidNumberLiteral(s)
  {
    if ShortLiteral(s) then CanonicalNumber(s) else fmt(s)
  }

  /** An integer literal of a safe value re-formats to the canonical text of its value, so
      `007` reads as `7` and the integer view sees the literal's value; a larger one is
      the host's formatting, whatever its digits. */
  lemma IntegerLiteralCanonical(fmt: NumberFormat, s: string)
    requires ValidNumberLiteral(s) && AllDigits(s)
    ensures DigitsValue(s) <= MaxSafe ==>
              LiteralText(fmt, s) == NatToString(DigitsValue(s)) &&
              IntView(LiteralText(fmt, s)) == Some(DigitsValue(s))
    ensures DigitsValue(s) > MaxSafe ==> LiteralText(fmt, s) == fmt(s)
  {
    if DigitsValue(s) <= MaxSafe {
      IntViewOfIntToString(DigitsValue(s));
    }
  }

  /** A short fraction keeps its digits: the whole part without leading zeros, the point,
      and the fraction without trailing zeros. */
  lemma ShortFractionText(fmt: NumberFormat, whole: string, frac: string)
    requires |whole| > 0 && AllDigits(whole) && |frac| > 0 && AllDigits(frac)
    requires frac[|frac| - 1] != '0'
    requires DigitsValue(whole) > 0 && |NatToString(DigitsValue(whole))| + |frac| <= 15
    ensures ValidNumberLiteral(whole + "." + frac)
    ensures LiteralText(fmt, whole + "." + frac) == NatToString(DigitsValue(whole)) + "." + frac
  {
    var s := whole + "." + frac;
    IndexOfAfter(whole, "." + frac);
    assert s[..|whole|] == whole && s[|whole| + 1..] == frac;
    assert !AllDigits(s) by { assert s[|whole|] == '.'; }
  }
}
