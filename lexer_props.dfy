/** What the lexer promises, proved about the functions of module LexerSpec (and so about
    the `Lexer` class, which computes them). */
module LexerProperties {
  import opened Wrappers
  import opened Tokens
  import opened Numbers
  import opened LexerSpec

  function CountChar(s: string, c: char): nat
  {
    if |s| == 0 then 0 else (if s[0] == c then 1 else 0) + CountChar(s[1..], c)
  }

  predicate NoEof(ts: seq<Token>) { forall i :: 0 <= i < |ts| ==> ts[i].kind != Eof }

  predicate LinesAscending(ts: seq<Token>)
  {
    forall i, j :: 0 <= i < j < |ts| ==> ts[i].line <= ts[j].line
  }

  // ---- the stream and its EOF ----------------------------------------------------------

  /** A successful scan keeps what was already pushed and closes the stream with exactly
      one EOF token, carrying the final line counter, at the very end. */
  lemma {:induction false} LexEndsWithSingleEof(fmt: NumberFormat, s: string, line: nat, acc: seq<Token>)
    requires NoEof(acc)
    ensures Lex(fmt, s, line, acc).Ok? ==>
              var ts := Lex(fmt, s, line, acc).value;
              |ts| > |acc| && ts[..|acc|] == acc && NoEof(ts[..|ts| - 1]) &&
              ts[|ts| - 1] == Token(Eof, "", FinalLine(fmt, s, line))
    decreases |s|
  {
    LexEofLine(fmt, s, line, acc);
    if |s| > 0 {
      var st := LexStep(fmt, s, line);
      if st.Ok? {
        StepEmitsNoEof(fmt, s, line);
        assert NoEof(acc + st.value.emitted);
        LexEndsWithSingleEof(fmt, st.value.rest, st.value.line, acc + st.value.emitted);
        var ts := Lex(fmt, s, line, acc);
        assert ts == Lex(fmt, st.value.rest, st.value.line, acc + st.value.emitted);
        if ts.Ok? {
          assert ts.value[..|acc + st.value.emitted|] == acc + st.value.emitted;
          assert ts.value[..|acc|] == (acc + st.value.emitted)[..|acc|];
        }
      }
    }
  }

  /** A scanning step never emits an EOF token. */
  lemma StepEmitsNoEof(fmt: NumberFormat, s: string, line: nat)
    requires |s| > 0
    ensures LexStep(fmt, s, line).Ok? ==> NoEof(LexStep(fmt, s, line).value.emitted)
  {
  }

  /** The EOF token is on the line the scan ends on. */
  lemma {:induction false} LexEofLine(fmt: NumberFormat, s: string, line: nat, acc: seq<Token>)
    ensures Lex(fmt, s, line, acc).Ok? ==>
              var ts := Lex(fmt, s, line, acc).value;
              |ts| > 0 && ts[|ts| - 1] == Token(Eof, "", FinalLine(fmt, s, line))
    decreases |s|
  {
    if |s| > 0 {
      var st := LexStep(fmt, s, line);
      if st.Ok? {
        LexEofLine(fmt, st.value.rest, st.value.line, acc + st.value.emitted);
        assert FinalLine(fmt, s, line) == FinalLine(fmt, st.value.rest, st.value.line);
      }
    }
  }

  /** Tokens come out in the order of their lines, and the EOF token is on the last line. */
  lemma {:induction false} LexLinesAscending(fmt: NumberFormat, s: string, line: nat, acc: seq<Token>)
    requires LinesAscending(acc)
    requires forall i :: 0 <= i < |acc| ==> acc[i].line <= line
    ensures Lex(fmt, s, line, acc).Ok? ==> LinesAscending(Lex(fmt, s, line, acc).value)
    decreases |s|
  {
    if |s| > 0 {
      var st := LexStep(fmt, s, line);
      if st.Ok? {
        LexLinesAscending(fmt, st.value.rest, st.value.line, acc + st.value.emitted);
      }
    }
  }

  /** `tokenize` on any input: the stream it returns ends with its only EOF token, and its
      lines never go down. */
  lemma TokenizeShape(fmt: NumberFormat, source: string)
    ensures Tokenize(fmt, source).Ok? ==>
              var ts := Tokenize(fmt, source).value;
              |ts| > 0 && ts[|ts| - 1] == Token(Eof, "", FinalLine(fmt, source, 1)) &&
              NoEof(ts[..|ts| - 1]) && LinesAscending(ts)
  {
    LexEndsWithSingleEof(fmt, source, 1, []);
    LexLinesAscending(fmt, source, 1, []);
  }

  // ---- blanks, newlines and comments ------------------------------------------------------

  /** Spaces, tabs and carriage returns give no token, and every newline bumps the line
      counter by one. */
  lemma {:induction false} BlankInputLexesToEof(fmt: NumberFormat, s: string, line: nat, acc: seq<Token>)
    requires forall i :: 0 <= i < |s| ==> IsBlank(s[i]) || s[i] == '\n'
    ensures Lex(fmt, s, line, acc) == Ok(acc + [Token(Eof, "", line + CountChar(s, '\n'))])
    decreases |s|
  {
    if |s| > 0 {
      var next := if s[0] == '\n' then line + 1 else line;
      assert LexStep(fmt, s, line) == Ok(Step([], s[1..], next));
      assert acc + [] == acc;
      BlankInputLexesToEof(fmt, s[1..], next, acc);
    }
  }

  lemma {:induction false} TakeUntilOf(p: string, d: char, t: string)
    requires forall i :: 0 <= i < |p| ==> p[i] != d
    requires t == [] || t[0] == d
    ensures TakeUntil(p + t, d) == p
  {
    if |p| > 0 {
      assert (p + t)[1..] == p[1..] + t;
      TakeUntilOf(p[1..], d, t);
    }
  }

  /** A line comment gives no token; the newline that ends it bumps the line counter. */
  lemma LineCommentSkipped(fmt: NumberFormat, body: string, rest: string, line: nat, acc: seq<Token>)
    requires forall i :: 0 <= i < |body| ==> body[i] != '\n'
    ensures Lex(fmt, "//" + body + "\n" + rest, line, acc) == Lex(fmt, rest, line + 1, acc)
  {
    var s := "//" + body + "\n" + rest;
    assert s == ("//" + body) + ("\n" + rest);
    TakeUntilOf("//" + body, '\n', "\n" + rest);
    assert s[|"//" + body| + 1..] == rest;
    assert s[0] == '/' && SecondIs(s, '/');
    assert LexStep(fmt, s, line) == Ok(Step([], rest, line + 1));
    assert acc + [] == acc;
  }

  /** A line comment that runs to the end of the input still bumps the line counter, so
      the EOF token is one line further down. */
  lemma LineCommentAtEnd(fmt: NumberFormat, body: string, line: nat, acc: seq<Token>)
    requires forall i :: 0 <= i < |body| ==> body[i] != '\n'
    ensures Lex(fmt, "//" + body, line, acc) == Ok(acc + [Token(Eof, "", line + 1)])
  {
    var s := "//" + body;
    TakeUntilOf(s, '\n', "");
    assert s + "" == s;
    assert s[0] == '/' && SecondIs(s, '/');
    assert LexStep(fmt, s, line) == Ok(Step([], "", line + 1));
    assert acc + [] == acc;
  }

  lemma {:induction false} BlockCommentBody(body: string, rest: string, line: nat)
    requires forall i :: 0 <= i < |body| ==> body[i] != '*'
    ensures BlockComment(body + "*/" + rest, line) == (rest, line + CountChar(body, '\n'))
  {
    if |body| > 0 {
      assert (body + "*/" + rest)[1..] == body[1..] + "*/" + rest;
      BlockCommentBody(body[1..], rest, if body[0] == '\n' then line + 1 else line);
    } else {
      assert (body + "*/" + rest)[2..] == rest;
    }
  }

  /** A block comment without stars gives no token and bumps the line counter once per
      newline it holds. */
  lemma BlockCommentSkipped(fmt: NumberFormat, body: string, rest: string, line: nat, acc: seq<Token>)
    requires forall i :: 0 <= i < |body| ==> body[i] != '*'
    requires body == [] || body[0] != '/'
    ensures Lex(fmt, "/*" + body + "*/" + rest, line, acc) == Lex(fmt, rest, line + CountChar(body, '\n'), acc)
  {
    var s := "/*" + body + "*/" + rest;
    assert s[1..] == "*" + body + "*/" + rest;
    assert s[1..][1..] == body + "*/" + rest;
    BlockCommentBody(body, rest, line);
    if body == [] {
      assert s[1..][1..] == "*/" + rest;
    }
    assert BlockComment(s, line) == (rest, line + CountChar(body, '\n'));
    assert s[0] == '/' && SecondIs(s, '*') && !SecondIs(s, '=') && !SecondIs(s, '/');
    assert LexStep(fmt, s, line) == Ok(Step([], rest, line + CountChar(body, '\n')));
    assert acc + [] == acc;
  }

  /** The opening star also serves as the closing one: the three characters slash, star,
      slash already make a complete comment. */
  lemma ShortBlockComment(fmt: NumberFormat, rest: string, line: nat, acc: seq<Token>)
    ensures Lex(fmt, "/*/" + rest, line, acc) == Lex(fmt, rest, line, acc)
  {
    var s := "/*/" + rest;
    assert s[1..] == "*/" + rest;
    assert s[1..][2..] == rest;
    assert BlockComment(s, line) == (rest, line);
    assert s[0] == '/' && SecondIs(s, '*') && !SecondIs(s, '=') && !SecondIs(s, '/');
    assert LexStep(fmt, s, line) == Ok(Step([], rest, line));
    assert acc + [] == acc;
  }

  // ---- operators --------------------------------------------------------------------------

  /** The two-character operators and the kinds they make. */
  function TwoCharKind(op: string): Option<TokenKind>
  {
    match op
    case "++" => Some(Increment)
    case "+=" => Some(PlusAssign)
    case "--" => Some(Decrement)
    case "-=" => Some(MinusAssign)
    case "*=" => Some(StarAssign)
    case "**" => Some(Exponent)
    case "/=" => Some(SlashAssign)
    case "%=" => Some(ModuloAssign)
    case "==" => Some(Equal)
    case "!=" => Some(NotEqual)
    case ">=" => Some(GreaterEqual)
    case "<=" => Some(LessEqual)
    case "&&" => Some(And)
    case "||" => Some(Or)
    case _ => None
  }

  /** One character of lookahead decides: each two-character operator becomes one token
      whose text is the two characters, whatever follows it. */
  lemma TwoCharOperator(fmt: NumberFormat, op: string, rest: string, line: nat)
    requires TwoCharKind(op).Some?
    ensures LexStep(fmt, op + rest, line) == Ok(Step([Token(TwoCharKind(op).value, op, line)], rest, line))
  {
    var s := op + rest;
    assert |op| == 2 && s[..2] == op && s[2..] == rest && s[0] == op[0] && s[1] == op[1];
  }

  // ---- errors -----------------------------------------------------------------------------

  predicate IsOperatorStart(c: char)
  {
    c == '+' || c == '-' || c == '*' || c == '/' || c == '%' || c == '=' || c == '!' ||
    c == '>' || c == '<' || c == '&' || c == '|'
  }

  /** A character the lexer has a rule for. */
  predicate Recognised(c: char)
  {
    c == '\n' || IsBlank(c) || IsQuote(c) || IsOperatorStart(c) || Punctuation(c).Some?
    || IsDigit(c) || IsIdentStart(c)
  }

  /** A scanning step fails exactly for a lone `&` or `|`, a malformed number and a
      character without a rule; the last three carry the line in their message. */
  lemma LexStepFails(fmt: NumberFormat, s: string, line: nat)
    requires |s| > 0
    ensures LexStep(fmt, s, line).Err? <==>
              (s[0] == '&' && !SecondIs(s, '&')) || (s[0] == '|' && !SecondIs(s, '|')) ||
              (IsDigit(s[0]) && !ValidNumberLiteral(NumberRun(s))) || !Recognised(s[0])
  {
    var c := s[0];
    if c == '&' || c == '|' {
      assert IsOperatorStart(c) && !IsDigit(c);
    } else if IsDigit(c) {
      assert Recognised(c);
      DigitStep(fmt, s, line);
    } else if !Recognised(c) {
      UnrecognisedCharacter(fmt, s, line);
    } else {
      RecognisedStepSucceeds(fmt, s, line);
    }
  }

  /** A step at a digit is the number step. */
  lemma DigitStep(fmt: NumberFormat, s: string, line: nat)
    requires |s| > 0 && IsDigit(s[0])
    ensures LexStep(fmt, s, line) == NumberStep(fmt, s, line)
  {
    var c := s[0];
    assert c != '\n' && !IsBlank(c) && !IsQuote(c) && c !in "+-*/%" && Punctuation(c).None?;
  }

  /** A step at a character with a rule, other than `&`, `|` and a digit, succeeds. */
  lemma RecognisedStepSucceeds(fmt: NumberFormat, s: string, line: nat)
    requires |s| > 0 && Recognised(s[0]) && s[0] != '&' && s[0] != '|' && !IsDigit(s[0])
    ensures LexStep(fmt, s, line).Ok?
  {
    var c := s[0];
    if c == '\n' || IsBlank(c) || IsQuote(c) {
    } else if c in "+-*/%" {
      assert LexStep(fmt, s, line) == Ok(OperatorStep(s, line));
    } else if c == '=' || c == '!' || c == '>' || c == '<' {
    } else if Punctuation(c).Some? {
    } else {
      assert IsIdentStart(c);
    }
  }

  /** A character without a rule stops the scan with its line number in the message. */
  lemma UnrecognisedCharacter(fmt: NumberFormat, s: string, line: nat)
    requires |s| > 0 && !Recognised(s[0])
    ensures LexStep(fmt, s, line) == Err(InvalidCharacter(line, [s[0]]))
  {
  }

  // ---- literals ---------------------------------------------------------------------------

  /** A string token's text is exactly what stands between the delimiters, unescaped. */
  lemma StringLiteralToken(fmt: NumberFormat, q: char, body: string, rest: string, line: nat, acc: seq<Token>)
    requires IsQuote(q)
    requires forall i :: 0 <= i < |body| ==> body[i] != q
    ensures Lex(fmt, [q] + body + [q] + rest, line, acc) ==
            Lex(fmt, rest, line, acc + [Token(StringLiteral, body, line)])
  {
    var s := [q] + body + [q] + rest;
    assert s[1..] == body + ([q] + rest);
    TakeUntilOf(body, q, [q] + rest);
    assert s[2 + |body|..] == rest;
  }

  /** An unterminated string takes the rest of the input as its text, without an error. */
  lemma UnterminatedString(fmt: NumberFormat, q: char, body: string, line: nat, acc: seq<Token>)
    requires IsQuote(q)
    requires forall i :: 0 <= i < |body| ==> body[i] != q
    ensures Lex(fmt, [q] + body, line, acc) ==
            Ok(acc + [Token(StringLiteral, body, line), Token(Eof, "", line)])
  {
    var s := [q] + body;
    assert s[1..] == body + [];
    TakeUntilOf(body, q, []);
    assert LexStep(fmt, s, line) == Ok(Step([Token(StringLiteral, body, line)], "", line));
    assert acc + [Token(StringLiteral, body, line)] + [Token(Eof, "", line)] ==
           acc + [Token(StringLiteral, body, line), Token(Eof, "", line)];
  }

  lemma {:induction false} NumberRunOf(p: string, t: string)
    requires forall i :: 0 <= i < |p| ==> IsDigit(p[i]) || p[i] == '.'
    requires t == [] || !(IsDigit(t[0]) || t[0] == '.')
    ensures NumberRun(p + t) == p
  {
    if |p| > 0 {
      assert (p + t)[1..] == p[1..] + t;
      NumberRunOf(p[1..], t);
    }
  }

  /** A well-formed number literal becomes one number token holding `parseFloat` of the
      literal written back as text. */
  lemma NumberLiteralToken(fmt: NumberFormat, d: string, rest: string, line: nat, acc: seq<Token>)
    requires ValidNumberLiteral(d)
    requires rest == [] || !(IsDigit(rest[0]) || rest[0] == '.')
    ensures Lex(fmt, d + rest, line, acc) ==
            Lex(fmt, rest, line, acc + [Token(NumberLiteral, LiteralText(fmt, d), line)])
  {
    var s := d + rest;
    NumberDigitsAndDots(d);
    NumberRunOf(d, rest);
    assert s[0] == d[0] && s[|d|..] == rest;
    assert IsDigit(d[0]) by { LiteralStartsWithDigit(d); }
    DigitStep(fmt, s, line);
    assert LexStep(fmt, s, line) == Ok(Step([Token(NumberLiteral, LiteralText(fmt, d), line)], rest, line));
  }

  lemma NumberDigitsAndDots(d: string)
    requires ValidNumberLiteral(d)
    ensures forall i :: 0 <= i < |d| ==> IsDigit(d[i]) || d[i] == '.'
  {
    if !AllDigits(d) {
      var k := IndexOf(d, '.');
      forall i | 0 <= i < |d|
        ensures IsDigit(d[i]) || d[i] == '.'
      {
        if i < k {
          assert d[..k][i] == d[i];
        } else if i > k {
          assert d[k + 1..][i - k - 1] == d[i];
        }
      }
    }
  }

  lemma LiteralStartsWithDigit(d: string)
    requires ValidNumberLiteral(d)
    ensures IsDigit(d[0])
  {
    if !AllDigits(d) {
      assert d[..IndexOf(d, '.')][0] == d[0];
    }
  }

  /** An integer literal of a safe value becomes one number token whose text is the
      value's canonical decimal form (so `007` becomes `7`). */
  lemma IntegerLiteralToken(fmt: NumberFormat, d: string, rest: string, line: nat, acc: seq<Token>)
    requires |d| > 0 && AllDigits(d) && DigitsValue(d) <= MaxSafe
    requires rest == [] || !(IsDigit(rest[0]) || rest[0] == '.')
    ensures Lex(fmt, d + rest, line, acc) ==
            Lex(fmt, rest, line, acc + [Token(NumberLiteral, NatToString(DigitsValue(d)), line)])
  {
    NumberLiteralToken(fmt, d, rest, line, acc);
    IntegerLiteralCanonical(fmt, d);
  }

  /** An integer literal beyond the safe range is rounded to a double by the host, so its
      token holds the host's text rather than the literal's digits. */
  lemma LongIntegerLiteralToken(fmt: NumberFormat, d: string, rest: string, line: nat, acc: seq<Token>)
    requires |d| > 0 && AllDigits(d) && DigitsValue(d) > MaxSafe
    requires rest == [] || !(IsDigit(rest[0]) || rest[0] == '.')
    ensures Lex(fmt, d + rest, line, acc) ==
            Lex(fmt, rest, line, acc + [Token(NumberLiteral, fmt(d), line)])
  {
    NumberLiteralToken(fmt, d, rest, line, acc);
    IntegerLiteralCanonical(fmt, d);
  }

  /** A run of digits and dots that is not `digits` or `digits.digits` is an error. */
  lemma MalformedNumberFails(fmt: NumberFormat, d: string, rest: string, line: nat, acc: seq<Token>)
    requires |d| > 0 && IsDigit(d[0]) && !ValidNumberLiteral(d)
    requires forall i :: 0 <= i < |d| ==> IsDigit(d[i]) || d[i] == '.'
    requires rest == [] || !(IsDigit(rest[0]) || rest[0] == '.')
    ensures Lex(fmt, d + rest, line, acc) == Err(InvalidNumber(line, d))
  {
    NumberRunOf(d, rest);
    assert (d + rest)[0] == d[0];
    DigitStep(fmt, d + rest, line);
    assert LexStep(fmt, d + rest, line) == Err(InvalidNumber(line, d));
  }

  /** Examples: a trailing dot and a second dot both make the literal malformed. */
  lemma MalformedNumberExamples()
    ensures !ValidNumberLiteral("1.") && !ValidNumberLiteral("1.2.3")
    ensures ValidNumberLiteral("1.25") && ValidNumberLiteral("007")
  {
    assert IndexOf("1.", '.') == 1;
    assert IndexOf("1.2.3", '.') == 1;
    assert !AllDigits("1.2.3"[2..]) by { assert "1.2.3"[2..][1] == '.'; }
    assert IndexOf("1.25", '.') == 1;
    assert "1.25"[..1] == "1" && "1.25"[2..] == "25";
  }

  lemma {:induction false} IdentRunOf(p: string, t: string)
    requires forall i :: 0 <= i < |p| ==> IsIdentPart(p[i])
    requires t == [] || !IsIdentPart(t[0])
    ensures IdentRun(p + t) == p
  {
    if |p| > 0 {
      assert (p + t)[1..] == p[1..] + t;
      IdentRunOf(p[1..], t);
    }
  }

  lemma {:induction false} IdentRunParts(s: string)
    ensures forall i :: 0 <= i < |IdentRun(s)| ==> IsIdentPart(IdentRun(s)[i])
  {
    if |s| > 0 && IsIdentPart(s[0]) {
      IdentRunParts(s[1..]);
      assert IdentRun(s) == [s[0]] + IdentRun(s[1..]);
    }
  }

  /** The identifier check in the source always passes: a scanned name is a valid
      identifier whenever its first character may start one. */
  lemma IdentRunIsIdentifier(s: string)
    requires |s| > 0 && IsIdentStart(s[0])
    ensures ValidIdentifier(IdentRun(s))
  {
    IdentRunParts(s);
  }

  /** An identifier is one IDENTIFIER token with its own text; keywords are not special
      to the lexer. */
  lemma IdentifierToken(fmt: NumberFormat, name: string, rest: string, line: nat, acc: seq<Token>)
    requires ValidIdentifier(name)
    requires rest == [] || !IsIdentPart(rest[0])
    ensures Lex(fmt, name + rest, line, acc) == Lex(fmt, rest, line, acc + [Token(Identifier, name, line)])
  {
    IdentRunOf(name, rest);
    assert (name + rest)[0] == name[0];
    assert (name + rest)[|name|..] == rest;
  }
}
