/** The lexer as the source writes it: a scanner over a character buffer that it consumes
    from the front (`eat`), pushing tokens and counting lines in its fields.  Every method
    is proved to do what the functions of module LexerSpec say. */
module Lexing {
  import opened Wrappers
  import opened Tokens
  import opened Numbers
  import opened LexerSpec

  class Lexer {
    var sourceCode: string
    var currentLineNumber: nat
    var tokens: seq<Token>
    /** The host's `parseFloat(...).toString()` for the literals the model does not format. */
    const fmt: NumberFormat

    constructor(source: string, fmt: NumberFormat)
      ensures sourceCode == source && currentLineNumber == 1 && tokens == [] && this.fmt == fmt
    {
      this.fmt := fmt;
      sourceCode := source;
      currentLineNumber := 1;
      tokens := [];
    }

    /** `sourceCode[0]`, `None` standing for `undefined` once the buffer is empty. */
    function Peek(): (c: Option<char>)
      reads this
      ensures c.Some? <==> |sourceCode| > 0
      ensures c.Some? ==> c.value == sourceCode[0]
    {
      if |sourceCode| > 0 then Some(sourceCode[0]) else None
    }

    /** `sourceCode.shift() || ""`: the first character, or the empty text at the end. */
    method Eat() returns (c: string)
      modifies this`sourceCode
      ensures old(sourceCode) == c + sourceCode
      ensures |c| == if old(sourceCode) == [] then 0 else 1
    {
      if |sourceCode| > 0 {
        c := sourceCode[..1];
        sourceCode := sourceCode[1..];
      } else {
        c := "";
      }
    }

    /** Scans a string literal whose opening delimiter is already eaten. */
    method ParseStringLiteral(endCharacter: char) returns (lit: string)
      modifies this`sourceCode
      ensures lit == TakeUntil(old(sourceCode), endCharacter)
      ensures sourceCode == if |lit| < |old(sourceCode)| then old(sourceCode)[|lit| + 1..] else ""
    {
      lit := "";
      while |sourceCode| > 0 && sourceCode[0] != endCharacter
        invariant |lit| <= |old(sourceCode)| && sourceCode == old(sourceCode)[|lit|..]
        invariant TakeUntil(old(sourceCode), endCharacter) == lit + TakeUntil(sourceCode, endCharacter)
        decreases |sourceCode|
      {
        var c := Eat();
        lit := lit + c;
      }
      var closing := Eat();
    }

    /** Scans a number literal and gives its re-formatted text, or the invalid-literal error. */
    method ParseNumberLiteral() returns (r: Result<string>)
      modifies this`sourceCode
      ensures var run := NumberRun(old(sourceCode));
              sourceCode == old(sourceCode)[|run|..] &&
              r == if ValidNumberLiteral(run) then Ok(LiteralText(fmt, run))
                   else Err(InvalidNumber(currentLineNumber, run))
    {
      var lit := "";
      while (|sourceCode| > 0 && IsDigit(sourceCode[0])) || Peek() == Some('.')
        invariant |lit| <= |old(sourceCode)| && sourceCode == old(sourceCode)[|lit|..]
        invariant NumberRun(old(sourceCode)) == lit + NumberRun(sourceCode)
        decreases |sourceCode|
      {
        ghost var before := sourceCode;
        assert NumberRun(before) == [before[0]] + NumberRun(before[1..]);
        var c := Eat();
        assert c == [before[0]] && sourceCode == before[1..];
        assert lit + NumberRun(before) == (lit + c) + NumberRun(sourceCode);
        lit := lit + c;
      }
      assert NumberRun(sourceCode) == "";
      assert lit == NumberRun(old(sourceCode));
      if !ValidNumberLiteral(lit) {
        return Err(InvalidNumber(currentLineNumber, lit));
      }
      r := Ok(LiteralText(fmt, lit));
    }

    /** Scans an identifier.  The source re-checks the scanned name against the identifier
        pattern; that check cannot fail once the first character may start an identifier
        (lemma IdentRunIsIdentifier), so it is not repeated here. */
    method ParseIdentifier() returns (name: string)
      requires |sourceCode| > 0 && IsIdentStart(sourceCode[0])
      modifies this`sourceCode
      ensures name == IdentRun(old(sourceCode)) && sourceCode == old(sourceCode)[|name|..]
    {
      name := "";
      while (|sourceCode| > 0 && IsAlpha(sourceCode[0])) || (Peek().Some? && IsDigit(Peek().value))
            || Peek() == Some('_')
        invariant |name| <= |old(sourceCode)| && sourceCode == old(sourceCode)[|name|..]
        invariant IdentRun(old(sourceCode)) == name + IdentRun(sourceCode)
        decreases |sourceCode|
      {
        var c := Eat();
        name := name + c;
      }
      assert IdentRun(sourceCode) == "";
    }

    /** Eats one character (the newline, if any is left) and bumps the line counter. */
    method ParseNewLine()
      modifies this`sourceCode, this`currentLineNumber
      ensures sourceCode == if old(sourceCode) == [] then [] else old(sourceCode)[1..]
      ensures currentLineNumber == old(currentLineNumber) + 1
    {
      var c := Eat();
      currentLineNumber := currentLineNumber + 1;
    }

    method ParseSingleLineComment()
      modifies this`sourceCode, this`currentLineNumber
      ensures var body := TakeUntil(old(sourceCode), '\n');
              sourceCode == (if |body| < |old(sourceCode)| then old(sourceCode)[|body| + 1..] else "")
      ensures currentLineNumber == old(currentLineNumber) + 1
    {
      ghost var body := "";
      while |sourceCode| > 0 && sourceCode[0] != '\n'
        invariant |body| <= |old(sourceCode)| && sourceCode == old(sourceCode)[|body|..]
        invariant TakeUntil(old(sourceCode), '\n') == body + TakeUntil(sourceCode, '\n')
        invariant currentLineNumber == old(currentLineNumber)
        decreases |sourceCode|
      {
        ghost var before := sourceCode;
        assert TakeUntil(before, '\n') == [before[0]] + TakeUntil(before[1..], '\n');
        var c := Eat();
        assert c == [before[0]] && sourceCode == before[1..];
        assert body + TakeUntil(before, '\n') == (body + c) + TakeUntil(sourceCode, '\n');
        body := body + c;
      }
      ParseNewLine();
    }

    method ParseMultiLineComment()
      modifies this`sourceCode, this`currentLineNumber
      ensures (sourceCode, currentLineNumber) == BlockComment(old(sourceCode), old(currentLineNumber))
    {
      while |sourceCode| > 0 && (sourceCode[0] != '*' || !SecondIs(sourceCode, '/'))
        invariant BlockComment(sourceCode, currentLineNumber) ==
                  BlockComment(old(sourceCode), old(currentLineNumber))
        decreases |sourceCode|
      {
        if sourceCode[0] == '\n' {
          ParseNewLine();
          continue;
        }
        var c := Eat();
      }
      assert BlockComment(sourceCode, currentLineNumber) ==
             (if sourceCode == [] then "" else sourceCode[2..], currentLineNumber);
      ghost var before := sourceCode;
      var star := Eat();
      var slash := Eat();
      assert sourceCode == if before == [] then [] else before[2..];
    }

    /** Pushes a one-character token of the given kind. */
    method PushOne(kind: TokenKind)
      requires |sourceCode| > 0
      modifies this`sourceCode, this`tokens
      ensures var st := One(kind, old(sourceCode), currentLineNumber);
              sourceCode == st.rest && tokens == old(tokens) + st.emitted
    {
      var c := Eat();
      tokens := tokens + [Token(kind, c, currentLineNumber)];
    }

    /** Pushes a two-character token of the given kind. */
    method PushTwo(kind: TokenKind)
      requires |sourceCode| > 1
      modifies this`sourceCode, this`tokens
      ensures var st := Two(kind, old(sourceCode), currentLineNumber);
              sourceCode == st.rest && tokens == old(tokens) + st.emitted
    {
      var c1 := Eat();
      var c2 := Eat();
      tokens := tokens + [Token(kind, c1 + c2, currentLineNumber)];
      assert old(sourceCode)[..2] == c1 + c2;
    }

    method ParseOperator()
      requires |sourceCode| > 0 && sourceCode[0] in "+-*/%"
      modifies this
      ensures var st := OperatorStep(old(sourceCode), old(currentLineNumber));
              sourceCode == st.rest && currentLineNumber == st.line &&
              tokens == old(tokens) + st.emitted
    {
      match sourceCode[0]
      case '+' =>
        if SecondIs(sourceCode, '+') { PushTwo(Increment); }
        else if SecondIs(sourceCode, '=') { PushTwo(PlusAssign); }
        else { PushOne(Plus); }
      case '-' =>
        if SecondIs(sourceCode, '-') { PushTwo(Decrement); }
        else if SecondIs(sourceCode, '=') { PushTwo(MinusAssign); }
        else { PushOne(Minus); }
      case '*' =>
        if SecondIs(sourceCode, '=') { PushTwo(StarAssign); }
        else if SecondIs(sourceCode, '*') { PushTwo(Exponent); }
        else { PushOne(Star); }
      case '/' =>
        if SecondIs(sourceCode, '=') { PushTwo(SlashAssign); }
        else if SecondIs(sourceCode, '/') { ParseSingleLineComment(); }
        else if SecondIs(sourceCode, '*') { ParseMultiLineComment(); }
        else { PushOne(Slash); }
      case '%' =>
        if SecondIs(sourceCode, '=') { PushTwo(ModuloAssign); }
        else { PushOne(Modulo); }
    }

    /** One turn of `tokenize`'s loop: the `switch` on the next character.  Returns the
        message of the error thrown, if any. */
    method ScanToken() returns (error: Option<string>)
      requires |sourceCode| > 0
      modifies this
      ensures var st := LexStep(fmt, old(sourceCode), old(currentLineNumber));
              (st.Err? ==> error == Some(st.msg)) &&
              (st.Ok? ==> error == None && sourceCode == st.value.rest &&
                          currentLineNumber == st.value.line &&
                          tokens == old(tokens) + st.value.emitted)
    {
      error := None;
      var c := sourceCode[0];
      if c == '\n' {
        ParseNewLine();
      } else if IsBlank(c) {
        var blank := Eat();
      } else if IsQuote(c) {
        var open := Eat();
        var lit := ParseStringLiteral(c);
        tokens := tokens + [Token(StringLiteral, lit, currentLineNumber)];
      } else if c in "+-*/%" {
        ParseOperator();
      } else if c == '=' {
        if SecondIs(sourceCode, '=') { PushTwo(Equal); } else { PushOne(Assign); }
      } else if c == '!' {
        if SecondIs(sourceCode, '=') { PushTwo(NotEqual); } else { PushOne(Not); }
      } else if c == '>' {
        if SecondIs(sourceCode, '=') { PushTwo(GreaterEqual); } else { PushOne(Greater); }
      } else if c == '<' {
        if SecondIs(sourceCode, '=') { PushTwo(LessEqual); } else { PushOne(Less); }
      } else if c == '&' {
        if SecondIs(sourceCode, '&') {
          PushTwo(And);
        } else {
          var bad := Eat();
          assert bad == "&";
          error := Some(InvalidCharacter(currentLineNumber, bad));
        }
      } else if c == '|' {
        if SecondIs(sourceCode, '|') {
          PushTwo(Or);
        } else {
          var bad := Eat();
          assert bad == "|";
          error := Some(InvalidCharacter(currentLineNumber, bad));
        }
      } else if Punctuation(c).Some? {
        PushOne(Punctuation(c).value);
      } else if IsDigit(c) {
        var lit := ParseNumberLiteral();
        if lit.Err? {
          error := Some(lit.msg);
        } else {
          tokens := tokens + [Token(NumberLiteral, lit.value, currentLineNumber)];
        }
      } else if IsIdentStart(c) {
        var name := ParseIdentifier();
        tokens := tokens + [Token(Identifier, name, currentLineNumber)];
      } else {
        var bad := Eat();
        assert bad == [c];
        error := Some(InvalidCharacter(currentLineNumber, bad));
      }
    }

    /** `tokenize`: scans the whole buffer and closes the stream with the EOF token. */
    method Tokenize() returns (r: Result<seq<Token>>)
      modifies this
      ensures r == Lex(fmt, old(sourceCode), old(currentLineNumber), old(tokens))
      ensures r.Ok? ==> |sourceCode| == 0 && tokens == r.value && |r.value| > 0 &&
                        currentLineNumber == FinalLine(fmt, old(sourceCode), old(currentLineNumber)) &&
                        r.value[|r.value| - 1] == Token(Eof, "", currentLineNumber)
    {
      while |sourceCode| > 0
        invariant Lex(fmt, sourceCode, currentLineNumber, tokens) ==
                  Lex(fmt, old(sourceCode), old(currentLineNumber), old(tokens))
        invariant FinalLine(fmt, sourceCode, currentLineNumber) ==
                  FinalLine(fmt, old(sourceCode), old(currentLineNumber))
        decreases |sourceCode|
      {
        var error := ScanToken();
        if error.Some? {
          return Err(error.value);
        }
      }
      tokens := tokens + [Token(Eof, "", currentLineNumber)];
      r := Ok(tokens);
    }
  }

  /** `new Lexer(source).tokenize()`, the way the front ends call it. */
  method LexSource(source: string, fmt: NumberFormat) returns (r: Result<seq<Token>>)
    ensures r == Tokenize(fmt, source)
  {
    var lexer := new Lexer(source, fmt);
    r := lexer.Tokenize();
  }
}
