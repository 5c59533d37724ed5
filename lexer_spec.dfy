/** The lexer's behaviour as functions: one dispatch of the scanning loop (`LexStep`) and
    the whole scan (`Lex`).  The `Lexer` class in module Lexing is proved to compute
    exactly these. */
module LexerSpec {
  import opened Wrappers
  import opened Tokens
  import opened Numbers

  predicate IsAlpha(c: char) { 'a' <= c <= 'z' || 'A' <= c <= 'Z' }

  /** A character that may start an identifier (`/^[a-z_][_a-z0-9]*$/i` on one character). */
  predicate IsIdentStart(c: char) { IsAlpha(c) || c == '_' }

  predicate IsIdentPart(c: char) { IsAlpha(c) || IsDigit(c) || c == '_' }

  /** Characters the scanning loop skips without a token. */
  predicate IsBlank(c: char) { c == ' ' || c == '\t' || c == '\r' }

  predicate IsQuote(c: char) { c == '"' || c == '\'' || c == '`' }

  /** `/^[a-z_][_a-z0-9]*$/i` */
  predicate ValidIdentifier(s: string)
  {
    |s| > 0 && IsIdentStart(s[0]) && forall i :: 0 <= i < |s| ==> IsIdentPart(s[i])
  }

  /** The longest prefix of `s` that does not contain `d`. */
  function TakeUntil(s: string, d: char): (r: string)
    ensures |r| <= |s|
  {
    if |s| == 0 || s[0] == d then "" else [s[0]] + TakeUntil(s[1..], d)
  }

  /** The longest prefix of `s` satisfying the number-literal loop's test: digits and dots. */
  function NumberRun(s: string): (r: string)
    ensures |r| <= |s|
  {
    if |s| > 0 && (IsDigit(s[0]) || s[0] == '.') then [s[0]] + NumberRun(s[1..]) else ""
  }

  /** The longest prefix of `s` made of letters, digits and underscores. */
  function IdentRun(s: string): (r: string)
    ensures |r| <= |s|
  {
    if |s| > 0 && IsIdentPart(s[0]) then [s[0]] + IdentRun(s[1..]) else ""
  }

  // What is left, and the line counter, after a block comment scanned from `s`.  Scanning
  // starts AT the opening slash, so the three characters slash-star-slash already form a
  // whole comment.  Every newline passed bumps the counter; an unterminated comment
  // swallows the rest of the input without an error.
  function BlockComment(s: string, line: nat): (r: (string, nat))
    ensures |r.0| < |s| || s == [] 
    ensures r.1 >= line
    decreases |s|
  {
    if |s| == 0 then ("", line)
    else if s[0] == '*' && |s| > 1 && s[1] == '/' then (s[2..], line)
    else if s[0] == '\n' then BlockComment(s[1..], line + 1)
    else BlockComment(s[1..], line)
  }

  /** What one turn of the scanning loop does: the tokens it pushes (none or one), the
      input it leaves, and the new line counter. */
  datatype Step = Step(emitted: seq<Token>, rest: string, line: nat)

  function InvalidCharacter(line: nat, c: string): string
  {
    "Invalid character at line " + NatToString(line) + ": " + c
  }

  function InvalidNumber(line: nat, lit: string): string
  {
    "Invalid number literal at line " + NatToString(line) + ": " + lit + " "
  }

  /** The character after the first one, as `sourceCode[1]` reads it. */
  predicate SecondIs(s: string, c: char) { |s| > 1 && s[1] == c }

  function One(kind: TokenKind, s: string, line: nat): Step
    requires |s| > 0
  {
    Step([Token(kind, s[..1], line)], s[1..], line)
  }

  function Two(kind: TokenKind, s: string, line: nat): Step
    requires |s| > 1
  {
    Step([Token(kind, s[..2], line)], s[2..], line)
  }

  /** `parseOperator`: the arithmetic characters and the comments that start with `/`. */
  function OperatorStep(s: string, line: nat): (r: Step)
    requires |s| > 0 && s[0] in "+-*/%"
    ensures |r.rest| < |s| && |r.emitted| <= 1 && r.line >= line
    ensures |r.emitted| == 1 ==> r.line == line && r.emitted[0].text == s[..|s| - |r.rest|]
  {
    match s[0]
    case '+' =>
      if SecondIs(s, '+') then Two(Increment, s, line)
      else if SecondIs(s, '=') then Two(PlusAssign, s, line)
      else One(Plus, s, line)
    case '-' =>
      if SecondIs(s, '-') then Two(Decrement, s, line)
      else if SecondIs(s, '=') then Two(MinusAssign, s, line)
      else One(Minus, s, line)
    case '*' =>
      if SecondIs(s, '=') then Two(StarAssign, s, line)
      else if SecondIs(s, '*') then Two(Exponent, s, line)
      else One(Star, s, line)
    case '/' =>
      if SecondIs(s, '=') then Two(SlashAssign, s, line)
      else if SecondIs(s, '/') then
        // the comment runs to the newline; the newline is eaten (if there is one) and the
        // line counter goes up in any case
        var body := TakeUntil(s, '\n');
        Step([], if |body| < |s| then s[|body| + 1..] else "", line + 1)
      else if SecondIs(s, '*') then
        var (rest, l) := BlockComment(s, line);
        Step([], rest, l)
      else One(Slash, s, line)
    case '%' =>
      if SecondIs(s, '=') then Two(ModuloAssign, s, line)
      else One(Modulo, s, line)
  }

  /** The token kind of a character that always makes a one-character token. */
  function Punctuation(c: char): Option<TokenKind>
  {
    match c
    case '(' => Some(OpenParen)
    case ')' => Some(CloseParen)
    case '{' => Some(OpenBrace)
    case '}' => Some(CloseBrace)
    case '[' => Some(OpenBracket)
    case ']' => Some(CloseBracket)
    case ',' => Some(Comma)
    case '.' => Some(Dot)
    case ':' => Some(Colon)
    case ';' => Some(Semicolon)
    case _ => None
  }

  /** The step at a digit: the run of digits and dots, re-formatted, or the
      invalid-literal error. */
  function NumberStep(fmt: NumberFormat, s: string, line: nat): (r: Result<Step>)
    requires |s| > 0 && IsDigit(s[0])
    ensures r.Ok? ==> |r.value.rest| < |s| && |r.value.emitted| == 1 && r.value.line == line
  {
    var run := NumberRun(s);
    if ValidNumberLiteral(run) then
      Ok(Step([Token(NumberLiteral, LiteralText(fmt, run), line)], s[|run|..], line))
    else Err(InvalidNumber(line, run))
  }

  /** One turn of `tokenize`'s loop on the non-empty input `s`; `fmt` formats the number
      literals the model does not format itself. */
  function LexStep(fmt: NumberFormat, s: string, line: nat): (r: Result<Step>)
    requires |s| > 0
    ensures r.Ok? ==> |r.value.rest| < |s| && |r.value.emitted| <= 1 && r.value.line >= line
  {
    var c := s[0];
    if c == '\n' then Ok(Step([], s[1..], line + 1))
    else if IsBlank(c) then Ok(Step([], s[1..], line))
    else if IsQuote(c) then
      var body := TakeUntil(s[1..], c);
      Ok(Step([Token(StringLiteral, body, line)],
              if 1 + |body| < |s| then s[2 + |body|..] else "", line))
    else if c in "+-*/%" then Ok(OperatorStep(s, line))
    else if c == '=' then Ok(if SecondIs(s, '=') then Two(Equal, s, line) else One(Assign, s, line))
    else if c == '!' then Ok(if SecondIs(s, '=') then Two(NotEqual, s, line) else One(Not, s, line))
    else if c == '>' then
      Ok(if SecondIs(s, '=') then Two(GreaterEqual, s, line) else One(Greater, s, line))
    else if c == '<' then
      Ok(if SecondIs(s, '=') then Two(LessEqual, s, line) else One(Less, s, line))
    else if c == '&' then
      if SecondIs(s, '&') then Ok(Two(And, s, line)) else Err(InvalidCharacter(line, "&"))
    else if c == '|' then
      if SecondIs(s, '|') then Ok(Two(Or, s, line)) else Err(InvalidCharacter(line, "|"))
    else if Punctuation(c).Some? then Ok(One(Punctuation(c).value, s, line))
    else if IsDigit(c) then NumberStep(fmt, s, line)
    else if IsIdentStart(c) then
      var run := IdentRun(s);
      Ok(Step([Token(Identifier, run, line)], s[|run|..], line))
    else Err(InvalidCharacter(line, [c]))
  }

  /** The scanning loop from input `s`, line counter `line` and tokens `acc` already pushed,
      closed by the EOF token. */
  function Lex(fmt: NumberFormat, s: string, line: nat, acc: seq<Token>): Result<seq<Token>>
    decreases |s|
  {
    if |s| == 0 then Ok(acc + [Token(Eof, "", line)])
    else
      match LexStep(fmt, s, line)
      case Err(m) => Err(m)
      case Ok(st) => Lex(fmt, st.rest, st.line, acc + st.emitted)
  }

  /** The line counter once the scanning loop has consumed `s` from line `line` (up to
      the first failing step). */
  function FinalLine(fmt: NumberFormat, s: string, line: nat): (r: nat)
    ensures r >= line
    decreases |s|
  {
    if |s| == 0 then line
    else
      match LexStep(fmt, s, line)
      case Err(_) => line
      case Ok(st) => FinalLine(fmt, st.rest, st.line)
  }

  /** `new Lexer(source).tokenize()` */
  function Tokenize(fmt: NumberFormat, source: string): Result<seq<Token>>
  {
    Lex(fmt, source, 1, [])
  }
}
