# npl in Dafny

This project models npl, a small dynamically typed scripting language written in
TypeScript. It covers the live pipeline from source text to result, and proves properties
of each stage:

- **Lexer** (`lexer_spec.dfy`, `lexing.dfy`, `lexer_props.dfy`). The character-array
  scanner `Lexer` is a class. Its fields are the remaining characters, the line counter
  and the tokens pushed so far, and its scan helpers are loops. Each method is proved
  equal to a step function of `LexerSpec`. The properties of the token stream are lemmas
  about that function.
- **Parser** (`ast.dfy`, `parser_spec.dfy`, `parsing.dfy`, `parser_props.dfy`). The
  recursive-descent `Parser` is a class over a token sequence that `advance` shortens.
  Each method is proved equal to a function of `ParserSpec` that gives the node and the
  tokens left. The AST is one closed datatype.
- **Numbers** (`numbers.dfy`). Numbers are kept as text. The model gives exact meaning
  to canonical integer text within the safe-integer range (±(2^53 − 1)). The lexer
  writes a number literal back as text itself when the double prints back as the
  literal: a safe integer, or a fraction of at most 15 significant digits that is not
  below 10^-6. Every other literal is written by a `NumberFormat` function passed to
  the lexer. All other numeric work (float arithmetic, `toString` of doubles) is
  delegated to a `Host` record of functions passed in as a parameter.
- **Values and operators** (`values.dfy`, `operators.dfy`, `operator_props.dfy`).
  Runtime values are a tagged sum. The per-kind operator tables of `+ - * /`, `==`, `!=`,
  the comparisons, `&&`, `||`, `!`, unary `-`, `++` and `--` are pure functions.
- **Environment** (`environment.dfy`, `environment_props.dfy`). The scope chain is an
  arena: a sequence of frames, each holding variables, the names marked constant, the
  names marked function, and the index of its parent. A parent always comes earlier in
  the arena than its child. `Environment`'s methods (`define`, `get`, `set`, `delete`,
  `destroy`) are methods of the class `Scopes`, which owns the arena. Each is proved
  equal to a function on frames.
- **Built-ins** (`std.dfy`, `std_props.dfy`). `defineVariables` and `defineFunctions`
  bind the root scope. `number`, `string`, `boolean`, `length` and `type` are pure
  functions of the argument list.
- **Interpreter** (`eval_spec.dfy`, `interpreter.dfy`, `eval_props.dfy`). `Evaluation.Eval`
  is the tree walk as a function over the arena. The class `Interpreter` runs the same
  walk with methods that update the shared `Scopes` object, and each method is proved to
  agree with `Eval`. A child `Interpreter` over a fresh `Environment` is the same walk
  run in a new scope at the end of the arena. Loops and user-function calls consume a
  `fuel` parameter. Running out of fuel is an error of its own.

## Model

| member | source | states |
|---|---|---|
| Lexing.Lexer.constructor | npl2/src/Lexer/Lexer.ts:5-12 | the buffer holds the whole source, the line counter starts at 1 and no token has been pushed; the number formatting is the one given |
| Lexing.Lexer.Peek | npl2/src/Lexer/Lexer.ts:14-16 | gives the first remaining character, or nothing exactly when the buffer is empty |
| Lexing.Lexer.Eat | npl2/src/Lexer/Lexer.ts:18-20 | removes and returns the first character; at the end it returns the empty text and leaves the buffer empty |
| Lexing.Lexer.ParseStringLiteral | npl2/src/Lexer/Lexer.ts:38-48 | the literal is the longest prefix without the delimiter; the buffer loses that prefix and the delimiter, or becomes empty when no delimiter follows |
| Lexing.Lexer.ParseNumberLiteral | npl2/src/Lexer/Lexer.ts:50-67 | consumes the maximal run of digits and dots; gives `parseFloat` of the run written back as text (`LiteralText`) when the run matches `digits(.digits)?`, and otherwise the invalid-number error with the current line |
| Lexing.Lexer.ParseIdentifier | npl2/src/Lexer/Lexer.ts:69-87 | consumes and returns the maximal run of letters, digits and underscores |
| Lexing.Lexer.ParseNewLine | npl2/src/Lexer/Lexer.ts:89-93 | drops one character, if any is left, and increments the line counter by one |
| Lexing.Lexer.ParseSingleLineComment | npl2/src/Lexer/Lexer.ts:95-101 | drops everything up to and including the next newline and increments the line counter by one, also when the comment ends the input |
| Lexing.Lexer.ParseMultiLineComment | npl2/src/Lexer/Lexer.ts:103-117 | the new buffer and line counter are those of `BlockComment`, which counts every newline passed |
| Lexing.Lexer.ParseOperator | npl2/src/Lexer/Lexer.ts:119-225 | buffer, line counter and pushed tokens become those of the operator step: one-character lookahead picks the two-character operator, and comments push nothing |
| Lexing.Lexer.ScanToken | npl2/src/Lexer/Lexer.ts:229-435 | one turn of the scanning loop agrees with `LexStep`: the same error message, or the same rest, line and emitted token |
| Lexing.Lexer.Tokenize | npl2/src/Lexer/Lexer.ts:227-439 | the result equals `Lex` of the buffer, the line counter and the tokens already pushed; on success the buffer is empty, the line counter is `FinalLine` of the old buffer and line, the `tokens` field is the result, and the result ends with the EOF token on that line |
| Lexing.LexSource | npl2/src/Lexer/Lexer.ts:227-439 | lexing a fresh lexer over the source gives `Tokenize(fmt, source)` |
| LexerSpec.LexStep | npl2/src/Lexer/Lexer.ts:229-435 | a successful step consumes at least one character, emits at most one token and never lowers the line counter |
| LexerSpec.OperatorStep | npl2/src/Lexer/Lexer.ts:119-225 | an operator step consumes at least one character and emits at most one token, whose text is exactly the characters consumed; comments emit nothing and may raise the line counter |
| LexerSpec.NumberStep | npl2/src/Lexer/Lexer.ts:410-418 | a successful number step consumes at least one character, emits exactly one token and keeps the line counter |
| LexerSpec.Lex | npl2/src/Lexer/Lexer.ts:227-439 | the scanning loop as a function; `LexEndsWithSingleEof`, `LexLinesAscending` and the token lemmas below state what it gives |
| LexerSpec.FinalLine | npl2/src/Lexer/Lexer.ts:227-438 | the line counter once the loop has consumed the input is never below the starting line |
| LexerSpec.Tokenize | npl2/src/Lexer/Lexer.ts:227-439 | `tokenize` of a fresh lexer; `TokenizeShape` states its shape |
| LexerSpec.BlockComment | npl2/src/Lexer/Lexer.ts:103-117 | a block comment consumes at least its opening character and never lowers the line counter |
| LexerProperties.LexEndsWithSingleEof | npl2/src/Lexer/Lexer.ts:437-438 | a successful scan keeps the tokens pushed before and ends with exactly one EOF token, which has empty text and is on line `FinalLine`, the final line counter |
| LexerProperties.LexLinesAscending | npl2/src/Lexer/Lexer.ts:227-438 | token line numbers never decrease along the stream |
| LexerProperties.TokenizeShape | npl2/src/Lexer/Lexer.ts:227-439 | a lexed program is non-empty, ends in an EOF token on the final line, has no other EOF, and its lines ascend |
| LexerProperties.BlankInputLexesToEof | npl2/src/Lexer/Lexer.ts:230-237 | spaces, tabs and carriage returns give no token; the EOF line is the start line plus the number of newlines |
| LexerProperties.TakeUntilOf | npl2/src/Lexer/Lexer.ts:41-43 | the string scan stops exactly at the first delimiter |
| LexerProperties.LineCommentSkipped | npl2/src/Lexer/Lexer.ts:199-200 | a `//` comment gives no token, and the newline ending it adds one to the line counter |
| LexerProperties.LineCommentAtEnd | npl2/src/Lexer/Lexer.ts:95-101 | a `//` comment at the end of the input still adds one to the line of the EOF token |
| LexerProperties.BlockCommentBody | npl2/src/Lexer/Lexer.ts:103-117 | a block comment ends at the first `*/` and counts every newline in its body |
| LexerProperties.BlockCommentSkipped | npl2/src/Lexer/Lexer.ts:201-202 | a `/* */` comment gives no token and advances the line counter by the newlines inside it |
| LexerProperties.ShortBlockComment | npl2/src/Lexer/Lexer.ts:103-117 | `/*/` is already a complete comment, because the closing test starts at the opening slash |
| LexerProperties.TwoCharOperator | npl2/src/Lexer/Lexer.ts:119-351 | each of `++ += -- -= *= ** /= %= == != >= <= && \|\|` becomes one token whose text is those two characters |
| LexerProperties.LexStepFails | npl2/src/Lexer/Lexer.ts:318-433 | a step fails exactly for a lone `&` or `\|`, a malformed number, or a character with no rule |
| LexerProperties.UnrecognisedCharacter | npl2/src/Lexer/Lexer.ts:427-433 | a character with no rule gives "Invalid character at line N: c" |
| LexerProperties.StringLiteralToken | npl2/src/Lexer/Lexer.ts:238-247 | a quoted string gives one string token whose text is exactly what stands between the delimiters, with no escape processing |
| LexerProperties.UnterminatedString | npl2/src/Lexer/Lexer.ts:38-48 | a string with no closing delimiter takes the rest of the input as its text, with no error |
| LexerProperties.NumberRunOf | npl2/src/Lexer/Lexer.ts:53-58 | the number scan takes exactly the maximal run of digits and dots |
| LexerProperties.NumberLiteralToken | npl2/src/Lexer/Lexer.ts:410-418 | a well-formed number literal gives one number token holding `parseFloat` of the literal written back as text |
| LexerProperties.IntegerLiteralToken | npl2/src/Lexer/Lexer.ts:410-418 | a run of digits whose value is a safe integer gives one number token whose text is the canonical decimal of its value, so `007` becomes `7` |
| LexerProperties.LongIntegerLiteralToken | npl2/src/Lexer/Lexer.ts:410-418 | a run of digits beyond the safe range gives one number token holding the host's text for the rounded double, not the literal's digits |
| LexerProperties.MalformedNumberFails | npl2/src/Lexer/Lexer.ts:60-64 | a digit-initial run of digits and dots that is not `digits(.digits)?` stops the scan with the invalid-number error |
| LexerProperties.MalformedNumberExamples | npl2/src/Lexer/Lexer.ts:30-32 | `1.` and `1.2.3` are malformed, while `1.25` and `007` are well formed |
| LexerProperties.IdentRunOf | npl2/src/Lexer/Lexer.ts:72-78 | the identifier scan takes exactly the maximal run of letters, digits and underscores |
| LexerProperties.IdentRunParts | npl2/src/Lexer/Lexer.ts:72-78 | every character the identifier scan takes is a letter, a digit or an underscore |
| LexerProperties.IdentRunIsIdentifier | npl2/src/Lexer/Lexer.ts:80-84 | a run that starts with a letter or underscore always matches the identifier pattern, so that check never throws |
| LexerProperties.IdentifierToken | npl2/src/Lexer/Lexer.ts:419-426 | a maximal identifier run gives one IDENTIFIER token with that text; keywords are not treated specially |
| Numbers.DigitChar | npl2/src/Lexer/Lexer.ts:26-28 | the digit written for d is a digit character whose value is d |
| Numbers.IntView | src/Interpreter/Interpreter.ts:66 | a text has an integer view only when that integer is safe |
| Numbers.NatToString | npl2/src/Lexer/Lexer.ts:415 | the decimal text of a natural number is canonical: no leading zero unless it is `0` |
| Numbers.NatToStringValue | npl2/src/Lexer/Lexer.ts:415 | the decimal text of n reads back as n |
| Numbers.LeadingNonZeroValue | npl2/src/Lexer/Lexer.ts:415 | digits without a leading zero have a value of at least 1, and of at least 10 when there are two or more |
| Numbers.DigitsValueRoundTrip | npl2/src/Lexer/Lexer.ts:415 | canonical digit text is reproduced by writing out its value |
| Numbers.IntViewOfIntToString | src/Interpreter/Interpreter.ts:66 | the text written for a safe integer reads back as that integer |
| Numbers.IntToStringOfIntView | src/Interpreter/Interpreter.ts:66 | text with an integer view is safe and is reproduced by writing out its value |
| Numbers.LeadingDigits | src/Interpreter/Interpreter.ts:195 | gives the longest all-digit prefix |
| Numbers.ParseInt | src/Interpreter/Interpreter.ts:195 | `parseInt` gives a number exactly when an optional sign is followed by a digit |
| Numbers.ParseIntOfIntView | src/Interpreter/Interpreter.ts:195 | on integer text, `parseInt` agrees with the integer view |
| Numbers.LeadingDigitsOfDigits | src/Interpreter/Interpreter.ts:195 | on an all-digit text the digit prefix is the whole text |
| Numbers.IndexOf | npl2/src/Lexer/Lexer.ts:31 | gives the position of the first occurrence of c, or the length when c does not occur |
| Numbers.StripTrailingZeros | npl2/src/Lexer/Lexer.ts:415 | removes exactly the trailing zeros: the result is a prefix not ending in `0`, followed only by zeros |
| Numbers.IntegerLiteralCanonical | npl2/src/Lexer/Lexer.ts:415 | an integer literal within the safe range is written back as the canonical decimal of its value, and that text has the same integer view; beyond the safe range the text is the host's formatting |
| Numbers.CanonicalNumber | npl2/src/Lexer/Lexer.ts:415 | the canonical text of a literal has a whole part without superfluous leading zeros and, when it has a point, a non-empty all-digit fraction that does not end in `0` |
| Numbers.LiteralText | npl2/src/Lexer/Lexer.ts:66 | `parseFloat(literal).toString()`: the canonical text for a short literal, the host's formatting otherwise; `IntegerLiteralCanonical` and `ShortFractionText` state what it gives |
| Numbers.ShortFractionText | npl2/src/Lexer/Lexer.ts:415 | a fraction of at most 15 significant digits and at least 1 keeps its digits: the whole part without leading zeros, the point, and the fraction |
| Parsing.Parser.constructor | src/Parser/Parser.ts:29-31 | the parser starts with the given token list |
| Parsing.Parser.Advance | src/Parser/Parser.ts:36-38 | removes and returns the first token |
| Parsing.Parser.Consume | src/Parser/Parser.ts:39-45 | agrees with `ParserSpec.Consume`: takes exactly the first token when it has the wanted kind, and otherwise fails with "Unexpected token" |
| Parsing.Parser.ParseExpr | src/Parser/Parser.ts:189-191 | the node and the tokens left agree with `ParserSpec.ParseExpr` |
| Parsing.Parser.ParseAssignmentExpr | src/Parser/Parser.ts:192-201 | agrees with `ParserSpec.ParseExpr`: a logical-level left side, then optionally `=`, one logical-level right side and a required `;` |
| Parsing.Parser.ParseLogicalExpr | src/Parser/Parser.ts:202-213 | agrees with `ParseLevel(3)`, the left-associative `&&`/`\|\|` level |
| Parsing.Parser.ParseEqualityAndComparisonExpr | src/Parser/Parser.ts:214-229 | agrees with `ParseLevel(2)`, the left-associative `== != > >= < <=` level |
| Parsing.Parser.ParseAdditionExpr | src/Parser/Parser.ts:230-241 | agrees with `ParseLevel(1)`, the left-associative `+ -` level |
| Parsing.Parser.ParseMultiplicationExpr | src/Parser/Parser.ts:243-256 | agrees with `ParseLevel(0)`, the left-associative `* / % **` level |
| Parsing.Parser.ParseUnaryExpr | src/Parser/Parser.ts:258-278 | agrees with `ParserSpec.ParseUnary`: nested prefix `!`/`-`, or a primary with at most one postfix `++`/`--` |
| Parsing.Parser.ParsePrimaryExpr | src/Parser/Parser.ts:279-310 | agrees with `ParserSpec.ParsePrimary`: delete, literals, identifiers, parentheses and blocks, and "Unexpected token" otherwise |
| Parsing.Parser.ParseDeleteExpr | src/Parser/Parser.ts:59-64 | agrees with `ParserSpec.ParseDelete`: `delete`, a name and `;` |
| Parsing.Parser.ParseBlockStatement | src/Parser/Parser.ts:180-188 | agrees with `ParserSpec.ParseBlock`: `{`, expressions up to the closing `}`, then `}` |
| Parsing.Parser.ParseIdentifierExpr | src/Parser/Parser.ts:66-179 | agrees with `ParserSpec.ParseIdentifierExpr`: keyword dispatch on the identifier's text, then calls, then names |
| Parsing.Parser.ParseVarDecl | src/Parser/Parser.ts:70-93 | agrees with `ParserSpec.ParseVarDecl` |
| Parsing.Parser.ParseWhile | src/Parser/Parser.ts:94-101 | agrees with `ParserSpec.ParseWhile`: `while ( expr ) block` |
| Parsing.Parser.ParseFor | src/Parser/Parser.ts:102-112 | agrees with `ParserSpec.ParseFor`: `for ( expr expr ; expr ) block` |
| Parsing.Parser.ParseFunctionDecl | src/Parser/Parser.ts:113-127 | agrees with `ParserSpec.ParseFunctionDecl`: name, parameter names with optional commas, then a block |
| Parsing.Parser.ParseIf | src/Parser/Parser.ts:128-140 | agrees with `ParserSpec.ParseIf`: condition, then block, then an optional `else` block |
| Parsing.Parser.ParseCall | src/Parser/Parser.ts:141-156 | agrees with `ParserSpec.ParseCall`: arguments with optional commas up to `)`, then an optional `;` |
| Parsing.Parser.ProduceAst | src/Parser/Parser.ts:311-318 | the program equals `ParserSpec.ProduceAst` of the tokens |
| Parsing.ParseTokens | src/Parser/Parser.ts:311-318 | parsing a fresh parser over the tokens gives `ProduceAst(tokens)` |
| ParserSpec.Consume | src/Parser/Parser.ts:39-45 | succeeds exactly when the first token has the wanted kind; it then gives that token and the rest, and otherwise fails with "Unexpected token" |
| ParserSpec.ParseExpr | src/Parser/Parser.ts:189-201 | a successful parse consumes at least one token and leaves a list that still ends in EOF |
| ParserSpec.ParseLevel | src/Parser/Parser.ts:202-256 | a successful parse of a binary level consumes at least one token and leaves a list that still ends in EOF |
| ParserSpec.ParseUnary | src/Parser/Parser.ts:258-278 | a successful unary parse consumes at least one token and leaves a list that still ends in EOF |
| ParserSpec.ParsePrimary | src/Parser/Parser.ts:279-310 | a successful primary parse consumes at least one token and leaves a list that still ends in EOF |
| ParserSpec.ParseBlock | src/Parser/Parser.ts:180-188 | a successful block parse consumes at least one token and leaves a list that still ends in EOF |
| ParserSpec.ParseIdentifierExpr | src/Parser/Parser.ts:66-179 | a successful parse from an identifier consumes at least one token and leaves a list that still ends in EOF |
| ParserSpec.ElseBranch | src/Parser/Parser.ts:134-138 | reading the optional `else` block of an `if` never adds tokens, and leaves a list that still ends in EOF |
| ParserSpec.ProduceAst | src/Parser/Parser.ts:311-318 | the program loop as a function; `ProduceAstCons` and `ProduceAstAtEof` state what it gives |
| ParserProperties.LevelsDisjoint | src/Parser/Parser.ts:202-256 | an operator of one level is not an operator of any tighter level |
| ParserProperties.OutsideLower | src/Parser/Parser.ts:202-256 | a token outside the operators of levels up to k is outside those of every lower level |
| ParserProperties.UnaryAtLevel | src/Parser/Parser.ts:202-256 | when no operator of the level follows, each binary level gives just the unary operand |
| ParserProperties.UnaryIsExpr | src/Parser/Parser.ts:189-201 | when the expression ends after the unary operand, the whole expression is that operand |
| ParserProperties.LiteralAtLevel | src/Parser/Parser.ts:202-256 | a number literal followed by no operator of the level parses as the literal alone |
| ParserProperties.OperandLiteral | src/Parser/Parser.ts:243-256 | a number literal is a complete operand of every level |
| ParserProperties.TailStops | src/Parser/Parser.ts:204-212 | the operator loop stops at the first token that is not an operator of its level |
| ParserProperties.TailTakesLiteral | src/Parser/Parser.ts:204-212 | one turn of the operator loop wraps the left side and the next operand in a binary node |
| ParserProperties.LevelStartsWithLiteral | src/Parser/Parser.ts:202-256 | a literal followed by an operator of the level hands the literal to the operator loop |
| ParserProperties.SingleBinary | src/Parser/Parser.ts:202-256 | `a op b` parses to one binary node that stores the operator first |
| ParserProperties.LiftLevel | src/Parser/Parser.ts:202-256 | a parse at a tight level is also the parse at every looser level when no looser operator follows |
| ParserProperties.LevelIsExpr | src/Parser/Parser.ts:189-201 | a level's parse is the whole expression's parse when the expression ends after it |
| ParserProperties.SameLevelGroupsLeft | src/Parser/Parser.ts:202-256 | `a op b op c` with both operators of one level groups as `(a op b) op c` |
| ParserProperties.TighterRightGroupsFirst | src/Parser/Parser.ts:202-256 | in `a lo b hi c` the tighter operator groups first, giving `a lo (b hi c)` |
| ParserProperties.TighterLeftGroupsFirst | src/Parser/Parser.ts:202-256 | in `a hi b lo c` the tighter operator groups first, giving `(a hi b) lo c` |
| ParserProperties.ProgramBodyAccumulates | src/Parser/Parser.ts:311-318 | the program loop appends each parsed expression after those parsed before |
| ParserProperties.ProduceAstCons | src/Parser/Parser.ts:311-318 | before EOF, the program is the first expression followed by the program of the tokens that remain, and a parse error stops it |
| ParserProperties.ProduceAstAtEof | src/Parser/Parser.ts:311-318 | at EOF the program is empty |
| ParserProperties.PrimaryOfIdentifier | src/Parser/Parser.ts:289-291 | an identifier token is handed to the identifier parser |
| ParserProperties.UnaryOfPrimary | src/Parser/Parser.ts:268-277 | without a prefix or a postfix operator, the unary parse is the primary parse |
| ParserProperties.IdentifierIsExpr | src/Parser/Parser.ts:189-201 | an identifier expression that ends the expression is the whole expression |
| ParserProperties.NameNode | src/Parser/Parser.ts:172-178 | a non-keyword name that is not a call gives an identifier node, and it also consumes a `;` that follows it |
| ParserProperties.DeclarationDispatch | src/Parser/Parser.ts:70-73 | `var` and `const` are recognised by the identifier's text |
| ParserProperties.ConstWithoutValueFails | src/Parser/Parser.ts:81-86 | `const x;` fails with "const variables must be initialized" |
| ParserProperties.VarWithoutValue | src/Parser/Parser.ts:87-92 | `var x;` declares x with an empty statement as its value, not constant |
| ParserProperties.DeclarationNeedsSemicolon | src/Parser/Parser.ts:76-80 | `var x = e` or `const x = e` needs a `;` after the value, and records whether it was `const` |
| ParserProperties.PlainName | src/Parser/Parser.ts:178 | a non-keyword name followed by no operator is an identifier node at every binary level |
| ParserProperties.NameTakesSemicolon | src/Parser/Parser.ts:172-176 | `x;` is an identifier expression that consumes the `;` |
| ParserProperties.AssignmentChainRejected | src/Parser/Parser.ts:192-201 | `a = b = …` fails with "Unexpected token" |
| ParserProperties.AssignedNameTakesSemicolon | src/Parser/Parser.ts:192-201 | `x = y;` fails with "Unexpected token", because the name `y` consumes the `;` the assignment needs |
| ParserProperties.ReturnDispatch | src/Parser/Parser.ts:158-163 | `return e` needs a `;` after its value and gives a return node |
| ParserProperties.ReturnedNameTakesSemicolon | src/Parser/Parser.ts:158-163 | `return x;` fails with "Unexpected token", because the name consumes the `;` |
| ParserProperties.CallDispatch | src/Parser/Parser.ts:141-156 | a name followed by `(` is a call unless it is one of the keywords checked before it |
| ParserProperties.ReturnWithParenIsCall | src/Parser/Parser.ts:141-163 | `return()` parses as a call of a function named `return`, because the call check comes before the return check |
| ParserProperties.LiteralIsExpr | src/Parser/Parser.ts:283-285 | a number literal that ends the expression is the whole expression |
| ParserProperties.CallOf | src/Parser/Parser.ts:141-156 | a call node holds the name and the arguments collected up to `)` |
| ParserProperties.CallArguments | src/Parser/Parser.ts:141-156 | `f(a, b)` gives a call node with the two arguments in order |
| ParserProperties.ArgsStep | src/Parser/Parser.ts:145-150 | each argument is appended, and a comma after it is skipped |
| ParserProperties.TwoArgs | src/Parser/Parser.ts:145-150 | two comma-separated arguments followed by `)` are collected in order |
| ParserProperties.TwoLiteralArgs | src/Parser/Parser.ts:145-150 | `a, b)` collects the two literal arguments and stops at `)` |
| ParserProperties.ParenthesesLeaveNoNode | src/Parser/Parser.ts:293-298 | a parenthesised expression gives the inner node with no wrapper |
| ParserProperties.BlockOpensWithBrace | src/Parser/Parser.ts:180-188 | a block parses only from a `{` |
| ParserProperties.PrefixNests | src/Parser/Parser.ts:259-266 | a prefix `!` or `-` wraps whatever unary expression follows, so prefixes nest |
| ParserProperties.PostfixOnlyOnce | src/Parser/Parser.ts:268-275 | after a primary, one postfix `++`/`--` is taken and a second is left unread |
| ParserProperties.DoublePostfixFails | src/Parser/Parser.ts:268-310 | a program with two postfix operators in a row fails with "Unexpected token" |
| ParserProperties.PostfixStartFails | src/Parser/Parser.ts:279-310 | a program that starts with `++` or `--` fails with "Unexpected token" |
| Values.PayloadOf | src/Interpreter/Value.ts:8-88 | numbers, strings and booleans hold their text, null, functions and natives hold `null`, arrays hold their elements, and a VariableValue holds the wrapped runtime-value object |
| Values.TypeName | src/Environment/STD.ts:164 | the name of a kind is non-empty and lower-case |
| Values.JsString | src/Environment/STD.ts:104-111 | `String(payload)`: text as it is, `null` as "null", objects as `[object Object]`; it never fails |
| Values.Truthy | src/Interpreter/Interpreter.ts:359-374 | JavaScript truthiness: only the empty text and `null` are falsy |
| Values.Arith | src/Interpreter/Interpreter.ts:62-70 | `(parseFloat(a) op parseFloat(b)).toString()`: exact on safe integers when the result is safe, the host's otherwise; `ArithOnIntegers` states the exact case |
| Values.ObjectList | src/Interpreter/Interpreter.ts:56 | the printed form of an array of runtime values is empty exactly for the empty array |
| Values.ToStringCall | src/Interpreter/Interpreter.ts:56 | `.toString()` of a payload fails exactly on `null`, and otherwise gives the payload's printed form |
| Values.BoolText | src/Interpreter/Interpreter.ts:76 | the text of a truth value is "true" exactly when it holds |
| Values.ArithOnIntegers | src/Interpreter/Interpreter.ts:66 | `+`, `-` and `*` on safe integer text give the exact integer result whenever that result is safe |
| Values.NegateTwice | src/Interpreter/Interpreter.ts:526 | negating safe integer text gives the text of the negated integer, and negating twice gives back the original text |
| Operators.Clamp | src/Interpreter/Interpreter.ts:116 | JavaScript's `slice` index: a negative index counts from the end, and the result always lies within the string |
| Operators.Slice | src/Interpreter/Interpreter.ts:116 | `slice` never gives more characters than the string has |
| Operators.Find | src/Interpreter/Interpreter.ts:105 | gives the position of the first occurrence of the pattern, or nothing when it does not occur |
| Operators.ReplaceFirst | src/Interpreter/Interpreter.ts:100-108 | `replace(p, "")` leaves a text without `p` unchanged, and otherwise removes exactly `|p|` characters |
| Operators.Repeat | src/Interpreter/Interpreter.ts:190-199 | the text repeated n times; `RepeatLength` and `RepeatAdds` state its properties |
| Operators.Split | src/Interpreter/Interpreter.ts:274-282 | `split("")` gives one piece per character, and a non-empty separator gives at least one piece |
| Operators.SplitFrom | src/Interpreter/Interpreter.ts:278 | `split` always gives at least one piece |
| Operators.NonEmpty | src/Interpreter/Interpreter.ts:279 | the filter keeps only non-empty pieces, and no more pieces than it was given |
| Operators.StringValues | src/Interpreter/Interpreter.ts:280-283 | each piece becomes a string value with that text, in order |
| Operators.Pairs | src/Interpreter/Interpreter.ts:254-268 | gives exactly `count` string values, where element i is the slice [2i, 2i+2) of the string |
| Operators.AddValues | src/Interpreter/Interpreter.ts:48-85 | `+` fails exactly when a string operand meets a null payload, and gives a string whenever one operand is a string |
| Operators.SubtractValues | src/Interpreter/Interpreter.ts:86-177 | `-` never fails, and a string result is never longer than the string operand it came from |
| Operators.MultiplyValues | src/Interpreter/Interpreter.ts:178-234 | `*` fails only with "Invalid array length", and only for a string times a number |
| Operators.DivideValues | src/Interpreter/Interpreter.ts:235-289 | `/` fails only with "Zero division is not allowed" for two numbers or "Invalid array length" for a string and a number; a string divided by a string or a number gives an array |
| Operators.Equal | src/Interpreter/Interpreter.ts:311-318 | two equal values have the same payload, which is neither an array nor an object |
| Operators.LogicalValue | src/Interpreter/Interpreter.ts:359-374 | `&&` and `\|\|` give a boolean holding the printed payload of one of the operands, and fail only when a payload is `null` |
| Operators.BinaryOp | src/Interpreter/Interpreter.ts:290-392 | equality and comparison operators always give a boolean; only `+ * / && \|\|` can throw, and any other failure is "Unimplemented binary operator" |
| Operators.NotValue | src/Interpreter/Interpreter.ts:445-459 | the `!` table; `NotTable` and `NotOfNonZero` state it |
| Operators.Decremented | src/Interpreter/Interpreter.ts:461-495 | `--` rebinds exactly booleans, numbers and strings, keeping their kind, and drops one character of a non-empty string |
| Operators.Incremented | src/Interpreter/Interpreter.ts:503-513 | `++` always rebinds to a number |
| Operators.NegateValue | src/Interpreter/Interpreter.ts:521-528 | unary `-` always gives a number |
| OperatorProperties.ReplaceFirstRemoves | src/Interpreter/Interpreter.ts:105 | `replace` removes exactly the first occurrence of the pattern, and leaves the text alone when the pattern does not occur |
| OperatorProperties.RepeatLength | src/Interpreter/Interpreter.ts:195-198 | repeating a string n times gives n times its length |
| OperatorProperties.RepeatAdds | src/Interpreter/Interpreter.ts:195-198 | repeating n + m times is repeating n times followed by repeating m times |
| OperatorProperties.SplitFromJoins | src/Interpreter/Interpreter.ts:278 | joining the split pieces with the separator gives back the text |
| OperatorProperties.SplitJoins | src/Interpreter/Interpreter.ts:278 | `split` followed by `join` with the same non-empty separator is the identity |
| OperatorProperties.AddConcatenates | src/Interpreter/Interpreter.ts:52-60 | with a string on either side, `+` concatenates both payloads as text, and fails when either payload is `null` |
| OperatorProperties.AddIntegers | src/Interpreter/Interpreter.ts:62-70 | two safe integers add exactly |
| OperatorProperties.AddBooleansIsOr | src/Interpreter/Interpreter.ts:72-80 | two booleans give their OR |
| OperatorProperties.AddOtherwiseNull | src/Interpreter/Interpreter.ts:82-83 | `+` gives Null exactly for the pairs with no string, not two numbers and not two booleans |
| OperatorProperties.SubtractIntegers | src/Interpreter/Interpreter.ts:90-97 | two safe integers subtract exactly |
| OperatorProperties.SubtractRemovesFirst | src/Interpreter/Interpreter.ts:98-108 | string − string removes the first occurrence of the right text |
| OperatorProperties.SubtractDropsLast | src/Interpreter/Interpreter.ts:109-119 | string − n drops the last n characters, so `s - 0` is empty |
| OperatorProperties.SubtractNegativeKeepsPrefix | src/Interpreter/Interpreter.ts:109-119 | string − (−n) keeps the first n characters |
| OperatorProperties.SubtractFromIndex | src/Interpreter/Interpreter.ts:120-133 | i − string gives the string from index i |
| OperatorProperties.BooleanMinusBoolean | src/Interpreter/Interpreter.ts:134-144 | boolean − boolean is always "false" |
| OperatorProperties.SubtractOtherwiseNull | src/Interpreter/Interpreter.ts:175 | `-` with a value other than a number, string or boolean on either side gives Null |
| OperatorProperties.MultiplyIntegers | src/Interpreter/Interpreter.ts:182-190 | two safe integers multiply exactly |
| OperatorProperties.MultiplyRepeats | src/Interpreter/Interpreter.ts:191-202 | string × n repeats the string n times |
| OperatorProperties.MultiplyNegativeFails | src/Interpreter/Interpreter.ts:195 | string × a negative number fails with "Invalid array length" |
| OperatorProperties.MultiplyByBoolean | src/Interpreter/Interpreter.ts:203-230 | string × boolean keeps the string or gives "", number × boolean keeps the number or gives "0", and boolean × boolean is AND |
| OperatorProperties.DivideByZero | src/Interpreter/Interpreter.ts:239-242 | number / number fails with "Zero division is not allowed" exactly when the divisor is zero |
| OperatorProperties.DivideIntegers | src/Interpreter/Interpreter.ts:243-249 | an exact division of safe integers gives the integer quotient |
| OperatorProperties.DivideSplits | src/Interpreter/Interpreter.ts:274-285 | string / string splits the left on the right and keeps only the non-empty pieces, as string values |
| OperatorProperties.PairCountIsCeiling | src/Interpreter/Interpreter.ts:255 | the number of elements is ceil(len / n) |
| OperatorProperties.DividePairs | src/Interpreter/Interpreter.ts:252-271 | string / n gives ceil(len / n) elements, where element i is the slice [2i, 2i+2) |
| OperatorProperties.DivideStringByZeroFails | src/Interpreter/Interpreter.ts:254-256 | string / 0 fails with "Invalid array length" |
| OperatorProperties.NotEqualIsOpposite | src/Interpreter/Interpreter.ts:311-326 | `==` and `!=` never fail, and `!=` is "true" exactly when `==` is not |
| OperatorProperties.EqualNeedsSameKind | src/Interpreter/Interpreter.ts:311-318 | a number never equals a string with the same text, and equal strings are equal |
| OperatorProperties.FunctionsCompareEqual | src/Interpreter/Interpreter.ts:315 | any two functions compare equal, because both payloads are `null` |
| OperatorProperties.EqualSymmetric | src/Interpreter/Interpreter.ts:315 | `==` is symmetric |
| OperatorProperties.AndHandsOverOnNonEmpty | src/Interpreter/Interpreter.ts:359-366 | `&&` with a non-empty left text gives the right payload's text, so `false && true` is "true" |
| OperatorProperties.OrKeepsNonEmpty | src/Interpreter/Interpreter.ts:367-374 | `\|\|` with a non-empty left text gives the left text |
| OperatorProperties.LogicalOnNullFails | src/Interpreter/Interpreter.ts:359-374 | `&&`/`\|\|` fail when the payload they pick is `null` |
| OperatorProperties.UnknownBinaryOperator | src/Interpreter/Interpreter.ts:386-389 | any other operator fails with "Unimplemented binary operator" followed by the operator |
| OperatorProperties.CompareIntegers | src/Interpreter/Interpreter.ts:335-350 | `<` and `>=` compare safe integers exactly |
| OperatorProperties.NotTable | src/Interpreter/Interpreter.ts:445-459 | `!` is "true" for boolean "false", null, number 0 and the empty string, and "false" for boolean "true", non-empty strings, arrays, functions, natives and VariableValues |
| OperatorProperties.NotOfNonZero | src/Interpreter/Interpreter.ts:452-454 | `!` of a non-zero integer is "false" |
| OperatorProperties.DecrementTable | src/Interpreter/Interpreter.ts:461-495 | `--` makes a boolean "false", drops a string's last character, and leaves every kind other than number, string and boolean alone |
| OperatorProperties.DecrementInteger | src/Interpreter/Interpreter.ts:470-480 | `--` of a safe integer n gives n − 1 |
| OperatorProperties.IncrementInteger | src/Interpreter/Interpreter.ts:503-513 | `++` of a safe integer n gives n + 1, and `++` of any value gives a number |
| OperatorProperties.NegateInteger | src/Interpreter/Interpreter.ts:522-529 | unary `-` negates a safe integer exactly, and applying it twice gives back the same number |
| Environments.Binder | src/Environment/Environment.ts:35-44 | the scope that answers for a name is the nearest one, from the current scope outwards, whose variables bind it; the current scope answers for its own names |
| Environments.Lookup | src/Environment/Environment.ts:35-46 | `get` fails only with "Undefined variable" and the name |
| Environments.Bind | src/Environment/Environment.ts:69-89 | a definition changes only the scope it is made in, keeps the arena valid, and adds no scope |
| Environments.Rebind | src/Environment/Environment.ts:48-67 | an assignment keeps the arena valid and adds no scope or parent link |
| Environments.Unbind | src/Environment/Environment.ts:20-33 | a deletion changes only the scope it is made in and keeps the arena valid |
| Environments.Cleared | src/Environment/Environment.ts:91-95 | `destroy` changes only the scope it empties and keeps the arena valid |
| Environments.Extend | src/Environment/Environment.ts:9-18 | a new scope is added at the end of the arena and no existing scope changes |
| Environments.Scopes.NewScope | src/Environment/Environment.ts:9-18 | `new Environment(parent)` adds an empty scope under the parent, at the next free index |
| Environments.Scopes.Define | src/Environment/Environment.ts:69-89 | result and new arena are those of `Bind`, and a failed definition changes nothing |
| Environments.Scopes.Get | src/Environment/Environment.ts:35-46 | the result is `Lookup` of the name from that scope |
| Environments.Scopes.Set | src/Environment/Environment.ts:48-67 | result and new arena are those of `Rebind`, and a failed assignment changes nothing |
| Environments.Scopes.Delete | src/Environment/Environment.ts:20-33 | result and new arena are those of `Unbind`, and a failed deletion changes nothing |
| Environments.Scopes.Destroy | src/Environment/Environment.ts:91-95 | the new arena is `Cleared` at that scope |
| EnvironmentProperties.LookupNearest | src/Environment/Environment.ts:35-46 | `get` gives the value stored in the nearest scope that binds the name (its function entry when it has one), and "Undefined variable" past the root |
| EnvironmentProperties.LookupReadsBelow | src/Environment/Environment.ts:35-46 | `get` reads only the scope it starts from and its ancestors |
| EnvironmentProperties.BindRedefines | src/Environment/Environment.ts:75-79 | `define` fails exactly when this same scope already binds the name, with "Cannot redefine", whatever the ancestors bind |
| EnvironmentProperties.BindThenLookup | src/Environment/Environment.ts:80-88 | after `define`, `get` from that scope gives the value, `define` returns it, and every other scope is unchanged |
| EnvironmentProperties.BindMarks | src/Environment/Environment.ts:80-88 | `define` marks the name as a function exactly when asked to, and as a constant exactly when asked to and not as a function |
| EnvironmentProperties.RebindNearest | src/Environment/Environment.ts:48-67 | `set` overwrites only in the nearest scope that binds the name, fails with "Cannot reassign" there when the name is constant or function, and returns a VariableValue of the name and value |
| EnvironmentProperties.RebindNeverCreates | src/Environment/Environment.ts:53-66 | a successful `set` adds and removes no name in any scope, and `get` then gives the new value |
| EnvironmentProperties.BinderStable | src/Environment/Environment.ts:35-44 | which scope answers for a name depends only on the names bound and the parent links |
| EnvironmentProperties.RebindUnbound | src/Environment/Environment.ts:62-66 | `set` of a name bound nowhere fails with "Undefined variable" |
| EnvironmentProperties.UnbindRemoves | src/Environment/Environment.ts:20-33 | a successful `delete` removes the name from this scope's variables, returns the value `get` gave, and leaves every other scope alone |
| EnvironmentProperties.UnbindAncestorOnly | src/Environment/Environment.ts:21-32 | `delete` of a name bound only in an ancestor returns its value and changes nothing |
| EnvironmentProperties.UnbindErrors | src/Environment/Environment.ts:20-28 | `delete` fails for an undefined name, for a name marked function here, and for a name marked constant here |
| EnvironmentProperties.ClearedForgets | src/Environment/Environment.ts:91-95 | `destroy` empties this scope's three maps, keeps its parent and changes no other scope, so `get` from it reads from the parent |
| EnvironmentProperties.ExtendInherits | src/Environment/Environment.ts:35-46 | a new child scope sees exactly its parent's bindings, and lookups from existing scopes are unchanged |
| Std.NumberBuiltin | src/Environment/STD.ts:94-103 | `number` fails exactly when given no argument, and otherwise gives a number |
| Std.StringBuiltin | src/Environment/STD.ts:104-111 | `string` fails exactly when given no argument, and otherwise gives a string |
| Std.BooleanBuiltin | src/Environment/STD.ts:112-130 | `boolean` fails exactly when given no argument, and otherwise gives "true" or "false" tagged as a string |
| Std.LengthBuiltin | src/Environment/STD.ts:131-157 | `length` fails exactly when given no argument, and otherwise gives canonical natural-number text |
| Std.TypeBuiltin | src/Environment/STD.ts:158-169 | `type` fails exactly when given no argument, and otherwise gives the lower-cased kind tag of its first argument as a string |
| Std.CallNative | src/Interpreter/Value.ts:74-82 | a native call fails exactly when one of the five pure built-ins gets no argument; `print` and `clear` give null |
| Std.RandBuiltin | src/Environment/STD.ts:33-62 | `rand` gives a number when the first argument's payload is "number", a boolean when it is "boolean", and a string otherwise |
| Std.RootFrame | src/Environment/STD.ts:17-184 | the root scope binds every native value under its own name, with no constants, no function marks and no parent |
| Std.DefinePlain | src/Environment/Environment.ts:69-89 | a plain `define` of a new name adds it to the scope's variables only |
| Std.DefineVariables | src/Environment/STD.ts:17-30 | the root binds `PI`, `E` and `version` as plain names |
| Std.DefineFunctions | src/Environment/STD.ts:32-184 | the root then binds every built-in as a plain name holding its native function |
| Std.NewRoot | src/Environment/Environment.ts:9-14 | a scope without a parent is added with the root bindings |
| StdProperties.BuiltinsNeedAnArgument | src/Environment/STD.ts:97 | `number`, `string`, `boolean`, `length` and `type` each fail with "Expected one argument" when given no argument |
| StdProperties.LengthTable | src/Environment/STD.ts:131-157 | `length` gives a string's or a number's text length, 1 for a boolean, 0 for null, a function's parameter count, an array's element count, and 0 otherwise |
| StdProperties.BooleanTable | src/Environment/STD.ts:112-130 | `boolean` keeps a boolean's truth, is "true" for a non-empty string and a non-zero number, and "false" for other kinds |
| StdProperties.TypeTable | src/Environment/STD.ts:158-169 | `type` reports "number", "string", "boolean", "null", "function", "native_function", "variable" and "array" for those kinds |
| StdProperties.StringOfText | src/Environment/STD.ts:104-111 | `string` gives the stored text of a number, string or boolean, and "null" for null and functions |
| StdProperties.NumberOfInteger | src/Environment/STD.ts:94-103 | `number` keeps integer text, reads a string of integer text as that number, and gives 0 for null |
| StdProperties.HostBuiltins | src/Environment/STD.ts:33-92 | the I/O built-ins never fail: `print` and `clear` give null, `timestamp` a number and `input` a string holding the host's text, and `rand` a value whose kind its first argument names |
| StdProperties.RootNamesArePlain | src/Environment/STD.ts:17-35 | root names are neither constant nor function, so programs may reassign or delete them, but may not redefine them in the root |
| StdProperties.RootNamesShadowable | src/Environment/Environment.ts:69-79 | any name may be defined in a child of the root, shadowing a root binding |
| StdProperties.RootLookup | src/Environment/Environment.ts:35-46 | the root answers `length` with its native function and `PI` with its number, and an unknown name fails with "Undefined variable" |
| Evaluation.NameOf | src/Interpreter/Interpreter.ts:395-397 | exactly the node kinds with a `name` field have a name to assign to |
| Evaluation.Assign | src/Interpreter/Interpreter.ts:393-398 | an assignment changes only the current scope's chain, keeps the arena valid and adds no scope |
| Evaluation.UnaryStep | src/Interpreter/Interpreter.ts:497-533 | `--`, `++`, `!` and unary `-` keep the arena valid and add no scope |
| Evaluation.Eval | src/Interpreter/Interpreter.ts:588-670 | evaluating a node keeps the arena valid; existing scopes keep their parents, and no existing scope except the current one gains a name |
| Evaluation.EvalIf | src/Interpreter/Interpreter.ts:535-546 | an `if` keeps the arena valid, and no existing scope except the current one gains a name |
| Evaluation.EvalCall | src/Interpreter/Interpreter.ts:437-443 | a call keeps the arena valid, and no existing scope except the current one gains a name |
| Evaluation.EvalEach | src/Interpreter/Interpreter.ts:439-441 | gives one value per node, in order, and keeps the same scope discipline as `Eval` |
| Evaluation.WhileLoop | src/Interpreter/Interpreter.ts:563-566 | the loop keeps the arena valid, and only the loop's own scope gains names |
| Evaluation.ForLoop | src/Interpreter/Interpreter.ts:575-578 | the loop keeps the arena valid, and only the loop's own scope gains names |
| Evaluation.CallFunction | src/Interpreter/Value.ts:52-71 | a call adds at least one new scope, and no existing scope gains a name, the closure scope included |
| Evaluation.BindParams | src/Interpreter/Value.ts:54-61 | binding the parameters adds no scope, and only the call's own scope gains names |
| Evaluation.RunBody | src/Interpreter/Value.ts:62-70 | running the body keeps the arena valid, and only the call's own scope gains names |
| Evaluation.RunProgram | src/Interpreter/Interpreter.ts:672-679 | a run gives one value per top-level statement and keeps the root scope |
| Interpreting.Interpreter.constructor | src/Interpreter/Interpreter.ts:39-44 | a new interpreter owns a fresh arena holding only the root scope with the built-in bindings |
| Interpreting.Interpreter.Start | src/Interpreter/Interpreter.ts:672-679 | the statements run in order in the root scope; the values and the final arena are those of `EvalEach` |
| Interpreting.Interpreter.Interpret | src/Interpreter/Interpreter.ts:588-670 | the value, or the error, and the new arena are those of `Eval` |
| Interpreting.Interpreter.InterpretEach | src/Interpreter/Interpreter.ts:439-441 | the values and the new arena are those of `EvalEach` |
| Interpreting.Interpreter.VariableDeclaration | src/Interpreter/Interpreter.ts:400-407 | agrees with `Eval`: the initializer, then `define` with the const flag |
| Interpreting.Interpreter.AssignTo | src/Interpreter/Interpreter.ts:395-397 | agrees with `Assign`: `set` of the target's name |
| Interpreting.Interpreter.AssignmentExpr | src/Interpreter/Interpreter.ts:393-398 | agrees with `Eval`: the right side, then `set` |
| Interpreting.Interpreter.Decrement | src/Interpreter/Interpreter.ts:461-495 | agrees with `UnaryStep` for `--` |
| Interpreting.Interpreter.UnaryExpr | src/Interpreter/Interpreter.ts:497-533 | agrees with `Eval` on unary nodes |
| Interpreting.Interpreter.BinaryExpr | src/Interpreter/Interpreter.ts:290-391 | agrees with `Eval`: left, then right, then the operator table |
| Interpreting.Interpreter.IfStatement | src/Interpreter/Interpreter.ts:535-546 | agrees with `Eval`: the condition, a child scope, and at most one branch run in it |
| Interpreting.Interpreter.BlockStatement | src/Interpreter/Interpreter.ts:548-557 | agrees with `Eval`: the statements in a child scope, which is then destroyed |
| Interpreting.Interpreter.WhileStatement | src/Interpreter/Interpreter.ts:559-568 | agrees with `Eval`: the loop runs in its own scope, destroyed after each pass of the body |
| Interpreting.Interpreter.ForStatement | src/Interpreter/Interpreter.ts:570-582 | agrees with `Eval`: init, then condition, body and update in the loop's own scope, destroyed after the loop |
| Interpreting.Interpreter.FunctionCallExpr | src/Interpreter/Interpreter.ts:437-443 | agrees with `Eval`: look up the callee, evaluate the arguments, then call a function or a native, and fail for any other value |
| Interpreting.Interpreter.Call | src/Interpreter/Value.ts:52-71 | agrees with `CallFunction`: parameters bound by position in a child of the closure, then the body up to the first top-level return |
| EvaluationProperties.LiteralsKeepText | src/Interpreter/Value.ts:12-40 | number, string and boolean literals hold the token's text under their own kind, null holds `null`, and none of them changes the arena |
| EvaluationProperties.StatementsGiveNull | src/Interpreter/Interpreter.ts:535-582 | `if`, blocks, `while`, `for` and the empty statement give Null |
| EvaluationProperties.UnboundStaysUnbound | src/Interpreter/Interpreter.ts:548-557 | a name unbound in a scope stays unbound there when only a newer scope gains names |
| EvaluationProperties.BlockScopeEmptied | src/Interpreter/Interpreter.ts:548-557 | after a block, its child scope is empty again and only that scope gained names |
| EvaluationProperties.BlockDeclarationsDoNotOutlive | src/Interpreter/Interpreter.ts:548-557 | a name unbound before a block is still unbound after it, whatever the block declared |
| EvaluationProperties.ForScopeEmptied | src/Interpreter/Interpreter.ts:570-582 | after a `for`, the loop's scope is empty again, so its init binding is gone |
| EvaluationProperties.IfTakesOneBranch | src/Interpreter/Interpreter.ts:540-544 | when the condition's text is "true" the else branch does not matter, and otherwise the then branch does not matter |
| EvaluationProperties.IfWithoutElseSkips | src/Interpreter/Interpreter.ts:540-545 | with a false condition and no else, `if` only adds its unused child scope and gives Null |
| EvaluationProperties.WhileChecksFirst | src/Interpreter/Interpreter.ts:563 | when the condition is not "true" at the start, the body never runs |
| EvaluationProperties.BindParamsByPosition | src/Interpreter/Value.ts:54-61 | each parameter is bound to the argument at its position, or to Null when arguments run out, as a plain name; nothing else changes |
| EvaluationProperties.CallBindsParameters | src/Interpreter/Value.ts:53-61 | a call's scope is a new child of the closure that sees each parameter bound to its argument or Null, and the closure gains no parameter names |
| EvaluationProperties.BindParamsStopsAtDuplicate | src/Interpreter/Value.ts:54-61 | binding fails with "Cannot redefine" at the first parameter whose name is already bound |
| EvaluationProperties.DuplicateParameterFails | src/Interpreter/Value.ts:54-60 | a repeated parameter name makes every call fail with "Cannot redefine" |
| EvaluationProperties.ReturnEndsBody | src/Interpreter/Value.ts:63-67 | statements after the first top-level return never run |
| EvaluationProperties.ReturnGivesValue | src/Interpreter/Value.ts:64-66 | a body that starts with `return e` gives the value of e |
| EvaluationProperties.NoReturnGivesNull | src/Interpreter/Value.ts:63-70 | a body with no top-level return gives Null, whatever its statements evaluated to |
| EvaluationProperties.NativeCallPassesArguments | src/Interpreter/Value.ts:79-81 | a native call passes the evaluated arguments to the built-in and returns its result, or fails with its message |
| EvaluationProperties.CallingAValueFails | src/Interpreter/Interpreter.ts:437-443 | calling a name bound to neither a function nor a native fails |
| EvaluationProperties.AssignmentReturnsVariable | src/Interpreter/Value.ts:84-88 | an assignment returns a VariableValue of the name and the value, with kind VARIABLE and the wrapped object as its payload, and the name then reads back as the value |
| EvaluationProperties.AssignmentNeedsAName | src/Interpreter/Interpreter.ts:395-397 | assigning to a node without a name fails |
| EvaluationProperties.IncrementRebindsNumber | src/Interpreter/Interpreter.ts:503-513 | `++x` rebinds x to a number, whatever its kind, and returns the VariableValue |
| EvaluationProperties.DecrementRebinds | src/Interpreter/Interpreter.ts:461-495 | `--x` rebinds x for booleans, numbers and strings, and otherwise gives Null and changes nothing |
| EvaluationProperties.UnknownUnaryFails | src/Interpreter/Interpreter.ts:530-531 | any other unary operator fails with "Unimplemented unary operator" followed by the operator |

A note on `VariableValue` (src/Interpreter/Value.ts:84-88): the class declares `value`
as a constructor parameter property. TypeScript assigns such a property after the
`super` call, so it overwrites the payload that `super` stored. The value an assignment
returns therefore has the whole wrapped runtime value as its payload, not a copy of that
value's payload. The model follows the code. Such a value prints as `[object Object]`, is
truthy, and is never `"true"` as an `if` or loop condition. Under `==` it is an object
distinct from every other value.

## Left out

- The command-line and browser front ends (`index.ts`, `browser.ts`) and the console output of `start`: I/O outside the core. `Start` returns the values it would print.
- Floating point: `parseFloat`, the IEEE-754 arithmetic behind `+ - * / % **`, ordered comparison of non-integer text, and `toString` of doubles are functions of the `Host` parameter in the interpreter. Only canonical safe integers get an exact meaning, and `%` and `**` are always the host's.
- Lexing.Lexer.ParseNumberLiteral: the lexer writes a literal back itself only when it is short (`ShortLiteral`): a safe integer, or a fraction of at most 15 significant digits that is not below 10^-6. For those literals the double prints back as the literal's canonical text. Every other literal (`9007199254740993`, `1000000000000000000000`, `0.0000001`, `0.1234567890123456789`) is rounded to a double and printed by JavaScript, which the model takes as the `NumberFormat` parameter `fmt` and does not compute.
- Text is a sequence of Unicode characters (Dafny's `char`), where JavaScript strings are sequences of UTF-16 code units. Outside the Basic Multilingual Plane the results differ: `length("😀")` is 2 in the source and 1 here, and `slice`, `split("")`, the lexer's character array and the "Invalid character" message can split a surrogate pair in the source but not here. Within the Basic Multilingual Plane the two agree.
- The I/O built-ins `rand`, `print`, `clear`, `timestamp` and `input` (src/Environment/STD.ts) read or write the console, the clock or a random source. The console output of `print` and `clear` is not modelled. The text that `rand`, `timestamp` and `input` read is `host.native(name, args)`, and the model builds the value around it.
- `PI` and `E` are bound to the texts JavaScript prints for `Math.PI` and `Math.E`, taken as constants.
- Array nodes and the array literal and array access handlers of the interpreter (src/Interpreter/Interpreter.ts:409-420): the parser never builds these nodes, so no program reaches them.
- Object identity: `==` on two arrays or two `VariableValue` objects compares references in the source. The model has no references and treats two such values as distinct, which differs from the source only when the same object reaches both operands.
- Evaluation.Eval: `while`, `for` and calls of user functions consume `fuel` and fail with `OutOfFuel` when it runs out, where the source runs without bound or exhausts the host stack. No lemma states that a result reached with some fuel is the same with more fuel.
- Interpreting.Interpreter.Interpret: on an error the methods promise only the message, not the scopes left behind by the partial run, because the source abandons the run when it throws.
- Evaluation.CallFunction: a function value whose closure scope is not in the arena fails with `UnknownScope`. Every function value the walk builds names an existing scope, so this case only guards host results.
- The parser's `console.error` diagnostics: only the thrown message is modelled.
- `ValueType.ts`, `TokenType.ts` and `ExprType.ts` are not part of this model. Kind names are taken as the lower-case enum member names, and keyword texts as the lexer's keyword list.
- The earlier pipeline and the draft `Value`/`STD` files elsewhere in the repository are not part of the live pipeline and are not modelled.
- Expression-statement, member and call nodes, and the closing `Unimplemented interpreter` error of `interpret`: the live parser builds none of these nodes, and the closed AST datatype has no other kind.
- Parsing.Parser.ParseExpr: this method and the other parse methods require the token list to end in an EOF token, as the lexer always produces. On a list without one, the source would read past the end and fail with a host `TypeError`, which the model does not represent.
- Operators.Repeat: a repeat count of 2^32 or more fails with "Invalid array length", the JavaScript array bound. The host's separate limit on string length is not modelled.
