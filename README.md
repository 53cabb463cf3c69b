# Droplet front end, modelled in Dafny

This project models the front half of the Droplet toy-language compiler, all of
it in `droplet.cpp`:

- the lexer `gettok`, with its one character of lookahead in the static
  `lastChar` and the globals `IdStr` and `numVal` it writes;
- the parser pieces that keep one token of lookahead in `curTok`:
  `getNextToken`, `ParseNumberExpr`, `ParseParenExpr`,
  `ParseIdentifierExpr` with its argument loop, and `ParsePrimary`;
- `GetTokPrecedence` over the table `BinopPrecendence` that `main` fills;
- the syntax-tree classes, as datatypes.

The files are:

- `tokens.dfy` (module `Tokens`): the token codes and a `Token` value that
  carries the lexeme the lexer left in `IdStr` or `numVal`.
- `syntax.dfy` (module `Syntax`): the tree of lines 78-126, one datatype
  per class hierarchy. `Expr` has a constructor for each subclass of
  `ExprAST` (lines 78-81): number (lines 83-87), variable (lines 89-93),
  binary operator (lines 95-101) and call (lines 103-108). `Prototype` holds
  a name and its parameter names (lines 110-118), and `Function` holds a
  prototype and a body (lines 120-126). The datatypes carry no contracts, so they have no rows
  in the table below.
- `lexer.dfy` (module `Lexing`): a specification function `Lex` of one call of
  `gettok` on the remaining input, and the class `Lexer`, whose methods keep
  the lexer's state in fields and are proved to follow `Lex`.
- `parser.dfy` (module `Parsing`): specification functions over the token
  sequence, and the class `Parser`, whose methods move `curTok` along that
  sequence, collect arguments in a loop, update the precedence map, and are
  proved to follow those functions.

The input is a finite string. Once it is used up, `getchar` returns `EOF`
for ever. Paths that reach the end of a non-void C function without a
`return` are undefined behaviour. The model does not invent a result for
them: they are an explicit `FellOff` / `FellOffEnd` / `Undefined` outcome.

`ParseExpression` is declared on line 149 but never defined. Every parser
that calls it therefore takes it as a parameter `pe`. For a token sequence
that starts at the current token, `pe` gives an outcome and the number of
tokens consumed. The call and parenthesis properties are stated relative to
`pe`.

Where the code behaves differently from the usual Kaleidoscope-style front
end, the model follows the code:

- `isspace` also accepts vertical tab, form feed and carriage return.
- `gettok` never returns an operator or punctuation character. Any other
  character makes it run off its end (line 75). Lines 71-73 cannot be reached,
  because the only way there is with `lastChar == EOF`, which line 67 already
  returns on. A consequence is that a parser fed by this lexer never sees `(`,
  `)` or `,`, so it never builds a call (`Parsing.NoCallFromLexer`).
- `tok_eof` is returned only when a comment runs to the end of the input.
  At the end of the input outside a comment, `gettok` runs off its end
  (`Lexing.FallsOffAtEndOrOther`).
- `ParseParenExpr` has no successful return:
  - when the inner expression fails, it fails;
  - when the inner expression is not followed by `)`, it fails with
    "expected ')'";
  - when it is followed by `)`, control runs off the end (line 161).
- A call `f()` and a call with arguments both consume their closing `)` with
  one more `getNextToken`. A token must follow the `)`, or that call of
  `gettok` is itself undefined.

## Model

| member | source | states |
|---|---|---|
| `Tokens.Code` | droplet.cpp:10-18 | the integer in `curTok`: negative, one of the five enumerators, exactly for the non-character tokens, and the character's own code for a character token |
| `Tokens.TokenOf` | droplet.cpp:10-18 | the token built from a code `gettok` returns carries exactly that code |
| `Tokens.TokenOfCode` | droplet.cpp:10-18 | every token's code is a valid `gettok` code, and the code together with the globals rebuilds the token, so distinct kinds never share a code |
| `Lexing.Span` | droplet.cpp:26-28 | the length of the longest prefix inside a character class: every character before it is in the class and the character at it is not |
| `Lexing.SpanUnique` | droplet.cpp:31-34 | the maximal run is the only prefix that lies in the class and is not followed by a further character of it |
| `Lexing.KeywordCode` | droplet.cpp:36-42 | an identifier-shaped word gives `tok_def` exactly when it is "droplet", `tok_extern` exactly when it is "extern", and otherwise `tok_identifier`; in every case `IdStr` is written |
| `Lexing.Lex` | droplet.cpp:23-75 | a call that returns a token consumes at least one character and leaves a suffix of its input as lookahead |
| `Lexing.LexToken` | droplet.cpp:30-75 | once blanks are skipped, a returned token consumes at least one character and leaves a suffix as lookahead, so the recursive call after a comment is on shorter input |
| `Lexing.LexSkipsBlanks` | droplet.cpp:26-28 | any prefix of whitespace before a token changes nothing about the call |
| `Lexing.LexemeHasNoBlank` | droplet.cpp:26-55 | the text written into `IdStr` or `numVal` never holds a whitespace character |
| `Lexing.IdentifierToken` | droplet.cpp:30-43 | after blanks, a letter starts the maximal alphanumeric run; it is `tok_def` iff the word is "droplet", `tok_extern` iff it is "extern", `tok_identifier` otherwise; `IdStr` is the run and the first non-alphanumeric character stays as lookahead |
| `Lexing.NumberToken` | droplet.cpp:45-55 | after blanks, a digit or `.` starts the maximal run of digits and dots, which is returned as `tok_number` with that run as its literal; the next character stays as lookahead |
| `Lexing.MultiDotNumber` | droplet.cpp:45-55 | a literal with several dots, "1.2.3", is accepted whole, because the number of dots is not checked |
| `Lexing.CommentSkipped` | droplet.cpp:57-65 | blanks, a `#` comment and its end of line (`\n` or `\r`) before a stream leave the call exactly as on that stream, so comments are transparent |
| `Lexing.CommentAtEnd` | droplet.cpp:57-69 | a comment that runs to the end of the input yields `tok_eof` and leaves nothing to read |
| `Lexing.NoCharacterTokens` | droplet.cpp:23-75 | every code `gettok` returns is one of the five negative enumerators and never a character, so lines 71-73 never run |
| `Lexing.FallsOffAtEndOrOther` | droplet.cpp:23-75 | after blanks, the end of the input or a character that starts no token makes the call run off the end of the function |
| `Lexing.EofIsLast` | droplet.cpp:63-69 | `tok_eof` is only returned with the input used up, and the call after it runs off the end |
| `Lexing.TokenStream` | droplet.cpp:129-132 | the tokens successive calls of `gettok` hand to `getNextToken`, up to the first call that runs off its end; there are at most as many tokens as input characters, since each call consumes at least one |
| `Lexing.StreamHasNoCharacters` | droplet.cpp:23-75 | over the whole sequence of calls, no token is a character and `tok_eof` can only be the last token |
| `Lexing.Lexer.constructor` | droplet.cpp:24 | the lexer starts with `lastChar` a blank in front of the input and empty globals |
| `Lexing.Lexer.NextChar` | droplet.cpp:27 | `getchar` moves one character along the input, and once the input is used up `lastChar` stays `EOF` |
| `Lexing.Lexer.SkipBlanks` | droplet.cpp:26-28 | the loop leaves the input at the end of the maximal blank run, so the rest of the call is `LexToken` on what remains |
| `Lexing.Lexer.ReadWord` | droplet.cpp:31-34 | `IdStr` becomes the maximal alphanumeric run starting at the letter in `lastChar`, and `lastChar` is the first character after it |
| `Lexing.Lexer.ReadNumeral` | droplet.cpp:46-51 | the do-while loop collects the maximal run of digits and dots starting at `lastChar` and stops on the first character outside it |
| `Lexing.Lexer.SkipCommentBody` | droplet.cpp:58-61 | after the `#`, the loop consumes up to the first `\n` or `\r`, or to `EOF` |
| `Lexing.Lexer.GetTok` | droplet.cpp:23-75 | `gettok` returns the code `Lex` gives for the remaining input, leaves the rest `Lex` gives, writes `IdStr` only for word tokens and `numVal` only for numbers, and runs off its end exactly when `Lex` does |
| `Lexing.Lexer.Dispatch` | droplet.cpp:30-75 | the dispatch on the first character that is not a blank does what `LexToken` says |
| `Lexing.Lexer.LexWord` | droplet.cpp:30-43 | the identifier branch returns the keyword or identifier code of the word it reads and leaves that word in `IdStr` |
| `Lexing.Lexer.LexNumeral` | droplet.cpp:45-55 | the number branch returns `tok_number` and leaves the run it reads as the literal |
| `Lexing.Lexer.LexComment` | droplet.cpp:57-74 | the comment branch either restarts `gettok` after the end of line, or returns `tok_eof` at `EOF`, as `LexToken` says |
| `Parsing.Expression` | droplet.cpp:149 | the sub-parser's result, defined only when it leaves a current token in the stream |
| `Parsing.NumberExpr` | droplet.cpp:143-147 | a number token becomes a number leaf holding its literal and exactly one token is consumed; it never fails |
| `Parsing.ParenExpr` | droplet.cpp:150-162 | `ParseParenExpr` never returns a tree, and a failure has consumed at least the token it started on |
| `Parsing.ArgRound` | droplet.cpp:177-189 | one round of the loop ends on `)` after an argument, or consumes an argument and its `,`, or leaves the loop without a tree |
| `Parsing.ArgLoop` | droplet.cpp:176-190 | a loop that succeeds returns more arguments than it started with and stops on the closing `)` |
| `Parsing.ArgList` | droplet.cpp:176-190 | a successful argument list holds at least one argument and ends on a `)` |
| `Parsing.IdentifierExpr` | droplet.cpp:164-195 | a variable holds the identifier's text and consumes one token; a call is on that name, opened by `(` and closed by the `)` it consumes; a failure has consumed at least two tokens |
| `Parsing.Primary` | droplet.cpp:197-208 | a defined result of `ParsePrimary` leaves a current token in the stream |
| `Parsing.TokPrecedence` | droplet.cpp:212-222 | the precedence is -1 or positive; it is positive exactly for an ASCII character with a positive entry, and then equals that entry; every enumerator token gets -1 |
| `Parsing.AfterLookup` | droplet.cpp:217 | a lookup keeps every existing entry, adds at most the looked-up ASCII character, with 0, and after it that character is always in the table |
| `Parsing.WithDefaults` | droplet.cpp:225-230 | `<` and `>` map to 10, `+` and `-` to 20, `*` and `/` to 40; every other entry of the table is kept and nothing else is added |
| `Parsing.Parser.constructor` | droplet.cpp:129 | `curTok` starts as the zero-initialised static, in front of the lexer's tokens, and the table is empty |
| `Parsing.Parser.GetNextToken` | droplet.cpp:130-132 | the next token becomes `curTok`; with no token left the call is undefined |
| `Parsing.Parser.ParseExpression` | droplet.cpp:149 | the method does what the sub-parser `pe` says and advances by the tokens it consumes |
| `Parsing.Parser.ParseNumberExpr` | droplet.cpp:143-147 | the method returns what `NumberExpr` says and advances by the tokens it consumes |
| `Parsing.Parser.ParseParenExpr` | droplet.cpp:150-162 | the method returns what `ParenExpr` says, including the failure paths, and advances by the tokens it consumes |
| `Parsing.Parser.ParseRound` | droplet.cpp:177-189 | one pass of the `while (true)` body ends as `ArgRound` says and advances by the tokens it consumes |
| `Parsing.Parser.ParseArgs` | droplet.cpp:176-190 | the `while (true)` loop collects the arguments `ArgList` gives, in order, and stops on the `)` |
| `Parsing.Parser.ParseIdentifierExpr` | droplet.cpp:164-195 | the method returns what `IdentifierExpr` says and advances by the tokens it consumes |
| `Parsing.Parser.ParsePrimary` | droplet.cpp:197-208 | the method returns what `Primary` says and advances by the tokens it consumes |
| `Parsing.Parser.GetTokPrecedence` | droplet.cpp:212-222 | returns `TokPrecedence` of the table, and the table afterwards is the one `operator[]` leaves |
| `Parsing.Parser.InstallDefaultPrecedence` | droplet.cpp:225-230 | the table afterwards holds the six entries `main` installs over what was there |
| `Parsing.ArgLoopRoundTrip` | droplet.cpp:176-190 | comma-separated arguments that `pe` reads, ended by `)`, are collected in source order after those already held, up to the `)` |
| `Parsing.ArgLoopSplit` | droplet.cpp:176-190 | conversely, a successful loop keeps the arguments it started with and has read such a list after them |
| `Parsing.ArgListIff` | droplet.cpp:176-190 | the argument list is read as `es` up to a given `)` exactly when the tokens there are `es`, comma-separated and ended by that `)` |
| `Parsing.CallIff` | droplet.cpp:164-195 | `f(...)` parses to a call of `f` on `es` exactly when `(` follows the name and then either `)` with no arguments or an argument list read as `es`, with a token after the consumed `)` |
| `Parsing.EmptyCall` | droplet.cpp:173-195 | `f()` is a call with no arguments that consumes three tokens, and is undefined when nothing follows the `)` |
| `Parsing.VariableIff` | droplet.cpp:164-171 | the result is a variable exactly when the next token is not `(`; the variable holds the identifier's text and one token is consumed |
| `Parsing.ArgListBadSeparator` | droplet.cpp:186-188 | after an argument, a token other than `,` or `)` fails the list with "Expected ')' or ',' in arg list" and is left as the current token |
| `Parsing.ParenOutcome` | droplet.cpp:150-162 | `ParseParenExpr` fails exactly when the inner expression fails or is not followed by `)`, the latter with "expected ')'" |
| `Parsing.PrimaryDispatch` | droplet.cpp:197-208 | the unknown-token failure with nothing consumed happens exactly for tokens other than an identifier, a number and `(`; an identifier goes to `ParseIdentifierExpr`, a number to `ParseNumberExpr` and `(` to `ParseParenExpr` |
| `Parsing.NoCallFromLexer` | droplet.cpp:197-208 | on the tokens `gettok` produces, every primary expression that parses is a number or a variable |
| `Parsing.LookupIdempotent` | droplet.cpp:217 | a lookup changes no token's precedence, and repeating it leaves the table as it is |
| `Parsing.LookupsKeepPrecedence` | droplet.cpp:212-222 | however many lookups are made, every token keeps its precedence |
| `Parsing.DefaultPrecedence` | droplet.cpp:225-230 | with the table from `main`, `*` and `/` give 40, `+` and `-` give 20, `<` and `>` give 10, and every other token gives -1 |

## Left out

- Reading with `getchar`: the input is a string given to the `Lexer`
  constructor.
- Characters beyond the C `char` range: a code above 255 never comes from
  `getchar`. In the model it is neither blank, letter, digit nor `.`, so
  `gettok` runs off its end when such a code is where a token would start.
  Inside a comment it is consumed like any other character.
- `LogError` and `LogErrorP` printing to `stderr`: a failure keeps only its
  message.
- `strtod` and the `double` in `numVal` and `NumberExprAST`: these are
  floating point. A number carries its literal text instead.
- `unique_ptr` ownership and the virtual destructors of the tree classes: a
  datatype value is its own tree.
- The body of `ParseExpression`, precedence climbing, prototype, definition
  and extern parsing, and a top-level driver: none of them is in the
  source, so `BinaryExpr`, `Prototype` and `Function` are never built.
- `main` beyond its six table insertions.
- Undefined behaviour: what a C program does after running off the end of a
  non-void function is not modelled beyond the `Undefined` outcome.
- Parsing.Parser.ParseNumberExpr: requires `curTok` to be a number. The
  source reads whatever `numVal` holds, and only its caller `ParsePrimary`
  guarantees that this is the current token's value.
- Parsing.Parser.ParseIdentifierExpr: requires `curTok` to be an identifier,
  for the same reason with `IdStr`.
- The parser reads the lexer's output as a token sequence
  (`Lexing.TokenStream`). It does not interleave calls of the `Lexer` object
  with parsing.
