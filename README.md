# Game Boy assembler front end, modelled in Dafny

This project models the front end of a Game Boy assembler written in Rust.
The front end has two stages:

- the lexer (`src/lexer.rs`) turns the lines of a source file into tokens;
- the parser (`src/parser.rs`) turns the tokens into statement nodes (`src/ast.rs`).

`src/main.rs` chains the two stages.

## Modules

| module | file | what it holds |
|---|---|---|
| `Wrappers` | `wrappers.dfy` | `Option` and `Result` |
| `Syntax` | `ast.dfy` | `StatementType`, the six statements as one datatype, `my_type`, `to_string`, `Ast` |
| `Lexing` | `lexer.dfy` | `TokenType`, `Token`, the `Lexer` class, `lex_content`, and the functions that specify them |
| `LexingTest` | `lexer_test.dfy` | the lexer's unit test `lexing_content`, worked out on the model |
| `Parsing` | `parser.dfy` | `ParsingError`, the `Parser` class, `parse_ast`, and the functions that specify them |
| `FrontEnd` | `frontend.dfy` | the two stages together, as `main` chains them |

## Classes and their specification functions

The Rust `Lexer` and `Parser` are cursors that update their fields in place. Each one is a Dafny `class` with the same fields. Its methods have `modifies this` and the same loops as the Rust code.

Each class method is proved equal to a function of the input and the cursor:

- one call of `retrieve_next_token` is `Lexing.Step(s, p)`;
- the tokens `lex_content` collects are `Lexing.Tokenize`;
- one call of `next_statement` is `Parsing.ParseStep(ts, c)`;
- the statements `parse_ast` collects are `Parsing.StatementsFrom`.

The properties of the lexer and the parser are then lemmas about these functions.

Two methods have no function of their own in the Rust code:

- `Lexing.Lexer.ReadWhile` is the scanning loop that `read_identifier` and `read_number` both contain, written once. The flag `changed` of `read_identifier` becomes "the loop read at least one character".
- `Parsing.Parser.NextInclude` is the include branch of `next_statement` (`src/parser.rs:58-73`), with its code in the same order.

## Behaviour as written

The model follows the code, including these quirks:

- **The cursor lags behind.**
  - `read_char` tests `read_position` but reads `input[position]`, so after construction the last character of the input never becomes `ch` and never enters a token. The constructor is the exception: for a one-character input it makes that character `ch`.
  - `peek_char` reads `input[read_position]`, which may be the last character, so the last character can still end a scanning loop.
  - `next_token` in the parser has the same shape, so after construction the last token never becomes current. For a single token, the constructor makes it current.
  - `lex_content` appends a line break to every line. The only character it loses is therefore the final line break. A number's `$` is not in its literal either, but the token's kind Number implies it.
  - The unit test's input has no final line break, so its last token is `commen`, not `comment`.
  - The test's count check (`src/lexer.rs:279`) holds on the model: there are 13 tokens.
  - The test's loop compares each expected token with itself, so it checks nothing about the literals.
- **An identifier's second character is never tested.**
  - The scanning loop peeks two places past the identifier's first character.
  - Only when the loop ran is one more character appended.
  - So `ab ` lexes as `a` then `b`, while `abc ` lexes as `abc`.
- **A number drops its `$`, and the character right after the `$` is never tested.** The scanning loop peeks from two places past the `$`. After the loop one more character is read, and it is the last one the loop accepted, or the untested one when the loop did not run. So `$41 xy` lexes as the Number `41`, and `$z1 ` lexes as the Number `z1`.
- **An INCLUDE with nothing but blanks after it is no error.** The path is then empty.
  - The single line `INCLUDE foo` is such a case: `foo` is the last token, so it never becomes current.
  - The result is `[IncludeStatement("")]`, not a "missing quote" error.
- **The token after an include's closing quote is passed over.** The next statement starts two places past the closing quote, and the model proves that this token can be anything.
- **The `match` in `next_statement` (`src/parser.rs:47-77`) lists no arm for `Tab` or `Number`.**
  - A Rust compiler rejects this as a non-exhaustive match.
  - The model gives these kinds the fall-through result of every other kind that is not an INCLUDE keyword: "Unsupported token found".
- **`my_type` of a CHARMAP statement returns `NewCharMap`.** So `CharMap` and `SetCharMap` are never reported.
- **`parse_ast` always returns `Ok`.** It returns the statements before the first error, and the error itself is dropped.

## Model

| member | source | states |
|---|---|---|
| `Syntax.MyType` | src/ast.rs:22-97 | each statement reports its own kind, except that a CHARMAP statement reports NewCharMap; no statement reports CharMap or SetCharMap; the other kinds hold in both directions |
| `Syntax.ToString` | src/ast.rs:27-100 | every rendering is at least two characters long and starts with the two letters of its kind; `RenderingShowsKind`, `SectionTypeNotRendered`, `CharMapRenderingKeepsNumber` and `FrontEnd.IncludeRoundTrip` are proved about it |
| `Syntax.RenderingShowsKind` | src/ast.rs:22-100 | two renderings that agree in their first two characters come from statements of the same `my_type`, and either both are CHARMAP statements or neither is |
| `Syntax.SectionTypeNotRendered` | src/ast.rs:42-44 | the section type of a SECTION statement never shows in its rendering |
| `Syntax.CharMapRenderingKeepsNumber` | src/ast.rs:84-86 | a CHARMAP rendering ends in the decimal number, which reads back as the statement's number |
| `Syntax.NatDigits` | src/ast.rs:85 | decimal digits of a natural number: non-empty, all digits, no leading zero |
| `Syntax.DecimalString` | src/ast.rs:85 | `to_string` of an integer starts with a minus sign exactly when the integer is negative |
| `Syntax.NatDigitsRoundTrip` | src/ast.rs:85 | the value of the digits of `n` is `n` |
| `Syntax.DecimalRoundTrip` | src/ast.rs:85 | reading back the decimal rendering of any integer gives that integer |
| `Syntax.NegativeRoundTrip` | src/ast.rs:85 | a negative number reads back through its minus sign and its digits |
| `Lexing.RunEnd` | src/lexer.rs:125-133 | where the scanning loop stops: every character it takes is accepted, and the peeked character after it is missing or rejected |
| `Lexing.IdentifierFrom` | src/lexer.rs:121-144 | an identifier is the slice from its first character up to the next cursor (short of the last character); the loop ran exactly when the character two places on continues an identifier; when it ran, every character from the third on continues one, and the one after does not |
| `Lexing.NumberFrom` | src/lexer.rs:146-166 | a number's literal is the slice after the `$` up to the next cursor; its characters after the first are hex digits, and the scan stops at a non-hex character |
| `Lexing.Step` | src/lexer.rs:60-119 | one call: `Err` exactly when the cursor has reached the last character; otherwise the token is the input slice from the cursor (after the `$` for a number), never reaching the last character; it is a Number exactly when the character is `$` and a DoubleQuote exactly when it is `"` |
| `Lexing.TokensFrom` | src/lexer.rs:201-203 | the tokens up to the first `Err`: none at the end, otherwise at least one and never more than the characters left before the last |
| `Lexing.Tokenize` | src/lexer.rs:198-205 | a fresh lexer yields no token for inputs of at most one character, and otherwise between one and `|s| - 1` tokens |
| `Lexing.JoinLines` | src/lexer.rs:191-196 | the joined text is empty exactly when there are no lines, and otherwise ends with a line break |
| `Lexing.Lexer.constructor` | src/lexer.rs:43-58 | a new lexer has its cursor at 0, with the first character (if any) in `ch` |
| `Lexing.Lexer.ReadChar` | src/lexer.rs:178-187 | `ch` is `input[position]` unless `read_position` is past the end, and then both positions advance |
| `Lexing.Lexer.PeekChar` | src/lexer.rs:168-176 | the character two places past `ch`, present exactly when `position + 1` is inside the input |
| `Lexing.Lexer.ReadWhile` | src/lexer.rs:125-133 | the scanning loop shared by `read_identifier` and `read_number` ends at `RunEnd` and returns the characters it read |
| `Lexing.Lexer.ReadIdentifier` | src/lexer.rs:121-144 | the identifier and the new cursor are those of `IdentifierFrom` |
| `Lexing.Lexer.ReadNumber` | src/lexer.rs:146-166 | the number and the new cursor are those of `NumberFrom` |
| `Lexing.Lexer.RetrieveNextToken` | src/lexer.rs:60-119 | exactly one `Step`: `Err` when it yields none, otherwise its token, with the cursor where `Step` leaves it |
| `Lexing.ConcatLines` | src/lexer.rs:193-196 | the first loop of `lex_content` builds `JoinLines(content)` |
| `Lexing.LexContent` | src/lexer.rs:190-206 | `lex_content` returns `Tokenize(JoinLines(content))` |
| `Lexing.TokensOntoGathers` | src/lexer.rs:199-203 | the pushing loop of `lex_content` ends with the tokens pushed so far followed by all the tokens still to come |
| `Lexing.SingleCharacterTokens` | src/lexer.rs:65-96 | each of the eight punctuation and white-space characters is one token of its fixed kind, and the cursor moves by one |
| `Lexing.UnknownTokens` | src/lexer.rs:101-114 | any other character that is neither `$` nor alphabetic is one Unknown token |
| `Lexing.IdentifierTokens` | src/lexer.rs:101-108 | an alphabetic character starts an Identifier whose literal and cursor are `IdentifierFrom`'s |
| `Lexing.NumberTokens` | src/lexer.rs:97-100 | a `$` starts a Number whose literal and cursor are `NumberFrom`'s |
| `Lexing.ShortIdentifierExample` | src/lexer.rs:121-144 | `ab ` lexes as the identifiers `a` and `b`, because the second character is never tested |
| `Lexing.LongerIdentifierExample` | src/lexer.rs:121-144 | `abc ` lexes as the one identifier `abc` |
| `Lexing.DottedIdentifierExample` | src/lexer.rs:121-144 | `a.bc` is one identifier, because its second character `.` is never tested |
| `Lexing.NumberExamples` | src/lexer.rs:146-166 | `$41 xy` is the number `41` (the space is not appended) and `$z1 ` is the number `z1` (the `z` is never tested) |
| `Lexing.ExhaustedStaysExhausted` | src/lexer.rs:178-187 | once a call returns `Err`, every later cursor does too |
| `Lexing.StepSpelling` | src/lexer.rs:60-119 | each token spells (with the `$` of a number put back) the input slice it was read from |
| `Lexing.TokensSpellInput` | src/lexer.rs:190-206 | the tokens spell out the input from the cursor up to, but excluding, the last character: nothing is lost or reordered but that character |
| `Lexing.LexContentDropsOnlyFinalLineBreak` | src/lexer.rs:190-206 | for any non-empty list of lines, the tokens of `lex_content` spell every line and every line break between them |
| `Lexing.RunEndAt` | src/lexer.rs:125-133 | the scanning loop stops at the first place where the peeked character is missing or rejected |
| `Lexing.TokensOfSteps` | src/lexer.rs:201-203 | a chain of steps yields its tokens, followed by the tokens from where the chain ends |
| `LexingTest.TestInputIdentifierInclude` | src/lexer.rs:214 | the test input starts with the identifier `INCLUDE` |
| `LexingTest.TestInputIdentifierFoo` | src/lexer.rs:214 | `foo` is one identifier token |
| `LexingTest.TestInputIdentifierAsm` | src/lexer.rs:214 | `asm` is one identifier token |
| `LexingTest.TestInputIdentifierSimple` | src/lexer.rs:214 | `simple` is one identifier token |
| `LexingTest.TestInputIdentifierComment` | src/lexer.rs:214 | the last identifier is `commen`, because the final `t` is never read |
| `LexingTest.TestInputFirstLine` | src/lexer.rs:216-248 | the first line yields the eight expected tokens, its line break included |
| `LexingTest.TestInputSecondLine` | src/lexer.rs:249-268 | the second line yields `;`, space, `simple`, space, `commen` |
| `LexingTest.TestInputTokens` | src/lexer.rs:216-269 | the test input yields exactly the thirteen expected tokens, except that the last literal is `commen` |
| `LexingTest.LexingContent` | src/lexer.rs:271-279 | the test's loop collects 13 tokens, as its count assertion requires |
| `Parsing.FirstNonBlank` | src/parser.rs:84-94 | where `skip_spaces` stops: all tokens passed over are Space or LineBreak, and the stop is missing or not blank |
| `Parsing.ReadString` | src/parser.rs:102-109 | the loop of `next_string` gathers the literals of the tokens before the first DoubleQuote (or the end), none of which is a DoubleQuote |
| `Parsing.ReadStringOntoGathers` | src/parser.rs:102-109 | the loop ends with the literals gathered so far followed by the rest, at the same stop |
| `Parsing.IncludeAfter` | src/parser.rs:56-74 | the include branch: an error is always "Missing \" after include"; a success is an include statement, and the cursor moves on |
| `Parsing.ParseStep` | src/parser.rs:35-82 | one call always moves the cursor; a statement is an include whose first non-blank token is an INCLUDE keyword; the only errors are the three messages of the source |
| `Parsing.StatementsFrom` | src/parser.rs:137-144 | the statements collected up to the first error are all includes |
| `Parsing.Parser.constructor` | src/parser.rs:20-33 | a new parser has its cursor at 0 and the first token (if any) current |
| `Parsing.Parser.NextToken` | src/parser.rs:117-126 | the current token is `tokens[position]` unless `read_position` is past the end, and both positions advance |
| `Parsing.Parser.PeekToken` | src/parser.rs:128-134 | the token at `read_position`, present exactly when it exists |
| `Parsing.Parser.SkipSpaces` | src/parser.rs:84-94 | the cursor ends one past `FirstNonBlank` and the token there is current |
| `Parsing.Parser.NextString` | src/parser.rs:96-115 | the string and the new cursor are those of `ReadString`, two places past its stop, and the token there is current |
| `Parsing.Parser.NextStatement` | src/parser.rs:35-82 | the result and the new cursor are exactly `ParseStep`'s, and the token there is current |
| `Parsing.Parser.NextInclude` | src/parser.rs:58-73 | the include branch, entered with the keyword current: its result and the new cursor are exactly `IncludeAfter`'s, and the token there is current |
| `Parsing.ParseAst` | src/parser.rs:137-149 | `parse_ast` always returns `Ok` with `StatementsFrom(tokens, 0)` |
| `Parsing.FirstNonBlankAt` | src/parser.rs:84-94 | `skip_spaces` stops at the first token that is missing or not blank |
| `Parsing.ReadStringAt` | src/parser.rs:96-115 | the string loop stops at the first DoubleQuote or the end, and its data is the literals before it |
| `Parsing.NoTokenLeftExactly` | src/parser.rs:37-43 | "No token left" is reported exactly when every token from the cursor, the last aside, is blank |
| `Parsing.UnsupportedAt` | src/parser.rs:47-81 | any first non-blank token other than an INCLUDE keyword is "Unsupported token found", a Tab or Number included |
| `Parsing.UnsupportedKinds` | src/parser.rs:47-81 | no statement starts with a token of kind Unknown, Tab, Slash, DoubleQuote, Comma, Dot, SemiColon, Number or EOF |
| `Parsing.MissingQuoteAt` | src/parser.rs:56-66 | an INCLUDE followed, after blanks, by a token that is not a DoubleQuote is "Missing \" after include" |
| `Parsing.IncludeAt` | src/parser.rs:56-74 | an INCLUDE, blanks, an opening quote and a string: the path is the concatenated literals between the quotes, and the cursor stops two past the closing quote |
| `Parsing.IncludeAtEnd` | src/parser.rs:58-73 | an INCLUDE followed only by blanks is an include of the empty path, not an error |
| `Parsing.IncludeKeywordIgnoresCase` | src/parser.rs:57 | the keyword matches `include` letter by letter in either case |
| `Parsing.FirstNonBlankReads` | src/parser.rs:84-94 | `skip_spaces` depends only on the tokens up to where it stops |
| `Parsing.ReadStringReads` | src/parser.rs:96-115 | the string loop depends only on the tokens up to where it stops |
| `Parsing.IncludeAfterReads` | src/parser.rs:56-74 | the include branch depends only on the tokens up to the one it rejects, or up to the closing quote |
| `Parsing.MissingQuoteReads` | src/parser.rs:60-66 | the missing-quote error depends only on the tokens up to the rejected one |
| `Parsing.PathReads` | src/parser.rs:67-73 | the path depends only on the tokens up to the closing quote |
| `Parsing.PathFacts` | src/parser.rs:84-115 | the stop of the blanks after the keyword, the opening quote and the string read the same in two sequences that agree up to the closing quote |
| `Parsing.ParseStepReadsOnlyAhead` | src/parser.rs:35-82 | one call depends only on the tokens from the cursor on, the last one aside |
| `Parsing.IncludeReadsUpToClosingQuote` | src/parser.rs:56-74 | an include depends on no token past its closing quote |
| `Parsing.StatementsReadOnlyAhead` | src/parser.rs:137-144 | token sequences that agree from the cursor on, the last token aside, parse to the same statements |
| `Parsing.LastTokenNeverExamined` | src/parser.rs:117-126 | changing only the last token never changes the statements |
| `Parsing.TokenAfterIncludeNeverExamined` | src/parser.rs:111-112 | the token right after an include's closing quote can be replaced by any token without changing the statements |
| `FrontEnd.QuotedTailShape` | src/lexer.rs:60-119 | a quoted path free of `"` and `$`, closed by a quote before the final character, lexes into tokens that end with that quote, with no other DoubleQuote |
| `FrontEnd.QuotedTailLiterals` | src/lexer.rs:60-119 | the literals of those tokens before the closing quote are the path's text |
| `FrontEnd.QuotedStep` | src/lexer.rs:60-119 | inside such a path, a token is a slice of it that never reaches the closing quote |
| `FrontEnd.IncludeKeywordStep` | src/lexer.rs:121-144 | a line starting with `INCLUDE ` lexes the keyword as one identifier |
| `FrontEnd.IncludeLineText` | src/lexer.rs:193-196 | the joined text of a rendered include is `INCLUDE "path"` and a line break |
| `FrontEnd.IncludeLineTokens` | src/lexer.rs:60-119 | such a line lexes as the keyword, a space, the opening quote, then the quoted path |
| `FrontEnd.IncludeRoundTrip` | src/main.rs:26-31 | lexing and parsing the rendering of an include gives back that include, for every path without `"` or `$` |
| `FrontEnd.QuotedIncludeParses` | src/parser.rs:56-74 | the keyword, a space, the opening quote and tokens up to a final closing quote parse to one include of the literals between |
| `FrontEnd.TestTokensFirstStatement` | src/parser.rs:56-74 | the first statement of the lexer test's tokens is an include of `foo.asm` |
| `FrontEnd.TestInputStatements` | src/main.rs:26-31 | the lexer test's input parses to exactly one include of `foo.asm`; the comment ends the statements |
| `FrontEnd.UnquotedIncludeTokens` | src/lexer.rs:190-206 | the line `INCLUDE foo` lexes to the keyword, a space and `foo` |
| `FrontEnd.UnquotedPathStep` | src/lexer.rs:121-144 | in the line `INCLUDE foo`, `foo` is one identifier ending at the last character |
| `FrontEnd.UnquotedIncludeAlone` | src/parser.rs:58-73 | the single line `INCLUDE foo` gives one include of the empty path, not an error |

## Left out

- `src/main.rs`: reading the file named on the command line, the timing, the printing and `dbg!`. `FrontEnd.Assemble` takes the lines as a parameter.
- The `Debug` implementation of `Ast` (`src/ast.rs:108-117`), which only prints.
- `Box<dyn Statement>` and the `Statement` trait: the six statement structs are the cases of one datatype, with `my_type` and `to_string` as functions over it.
- SECTION, IF, DEF, NEWCHARMAP and CHARMAP are never parsed: `next_statement` only recognises INCLUDE, and the model follows it.
- `Lexing.Step`: Rust's `is_alphabetic` and `is_alphanumeric` are Unicode classes; the model restricts them to ASCII letters and digits.
- `Parsing.IncludeKeywordIgnoresCase`: Rust's `to_lowercase` is Unicode case mapping; the model maps only `A`-`Z`.
- `Syntax.DecimalString`: `number` is an `i32` in the source; the model uses an unbounded integer.
- `usize` overflow of the positions is not modelled; the positions are unbounded naturals.
- No code calls `peek_token`; it is modelled all the same, as `Parsing.Parser.PeekToken`.
- The lexer test's loop at `src/lexer.rs:280-286` compares each expected token with itself, so it checks nothing; the model proves instead which tokens the lexer yields.
