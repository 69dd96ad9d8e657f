# stacklang lexer, modelled in Dafny

This project models the lexical front end of stacklang: the tokenizer in
`src/syntax/lexer.rs`, and the token data model with its text renderings in
`src/syntax/token.rs`.

As written, the tokenizer recognises one thing only: quoted strings.
`Lexer::lex` reads the source one character at a time and charges one column
per character. A `'` or a `"` opens a string, and the string runs to the next
occurrence of that same quote. At that point the tokenizer pushes one
`Literal(String(..))` token holding the exact text between the quotes. A raw
newline inside a string ends `lex` with "Reached EOL while parsing string".
Reaching the end of the input inside a string ends it with "Reached end of
file". Every other character is skipped, newlines included. The `line`
counter starts at 0 and never changes.

Files:

- `wrappers.dfy` (module `Wrappers`): `Option` and `Result`, standing for Rust's.
- `decimal.dfy` (module `Decimal`): the decimal text that Rust's `Display`
  writes for `usize`, `i32` and `i64`, and the parsers that read it back.
- `token.dfy` (module `Tokens`): the enums `Keyword`, `Separator`, `Operator`,
  `Literal` and `TokenData`, the struct `Token`, and each `Display::fmt` as a
  function returning a string.
- `lexer.dfy` (module `Lexing`): `LexerError` and the functions `ScanString`
  and `Scan`. These say, as functions of the characters not yet read, what
  the inner and outer loops of `lex` do. The module also holds the class
  `Lexer` with the Rust fields `tokens`, `line` and `col`, plus a cursor into
  the source. `PushToken`, `PeekNext` and `Next` state their effect on those
  fields directly; `LexString` and `Lex`, the two loops, are proved to
  follow `ScanString` and `Scan`.
- `lexer_properties.dfy` (module `LexingProperties`): lemmas about `Scan` and
  `ScanString`. They state what a call of `lex` does: string contents, errors,
  column accounting, partial output, and how scans compose.

`LexerError::new` is the datatype constructor `LexerError(msg)`. Its two
messages are the constants `EndOfFile` and `EndOfLine`.

What the code does, which a reader of a lexer might not expect:

- Lines are numbered from 0, not 1, and no newline advances them.
- Identifiers, keywords, booleans, numbers, operators, separators and
  comments are not recognised. `MainExample` shows that `fn main() {}`
  yields no token. `UnterminatedExample` shows that `let x = 'abc` yields
  the end-of-file error with no token before it.
- A token's column is the column reached after its closing quote: its end,
  not its start. The column is charged once per character read, with no
  second charge for the string's length.
- One extra column is charged when a read inside a string finds the end of
  the input, because `lex` bumps `col` before calling `next`
  (src/syntax/lexer.rs:63-64).

## Model

| member | source | states |
|---|---|---|
| `Decimal.NatText` | src/syntax/token.rs:75 | the text of a `usize` is made of digits only, and the only text starting with `0` is `0` itself, the text of zero |
| `Decimal.IntText` | src/syntax/token.rs:60-61 | the text of an `i32`/`i64` is never empty and starts with `-` exactly when the value is negative |
| `Decimal.NatTextRoundTrip` | src/syntax/token.rs:75 | the decimal text of every natural number parses back to that number |
| `Decimal.IntTextRoundTrip` | src/syntax/token.rs:60-61 | the text of every `i32`/`i64` value, with its sign, parses back to that value |
| `Tokens.KeywordText` | src/syntax/token.rs:10-14 | a keyword's text is a name that reads back, through the independent table `KeywordNamed`, as that same keyword |
| `Tokens.SeparatorText` | src/syntax/token.rs:26-30 | a separator's text reads back, through `SeparatorNamed`, as that same separator |
| `Tokens.OperatorText` | src/syntax/token.rs:40-44 | an operator's text reads back, through `OperatorNamed`, as that same operator |
| `Tokens.LiteralText` | src/syntax/token.rs:54-63 | a boolean's text is `true` or `false`; a number's text is non-empty and starts with `-` exactly when the number is negative |
| `Tokens.TokenDataText` | src/syntax/token.rs:88-98 | the text starts with the label `(Identifier, `, `(Literal, ` or, for keywords, separators and operators alike, `(Keyword, `; after `(Literal, ` comes exactly the literal's own text, and after `(Keyword, ` a variant name that reads back, through the independent table `NamedData`, as that same keyword, separator or operator |
| `Tokens.TokenText` | src/syntax/token.rs:73-77 | a token's text starts with a digit of its line and ends with its data's text |
| `Tokens.KeywordTextNames` | src/syntax/token.rs:3-14 | a keyword renders as its variant name; exactly the four names Fn, If, Let, For name a keyword |
| `Tokens.SeparatorTextNames` | src/syntax/token.rs:17-30 | a separator renders as its variant name; exactly six names name one, and `Dot` is not among them |
| `Tokens.OperatorTextNames` | src/syntax/token.rs:33-44 | an operator renders as its variant name; exactly four names name one, and `Assignment` is not among them |
| `Tokens.VariantTextsDistinct` | src/syntax/token.rs:3-44 | within each of the three enumerations, distinct variants render to distinct strings |
| `Tokens.NamedDataOfName` | src/syntax/token.rs:3-44 | no variant name is shared between keywords, separators and operators; each reads back as its own variant |
| `Tokens.LiteralTextReadsBack` | src/syntax/token.rs:54-63 | a boolean renders as `true` or `false`, a string as its exact text with no quotes, a number as decimal text that parses back to it |
| `Tokens.LiteralTextAmbiguous` | src/syntax/token.rs:58-61 | every boolean or number literal renders the same as the string literal holding its text |
| `Tokens.IdentifierTextUnclosed` | src/syntax/token.rs:92 | an identifier renders as the label `(Identifier, ` followed by its name, and nothing after it: no closing parenthesis |
| `Tokens.SeparatorAndOperatorShownAsKeyword` | src/syntax/token.rs:94-96 | separators and operators render under the label `(Keyword, `, never under a label of their own |
| `Tokens.NonLiteralTextInjective` | src/syntax/token.rs:88-98 | two non-literal token data with the same rendering are equal, despite the shared keyword label |
| `Tokens.TokenTextRoundTrip` | src/syntax/token.rs:73-77 | the text of every token, read by the independent parser `ParseTokenText` as `<line> : <col> :: <data>`, gives back its line, its column and its data's text |
| `Lexing.ScanString` | src/syntax/lexer.rs:62-70 | the inner loop as a function of the unread characters; it never leaves more than it was given. `ScanStringMeaning` states what it returns |
| `Lexing.Scan` | src/syntax/lexer.rs:52-79 | the outer loop as a function of the unread characters, the line, the column and the tokens so far. `Lexer.Lex` is proved equal to it, and the `LexingProperties` lemmas state what it returns |
| `Lexing.Lexer.constructor` | src/syntax/lexer.rs:28-35 | a new lexer has no tokens, line 0, column 0, and all of the source still to read |
| `Lexing.Lexer.PushToken` | src/syntax/lexer.rs:37-39 | appends one token carrying the current line and column, and changes nothing else |
| `Lexing.Lexer.PeekNext` | src/syntax/lexer.rs:41-43 | returns the next character without consuming it, or nothing at the end of the source |
| `Lexing.Lexer.Next` | src/syntax/lexer.rs:45-50 | consumes and returns the next character, or fails with "Reached end of file" and consumes nothing |
| `Lexing.Lexer.LexString` | src/syntax/lexer.rs:60-70 | the inner loop leaves the column, the cursor and the result exactly as `ScanString` says |
| `Lexing.Lexer.Lex` | src/syntax/lexer.rs:52-79 | the result, tokens, column and unread source are exactly those `Scan` gives for the old state; `line` is unchanged |
| `LexingProperties.ScanStringMeaning` | src/syntax/lexer.rs:61-70 | for every input, the string ends at the first occurrence of the quote that opened it or of a raw newline, or at the end of the input, as the independent `StringEnd` finds that point; the other quote is ordinary content; the contents are exactly the text before that point, with no escapes; a quote closes it, a newline fails it with "Reached EOL while parsing string", the end of input with "Reached end of file"; the column grows by the characters read, plus one at the end of the input |
| `LexingProperties.QuotedStringToken` | src/syntax/lexer.rs:60-71 | a quoted text with no newline and no matching quote inside yields exactly one `Literal(String(text))` token, at the column just past the closing quote |
| `LexingProperties.NewlineInString` | src/syntax/lexer.rs:67 | a raw newline before the matching quote makes `lex` return "Reached EOL while parsing string", with no token for that string |
| `LexingProperties.EndOfInputInString` | src/syntax/lexer.rs:63-64 | running out of input inside a string makes `lex` return "Reached end of file", with one column charged for the failed read |
| `LexingProperties.ScanEmpty` | src/syntax/lexer.rs:53-56 | with nothing left to read, `lex` returns `Ok` and changes nothing |
| `LexingProperties.ScanWithoutQuotes` | src/syntax/lexer.rs:57-58 | characters other than quotes, newlines included, are skipped: `Ok`, no token, one column each |
| `LexingProperties.ScanAppendsOnly` | src/syntax/lexer.rs:37-38 | tokens are only appended, so the tokens found before an error are kept; the column never decreases |
| `LexingProperties.ScanNewTokens` | src/syntax/lexer.rs:71 | every token `lex` adds is a string literal on the lexer's unchanged line, at a column within the range the scan covered |
| `LexingProperties.ScanRest` | src/syntax/lexer.rs:57-67 | what `lex` leaves unread is a suffix of its input; the only errors are the two messages; after the end-of-line error it stands just past the newline |
| `LexingProperties.ScanColumns` | src/syntax/lexer.rs:57-64 | on `Ok`, the column grows by the number of characters in the input; after the end-of-line error, by the characters read; after the end-of-file error, by one more than the input's length |
| `LexingProperties.TokenColumnsAtClosingQuotes` | src/syntax/lexer.rs:58-71 | each new token's column, counted from where `lex` started, is the position just past a quote character of the input |
| `LexingProperties.ScanStringAppend` | src/syntax/lexer.rs:62-70 | a string that closes within some text closes at the same place when more text follows |
| `LexingProperties.ScanAppend` | src/syntax/lexer.rs:53-78 | once a prefix has been scanned with `Ok`, scanning the whole text is scanning the rest from the column and tokens the prefix left |
| `LexingProperties.MainExample` | src/main.rs:7 | `fn main() {}` given to a fresh lexer yields `Ok`, no token and column 12 |
| `LexingProperties.UnterminatedExample` | src/syntax/lexer.rs:45-49 | `let x = 'abc` yields "Reached end of file", no token, and column 13 |

## Left out

- The `Peekable<Chars>` iterator and UTF-8 decoding: the source is a `seq<char>` with a cursor.
- `Formatter` and `write!`: each `Display::fmt` is a function returning a string, and `#[derive(Debug)]` is modelled by the variant names it prints.
- `usize` overflow of `line` and `col`: they are unbounded naturals, since `col` cannot reach the `usize` limit on any input that fits in memory.
- `Lexing.Lexer.Lex`: the inner loop of `lex` is the method `LexString` rather than inline code. The `?` on the first `next` call (src/syntax/lexer.rs:57) cannot fail after a successful peek, so it is an assertion rather than an error path.
- The lifetime `'a` binding the lexer to its source is left out; the source is a `const` field.
- src/main.rs, the driver, is not part of this model. `MainExample` only states what `lex` does on its fixed input.
- `Lexing.Scan`: carries no `ensures` of its own. What it returns is stated by the lemmas `ScanRest`, `ScanColumns`, `ScanAppendsOnly`, `ScanNewTokens` and `TokenColumnsAtClosingQuotes`, because a contract on the recursive function itself made those proofs too costly.
