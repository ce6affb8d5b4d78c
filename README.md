# A verified model of the front end of a Spanish-keyword interpreter

This project models the front half of the interpreter's pipeline in Dafny and
proves properties of the model. The parts are the token model, the lexer, the
parser skeleton and the builtin `longitud`. The Python sources are
`lp/token.py`, `lp/lexer.py`, `lp/parser.py` and `lp/builtins.py`.

Modules, one per source file (plus two small helpers):

- `Wrappers` (wrappers.dfy): `Option`.
- `Tokens` (tokens.dfy) models `lp/token.py`.
  - The 31 token kinds, as a datatype with Dafny-style constructor names (`Assign`, `Ident`, `Eof`, ...). `KindName` maps each constructor to the enumeration member name the source uses, misspelling included (`Assign` is `ASSING`), and only those names appear in rendered tokens and messages.
  - The `Token(kind, literal)` pair and its rendering `Type: TokenType.<NAME>, Literal: <literal>`, with a reader that inverts it.
  - `LookupTokenType`, the seven-entry keyword dictionary with IDENT as its default.
- `Numerals` (numerals.dfy): Python's `int()` on the digit strings the lexer can produce, and the decimal rendering of a count used by `'{}'.format`.
- `Lexing` (lexer.dfy) models `lp/lexer.py`.
  - `Scan(s, c)` states what one `next_token` call returns with the cursor at index `c`, and where it leaves the cursor. `Lex(s, c)` is the token stream that successive calls return.
  - The class `Lexer` keeps the source's three mutable fields: `character` (`None` for the empty string at end of input), `position` and `readPosition`.
  - Each method is proved against `Scan` or against `RunEnd`, the end of a run of one character class.
- `Ast` (ast.dfy): the nodes the parser builds.
- `Parsing` (parser.dfy) models `lp/parser.py`.
  - `StatementSpec` states what parsing one statement does. `ParseFrom` states what the `parse_program` loop does, over the finite stream `Lex` produces.
  - The class `Parser` owns a `Lexer` and keeps current and peek tokens and the error list.
  - Its methods are proved to follow those functions. Ghost fields record the token stream and the lexer cursor before each call.
- `Builtins` (builtins.dfy) models `lp/builtins.py`: the objects `longitud` can receive, `longitud` itself, and the `BUILTINS` registry.
- `Programs` (programs.dfy): whole programs from source text to parse result. It covers the text of `tests/parser_test.py` and three more short programs. Each is lexed with `Lex`, and the resulting stream is parsed with `ProgramSpec`.

Letters are ASCII letters, á é í ó ú Á É Í Ó Ú ñ Ñ and `_`, as in the source's character class. Whitespace (`\s`) is taken as ASCII space, tab, line feed, vertical tab, form feed and carriage return. A digit (`\d`) is taken as ASCII `0`-`9`.

Three behaviours of the source are reproduced as written:

- When a letter or digit run reaches the end of input, it is returned without its last character. `_read_character` stops moving `_position` at the end, and the slice ends at `_position`. So a lone `5` at the end lexes as an INT token with an empty literal.
- After the end of input, the lexer returns `Token(EOF, '')` forever and its cursor stays where it is.
- The skip loops of `variable` and `regresa` only look for `;`. With no `;` after such a statement, the loop never ends (see Findings).

The code is narrower than a full language front end, and the model keeps it so:

- There are no two-character operators and no string literals. `-`, `*`, `!`, `>` and `"` are ILLEGAL.
- `variable` and `regresa` never parse their value.
- There are no infix rules.
- A token without a prefix rule gives an expression statement with no expression and no diagnostic. It does not give a "no parse rule" message.
- Integers are unbounded, like Python's `int`, rather than 64-bit.

## Model

| member | source | states |
|---|---|---|
| Tokens.KindNameRoundTrip | lp/token.py:8-40 | Every kind is recovered from its enumeration member name, so the 31 members are distinct |
| Tokens.KindNameHasNoComma | lp/token.py:9-40 | No member name contains a comma, so the name ends where `, Literal: ` starts |
| Tokens.KindRepr | lp/token.py:46-47 | How a kind prints inside an f-string: `TokenType.` followed by its member name (definition; `KindNameRoundTrip` states that it is reversible) |
| Tokens.TokenString | lp/token.py:46-47 | `Type: TokenType.<NAME>, Literal: <literal>` (definition; its inverse is stated by `TokenStringRoundTrip`) |
| Tokens.IndexOf | lp/token.py:46-47 | The first occurrence of a character: every earlier character differs from it, and it is the length when the character does not occur |
| Tokens.TokenStringRoundTrip | lp/token.py:46-47 | `Type: TokenType.<NAME>, Literal: <literal>` is read back to the same token: the rendering loses neither kind nor literal |
| Tokens.TokenStringInjective | lp/token.py:42-47 | Two tokens render alike if and only if they are equal |
| Tokens.TokenEquality | lp/token.py:42-44 | Tokens are equal exactly when kind and literal are equal (structural comparison of the immutable pair) |
| Tokens.Find | lp/token.py:60 | A dictionary lookup that finds a kind finds one paired with that literal in the table |
| Tokens.LookupTokenType | lp/token.py:49-60 | Any result other than IDENT is the kind the keyword table pairs with the literal |
| Tokens.KeywordLiteral | lp/token.py:50-58 | The reverse table is defined exactly for the seven keyword kinds |
| Tokens.KeywordsDistinct | lp/token.py:50-58 | No reserved word is listed twice |
| Tokens.FindFirst | lp/token.py:60 | A lookup returns the kind of the first entry whose key equals the literal |
| Tokens.KeywordTable | lp/token.py:49-58 | `falso`, `procedimiento`, `regresa`, `si`, `si_no`, `variable`, `verdadero` give FALSE, FUNCTION, RETURN, IF, ELSE, LET, TRUE |
| Tokens.LookupIsExact | lp/token.py:60 | The empty literal, `Variable`, `verdadero_` and `SI` give IDENT: matching is exact and case-sensitive |
| Tokens.EntriesAgreeWithKeywordLiteral | lp/token.py:50-58 | Every table entry is a keyword kind paired with the word the reverse table gives it |
| Tokens.LookupThenLiteral | lp/token.py:49-60 | A literal that looks up to a non-IDENT kind is that kind's reserved word, so every other literal gives IDENT |
| Tokens.LiteralThenLookup | lp/token.py:49-58 | The reserved word of a keyword kind looks up to that kind |
| Tokens.KeywordsInjective | lp/token.py:50-58 | Distinct reserved words give distinct kinds |
| Numerals.ParseInt | lp/parser.py:114-116 | `int(literal)` succeeds if and only if the literal is a non-empty digit string, with a non-negative value |
| Numerals.NatToString | lp/builtins.py:19 | A rendered count is a non-empty digit string with no leading zero |
| Numerals.DecimalValueOfNatToString | lp/builtins.py:19 | Reading a rendered count back gives the count |
| Numerals.ParseIntNatToString | lp/parser.py:115 | `int(str(n)) == n` |
| Numerals.NatToStringInjective | lp/builtins.py:19 | Two counts render alike if and only if they are equal |
| Numerals.NatToStringOfDecimalValue | lp/parser.py:115 | A digit string without a superfluous leading zero is the rendering of its value |
| Numerals.LeadingDigitPositive | lp/parser.py:115 | A digit string that starts with a non-zero digit has a positive value |
| Lexing.IsLetter | lp/lexer.py:57-58 | The letter class: ASCII letters, `á é í ó ú Á É Í Ó Ú ñ Ñ` and `_`, compared by code point (definition; its use is stated by `RunToken`) |
| Lexing.IsSpace | lp/lexer.py:88-90 | The whitespace class: space and code points 9 to 13 (definition; its use is stated by `NoWhitespaceInTokens`) |
| Lexing.SingleCharKind | lp/lexer.py:21-38 | The kinds of the nine one-character tokens, `<` included from line 48 (definition; spelled out by `SingleCharKinds`) |
| Lexing.Text | lp/lexer.py:63-67 | The current character is one character of text, or the empty string at end of input |
| Lexing.RunEnd | lp/lexer.py:72-90 | A scan loop started at `i` stops at the first index from `i` on outside the class, or at the end of input |
| Lexing.RunEndInClass | lp/lexer.py:72-90 | Every character the loop passes over is in the class |
| Lexing.Scan | lp/lexer.py:18-55 | One call gives EOF exactly when only whitespace remains. EOF has the empty literal and leaves the cursor at the end. Any other token moves the cursor forward |
| Lexing.Lex | lp/lexer.py:18-55 | The calls up to the first EOF give at most one token per remaining character plus one, and end with `Token(EOF, '')` |
| Lexing.SingleCharToken | lp/lexer.py:21-38 | Each of `= + ( ) { } , ; <` gives one token of its kind holding that character, and the cursor moves one past it |
| Lexing.OneCharToken | lp/lexer.py:21-53 | A character that starts no run gives a one-character token: its own kind for the nine, ILLEGAL otherwise |
| Lexing.RunStartsAreNotSingleChars | lp/lexer.py:39-61 | Letters and digits are disjoint from each other and from the nine one-character tokens |
| Lexing.RunScan | lp/lexer.py:39-47 | A letter or digit starts a run. Its token is the looked-up kind (letters) or INT (digits), holding the run as the lexer slices it |
| Lexing.SingleCharKinds | lp/lexer.py:21-51 | The nine one-character kinds spelled out. `-`, `*`, `!`, `>` and `"` have none, so they are ILLEGAL |
| Lexing.IllegalToken | lp/lexer.py:50-51 | A token is ILLEGAL if and only if the first non-space character is not one of the nine, not a letter and not a digit. It then holds just that character |
| Lexing.NoWhitespaceInTokens | lp/lexer.py:88-90 | No token literal contains whitespace |
| Lexing.RunToken | lp/lexer.py:39-86 | A letter run gives `lookup_token_type(literal)` and a digit run gives INT. The literal holds only characters of the run's class. The cursor stops on the first character outside the run |
| Lexing.RunLiteralInClass | lp/lexer.py:72-86 | The slice a run is returned as lies within the run, so it holds only characters of the run's class |
| Lexing.RunTruncatedAtEnd | lp/lexer.py:63-86 | A run that stops before the end is returned whole. A run that reaches the end loses its last character, and a one-character run at the end comes back empty |
| Lexing.TruncationExamples | lp/lexer.py:63-86 | A lone `5` lexes as an empty INT and a lone `x` as an empty IDENT |
| Lexing.RunAtEndExample | lp/lexer.py:72-78 | `abc` alone lexes as `ab` |
| Lexing.WholeRunExample | lp/lexer.py:72-78 | `abc ` lexes as `abc` |
| Lexing.AtEndOfInput | lp/lexer.py:63-65 | At the end of input every call gives `Token(EOF, '')` and leaves the cursor where it is |
| Lexing.EofOnlyAtEnd | lp/lexer.py:25-26 | EOF occurs in the stream only as its last token |
| Lexing.Cursors | lp/lexer.py:63-70 | The cursors before successive calls start where lexing starts and end at the end of input |
| Lexing.LexCursor | lp/lexer.py:18-55 | There is one cursor more than tokens. Call `k` starts at cursor `k`, returns token `k` and leaves cursor `k + 1` |
| Lexing.LexFromScans | lp/lexer.py:18-55 | The converse: calls that return given non-EOF tokens one after another, each from where the previous left the cursor, until only whitespace remains, lex to those tokens followed by EOF |
| Lexing.LexStep | lp/lexer.py:18-55 | A call that returns a token other than EOF puts it in front of the tokens the later calls return |
| Lexing.CursorsInRange | lp/lexer.py:63-70 | Every cursor lies between the starting cursor and the end of input |
| Lexing.IllegalAt | lp/lexer.py:50-53 | A character of no class met at the cursor comes back alone as ILLEGAL, and the cursor moves one past it |
| Lexing.IllegalCharactersExample | tests/lexer_test.py:12-27 | `¡¿@` lexes as three ILLEGAL tokens holding one character each, then EOF |
| Lexing.Lexer.Cursor | lp/lexer.py:10-16 | The abstract cursor lies within the input, and the current character is the one at it (empty at the end) |
| Lexing.Lexer.constructor | lp/lexer.py:10-16 | A new lexer satisfies the cursor invariant, with the cursor on the first character |
| Lexing.Lexer.ReadCharacter | lp/lexer.py:63-70 | The three fields either step one character on, or at the end set the empty character and keep both positions |
| Lexing.Lexer.SkipWhitespace | lp/lexer.py:88-90 | The cursor ends at the end of the whitespace run |
| Lexing.Lexer.ReadIdentifier | lp/lexer.py:72-78 | The cursor ends at the end of the letter run. The literal is the source slice up to where `position` stands, which drops the last letter at the end of input |
| Lexing.Lexer.ReadNumber | lp/lexer.py:80-86 | The same for a digit run |
| Lexing.Lexer.NextToken | lp/lexer.py:18-55 | The token returned and the new cursor are exactly what `Scan` gives for the old cursor |
| Parsing.RankOrder | lp/parser.py:22-29 | The precedence values run from 1 to 7 in declaration order and are distinct |
| Parsing.LexIsTokenStream | lp/parser.py:62-64 | The lexer's tokens end in EOF, and EOF occurs nowhere else |
| Parsing.LexerStream | lp/parser.py:39-42 | The stream the parser pulls from, and the lexer cursor before each pull, agree with `Scan` call by call |
| Parsing.Message | lp/parser.py:77-78 | The text of one diagnostic: `Se esperaba que el siguiente token fuera TokenType.<EXPECTED>, pero se obtuvo TokenType.<GOT>`, or (lines 117-118) `No se ha podido parsear <literal> como entero.` (definition; examples in `EmptyIntegerLiteral`) |
| Parsing.WrongTokenMessageExample | lp/parser.py:77-78 | The message for an INT where a name was expected names IDENT, then a comma, then INT |
| Parsing.Messages | lp/parser.py:80 | One message per diagnostic |
| Parsing.MessagesAppend | lp/parser.py:120 | Messages of concatenated diagnostics are the concatenated messages |
| Parsing.ReportInTurn | lp/parser.py:80 | Appending errors in turn leaves the same list as appending them at once |
| Parsing.IntegerSpec | lp/parser.py:110-124 | An INT token: its value when `int()` accepts the literal, else no expression and one diagnostic (definition; stated by `IntegerExpression`) |
| Parsing.ExpressionSpec | lp/parser.py:82-91 | Dispatch on the prefix table: an identifier, an integer, or nothing (definition; stated by `ExpressionKinds`) |
| Parsing.ExpressionKinds | lp/parser.py:82-91 | Only IDENT and INT start an expression. Any other kind gives nothing and no diagnostic. An identifier always parses, and no parsed expression comes with a diagnostic |
| Parsing.IntegerExpression | lp/parser.py:110-124 | An INT token parses if and only if its literal is a non-empty digit string, to its decimal value. Otherwise exactly one diagnostic names the literal |
| Parsing.IntegerRoundTrip | lp/parser.py:114-115 | A number written in decimal parses to itself |
| Parsing.EmptyIntegerLiteral | lp/parser.py:117-118 | The empty INT literal does not parse, and its message is `No se ha podido parsear  como entero.` |
| Parsing.NextSemicolon | lp/parser.py:141-142 | Where the skip loop stops: a `;` at or after its start and before the final EOF, or None when it never stops |
| Parsing.NextSemicolonOrEof | lp/parser.py:154-155 | Where the corrected loop stops: a `;` or EOF at or after its start |
| Parsing.NextSemicolonIsFirst | lp/parser.py:141-142 | The `;` found is the first from the start on. None means no `;` ever comes, even in the EOFs the lexer repeats |
| Parsing.NextSemicolonOrEofIsFirst | lp/parser.py:154-155 | Nothing the corrected loop passes is a `;` or EOF |
| Parsing.SkipAgrees | lp/parser.py:141-142 | Also stopping at EOF changes nothing where a `;` follows. Otherwise the corrected loop stops on EOF |
| Parsing.SkipFrom | lp/parser.py:154-155 | A skip loop never moves backwards |
| Parsing.LetSpec | lp/parser.py:126-144 | A `variable` statement as written: name, `=`, then the skip to `;` (definition; stated by `LetOutcome`) |
| Parsing.ReturnSpec | lp/parser.py:146-157 | A `regresa` statement as written: the skip to `;` (definition; stated by `ReturnOutcome`) |
| Parsing.ExpressionStatementSpec | lp/parser.py:93-103 | An expression statement: one expression, then an optional `;` (definition; stated by `ExpressionStatementOutcome`) |
| Parsing.StatementSpec | lp/parser.py:160-167 | A statement that ends leaves current at or after its first token, and before the final EOF |
| Parsing.LetOutcome | lp/parser.py:126-144 | `variable` gives a node if and only if IDENT, `=` and later a `;` follow. It then ends on the first such `;`, naming the identifier, with no value and no diagnostic. A missing name ends the statement on `variable` with the one diagnostic IDENT expected, the actual kind found. A missing `=` ends it on the name with the one diagnostic `=` expected, the actual kind found. Such a failure never hangs: the statement hangs exactly when the name and `=` are there and no `;` ever follows |
| Parsing.ReturnOutcome | lp/parser.py:146-157 | `regresa` ends if and only if a `;` follows. It then ends on the first `;`, with a node, no value and no diagnostic |
| Parsing.ExpressionStatementOutcome | lp/parser.py:93-103 | An expression statement is always produced and starts at its first token. It consumes the following `;` if and only if there is one |
| Parsing.ProgramSpec | lp/parser.py:48-59 | `parse_program` from an empty program and no errors (definition; stated by `ParseFrom`, `DivergesWithoutSemicolon` and `CorrectedParseHalts`) |
| Parsing.ParseFrom | lp/parser.py:48-59 | A program parse that ends stops with current on the final EOF |
| Parsing.ParseNext | lp/parser.py:52-57 | The same, for a loop turn that does not start on EOF |
| Parsing.Continue | lp/parser.py:53-57 | The same, after the statement parse of the turn |
| Parsing.FromStep | lp/parser.py:52-57 | Away from EOF, the parse is the statement at current followed by the rest of the loop |
| Parsing.ContinueAfter | lp/parser.py:53-57 | After a statement, the loop goes on from the token after its last one, with the node (if any) and its diagnostics added |
| Parsing.ResumeAfter | lp/parser.py:52-57 | One loop turn: the parse from a statement comes to the parse from the token after it |
| Parsing.ParseFromStep | lp/parser.py:52-57 | In a program parse that ends, no statement hangs |
| Parsing.DivergesWithoutSemicolon | lp/parser.py:141-155 | A program parse that never ends has met a `variable` or `regresa` statement with no `;` anywhere after it |
| Parsing.HangWithoutSemicolon | lp/parser.py:141-155 | A single statement parse hangs only on a `variable` or `regresa` token with no `;` at or after it |
| Parsing.AllExpectedAppend | lp/parser.py:80 | Diagnostic lists of the expected kinds stay so when concatenated |
| Parsing.DiagnosticsAreExpected | lp/parser.py:66-124 | The only diagnostics are a wrong kind after `variable` (IDENT expected) or after the name (`=` expected), and an INT literal that is not a digit string |
| Parsing.StatementDiagnosticsExpected | lp/parser.py:126-167 | The same for one statement |
| Parsing.CorrectedParseHalts | lp/parser.py:141-155 | With skip loops that also stop at EOF, every token stream is parsed to the end |
| Parsing.CorrectionAgrees | lp/parser.py:48-59 | Where the parse as written ends, the corrected one gives the same statements, diagnostics and end |
| Parsing.StatementCorrectionAgrees | lp/parser.py:126-157 | The same for one statement |
| Parsing.FirstStop | lp/parser.py:141-142 | A skip loop stops at the first `;` (or, corrected, EOF) after tokens that are neither |
| Parsing.ParserTestHangs | lp/parser.py:141-142 | The stream `variable x = <empty INT> EOF`: its parse as written never ends, and the corrected parse gives the one let-statement |
| Parsing.LetStatementExample | lp/parser.py:126-144 | The stream of `variable x = 5;` parses to one let-statement named `x` and no diagnostics |
| Parsing.LetStatementStep | lp/parser.py:126-144 | Its statement ends on the `;` |
| Parsing.ReturnThenExpression | lp/parser.py:146-167 | The stream of `regresa 5; foo ` gives a return statement and an expression statement without `;` |
| Parsing.MissingName | lp/parser.py:126-131 | The stream of `variable 5;` reports IDENT expected and INT found. Parsing resumes at `5`, which becomes an expression statement |
| Parsing.Parser.constructor | lp/parser.py:33-42 | Current and peek are the lexer's first two tokens, and the error list is empty |
| Parsing.Parser.AdvanceTokens | lp/parser.py:62-64 | Peek moves into current, the lexer supplies the next token, and the errors are unchanged |
| Parsing.Parser.ExpectedToken | lp/parser.py:66-73 | Advances and returns true if and only if peek has the expected kind. Otherwise it stays and appends one message naming both kinds |
| Parsing.Parser.ExpectedTokenError | lp/parser.py:75-80 | Appends the message naming the expected kind and the peek kind |
| Parsing.Parser.ParseExpression | lp/parser.py:82-91 | Gives the result of the prefix rule of the current kind, or None and no message when there is none |
| Parsing.Parser.ParseIdentifier | lp/parser.py:105-108 | An identifier holding the current token and its literal |
| Parsing.Parser.ParseInteger | lp/parser.py:110-124 | The literal's value, or None and one message naming the literal |
| Parsing.Parser.ParseExpressionStatement | lp/parser.py:93-103 | Follows `ExpressionStatementSpec`: node, position and appended messages |
| Parsing.Parser.ParseLetStatement | lp/parser.py:126-144 | Follows `LetSpec` as written |
| Parsing.Parser.SkipToSemicolon | lp/parser.py:141-142 | Stops on the first `;` and leaves the errors unchanged |
| Parsing.Parser.ParseReturnStatement | lp/parser.py:146-157 | Follows `ReturnSpec` as written |
| Parsing.Parser.ParseStatement | lp/parser.py:160-167 | Follows `StatementSpec`, dispatching on the current kind |
| Parsing.Parser.ParseProgram | lp/parser.py:48-59 | Collects exactly the statements `ProgramSpec` gives, in order. It stops on EOF at the position `ProgramSpec` gives and appends exactly its diagnostics' messages |
| Builtins.Length | lp/builtins.py:17-26 | The result is an Integer or an Error. It is an Integer if and only if there is exactly one String argument, and then it is the string's length. Any other count gives the wrong-number message with the received count and 1, checked before the kind. A single non-String gives the unsupported message naming its kind |
| Builtins.RegistryHoldsLength | lp/builtins.py:28-30 | The registry has the one key `longitud`, bound to a Builtin whose call is `longitud` |
| Builtins.TypeNameInjective | lp/builtins.py:25 | Different kinds have different names |
| Builtins.CommaAfterDigits | lp/builtins.py:14 | In a rendered count followed by `, se requieren`, the first comma (`IndexOf`) comes right after the count |
| Builtins.WrongNumberOfArguments | lp/builtins.py:14 | The wrong-number message with both counts rendered in decimal, as `.format` fills it at line 19 (definition; stated by `WrongNumberInjective`) |
| Builtins.UnsupportedArgument | lp/builtins.py:15 | The unsupported-argument message with the kind's name, as `.format` fills it at line 25 (definition; stated by `ErrorsDiffer`) |
| Programs.LexLetWithoutSemicolon | tests/parser_test.py:10 | `variable x = 5` lexes to `variable`, `x`, `=`, an INT with the empty literal (the trailing 5 is lost) and EOF |
| Programs.ParseLetWithoutSemicolon | tests/parser_test.py:10-14 | `parse_program` on `variable x = 5` never returns. With the corrected skip it gives the one let-statement named `x` and no diagnostics |
| Programs.LexLetStatement | lp/lexer.py:18-55 | `variable x = 5;` lexes to `variable`, `x`, `=`, `5`, `;` and EOF |
| Programs.ParseLetStatement | lp/parser.py:48-59 | `variable x = 5;` parses to one let-statement named `x`, without its value, and no diagnostics |
| Programs.LexMissingName | lp/lexer.py:18-55 | `variable 5;` lexes to `variable`, `5`, `;` and EOF |
| Programs.ParseMissingName | lp/parser.py:126-131 | `variable 5;` gives the diagnostic IDENT expected, INT found, and the expression statement `5` |
| Programs.LexReturnThenName | lp/lexer.py:18-55 | `regresa 5; foo ` lexes to `regresa`, `5`, `;`, `foo` and EOF. The trailing space keeps `foo` whole |
| Programs.ParseReturnThenName | lp/parser.py:146-167 | `regresa 5; foo ` gives a return statement without its value and an expression statement without `;`, and no diagnostics |
| Builtins.WrongNumberInjective | lp/builtins.py:14-19 | Two wrong-number messages with the same required count agree if and only if the received counts do |
| Builtins.ErrorsDiffer | lp/builtins.py:14-15 | No wrong-number message equals an unsupported-argument message |
| Builtins.ErrorsIdentifyTheCall | lp/builtins.py:17-25 | Two failed calls give the same Error if and only if both have the same wrong count, or both have one argument of the same kind |
| Builtins.OneArgumentExamples | lp/builtins.py:20-25 | `longitud("abc")` is 3, and `longitud(5)` is the Error `...se recibio INTEGER` |
| Builtins.NoArgumentExample | lp/builtins.py:18-19 | `longitud()` reports 0 received and 1 required |
| Builtins.TwoStringsExample | lp/builtins.py:18-20 | Two strings give the wrong-number Error: the count is checked first |

## Left out

- `lp/repl.py` is not part of this model. It handles interactive input and output, the exit and clear commands and screen clearing.
- The evaluator, the object model (`lp/object.py`) and the syntax tree module (`lp/ast.py`) are not part of this model. The nodes and objects have only the shapes the parser and `longitud` build or receive. Rendering a program back to text is left out.
- The name `longitud` prints for an argument's kind comes from `lp/object.py`. That file is not part of this model, so the names are taken to be the enumeration member names `BOOLEAN`, `BUILTIN`, `ERROR`, `FUNCTION`, `INTEGER`, `NULL`, `RETURN` and `STRING`.
- A user-defined function object keeps only its kind. Its parameters, body and environment do not matter to `longitud`.
- Python's Unicode `\s` and `\d` are modelled as the ASCII sets named above. Other Unicode spaces and digits are not modelled.
- Python's `int()` is modelled only on what the lexer can produce: a possibly empty run of ASCII digits. Signs, underscores and surrounding spaces never occur. The interpreter's limit on converting very long digit strings (Python 3.11 and later refuse more than 4300 digits by default, so `_parse_integer` would report such a literal as not an integer) is not modelled: `Numerals.ParseInt` accepts every non-empty digit string.
- Parsing.Parser.ParseProgram: requires that the parse as written ends, that is, no `variable` or `regresa` statement lacks a later `;`. The loop that never ends cannot be a terminating method. The hang is stated on the specification instead, by `ParseFrom` giving `Diverges`.
- Parsing.Parser.ParseLetStatement: requires that the statement's parse ends, for the same reason.
- Parsing.Parser.ParseReturnStatement: requires that the statement's parse ends, for the same reason.
- Parsing.Parser.ParseStatement: requires that the statement's parse ends, for the same reason.
- Parsing.Parser.SkipToSemicolon: requires that a `;` follows, for the same reason.
- The parser's infix table is left out. The source registers it empty (lp/parser.py:169-170), so no infix operator is ever consumed and the model has no infix step. The prefix table is the constant map `PrefixRules`, and the parse functions it holds are the methods above.
- The precedence argument of expression parsing is accepted and unused, as in the source.
- The parser's `tokens`, `cursors` and `index` fields are ghost bookkeeping. They relate the lexer's state to the stream `Lex` describes, and the source has no such fields.

## Findings

| source | as written | input that shows it | evidently intended | confidence | as-written member | corrected member |
|---|---|---|---|---|---|---|
| lp/parser.py:141-155 | The skip loops of `variable` and `regresa` advance until current is `;`, and never test for EOF. The lexer returns EOF forever, so without a later `;` the parse never ends | `variable x = 5` (tests/parser_test.py:10), which lexes to `variable x = <empty INT> EOF` | The loops also stop at EOF, so every input is parsed to the end | not executed | Programs.ParseLetWithoutSemicolon | Parsing.CorrectedParseHalts |
