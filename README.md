# Milt scanner, modelled in Dafny

Milt is a small programming language written in C#. At present its
implementation is a scanner, plus a driver that reads a file and can log a
debug dump of the tokens. This project models:

- the scanner (`Parsing/Lexer.cs`);
- the driver's helpers (`Milt.cs`): the error flag, the byte/character
  conversions and the code reconstruction dump.

It proves properties of those models.

The model has six modules:

- `Tokens`: the closed vocabulary.
  - Token kinds, in the same order as the C# enum.
  - Literal values.
  - The token record.
  - The keyword dictionary, as its list of entries, with a lookup. Lemmas
    prove that the table is a valid dictionary and that its kinds are
    distinct.
- `Scanning`: a pure reference scanner with one character of lookahead.
  - `ScanStep` is one turn of the main loop (one lexeme).
  - `Scan` runs turns to the end of the text.
  - `Tokenize` and `ScanErrors` give the whole token list and the whole
    list of reported errors.
- `Lexer`: the scanner as the source writes it.
  - A class with the source's cursor fields: `currentLexemeStart`,
    `currentIndex`, `currentLine`, plus the token list.
  - Methods that advance the cursor one character at a time. Each method
    is proved to do what the reference function for its part of the scan
    prescribes. `Lex` is proved to return `Tokenize(text)` and to report
    exactly `ScanErrors(text)`.
  - The runtime's `Trim` on strings, which the string literal uses.
- `ScanProperties`: what holds of every scan.
  - Per-turn shapes: operators with `=`, comments, the lone slash,
    terminated and unterminated strings, maximal munch for numbers,
    keyword resolution, and unexpected characters.
  - Whole-pass facts:
    - the end-of-input token comes last and only once, with an empty
      lexeme;
    - every other lexeme is a non-empty slice of the source, and the
      slices are in order and do not overlap;
    - the lexemes, with the skipped text between them, reassemble the
      source, and when nothing is reported the skipped text is only white
      space, line terminators and comments;
    - line numbers count the line terminators before each token.
- `Milt`:
  - `ErrorLog`: the `hadError` flag, with the console lines it stands for
    kept as a sequence.
  - A one-byte-per-character codec, with its round trips.
  - The reconstruction dump, proved to be the header followed by each
    token's piece in order.
- `Sequences`: two sequence lemmas.

Where the documentation and the code disagree, the model follows the code:

- **Lines count from 0.** `Lex` resets `currentLine` to 0
  (`Parsing/Lexer.cs:114`); the field initializer's 1 is never used by a
  scan. The first line is line 0.
- **An integer literal is stored as a `float`.** At `Parsing/Lexer.cs:210`
  the conditional has type `float`, since C# converts `int` to `float`
  implicitly. The value is exact up to 2^24 and rounded to the nearest
  `float` above it: `123456789` is stored as 123456792.
- **A token's line is the line at the end of its lexeme.** `AddToken`
  stamps the current line, so a multi-line string literal carries the line
  of its closing quote, not of its opening one. The same line counter goes
  with the unterminated-string error.

## Model

| member | source | states |
|---|---|---|
| Tokens.TokenType | Parsing/Lexer.cs:31-80 | the token kinds of the C# enum, in the same order (a type) |
| Tokens.Literal | Parsing/Lexer.cs:11 | the untyped `value` field as a tagged value: none, the integer a `float` holds, a decimal lexeme, or a string (a type) |
| Tokens.Token | Parsing/Lexer.cs:7-23 | the token record: kind, lexeme, value, line (a type) |
| Tokens.Keywords | Parsing/Lexer.cs:92-107 | the keyword dictionary's thirteen entries, in the order written (a constant) |
| Scanning.EntryLine | Parsing/Lexer.cs:114 | the line counter's value at the start of a scan, 0 (a constant) |
| Milt.Header | Milt.cs:87 | the header the dump starts with (a constant) |
| Tokens.Lookup | Parsing/Lexer.cs:191 | `TryGetValue` on the table, as the value of the first entry with the word as key (a definition; see the two lemmas below) |
| Tokens.LookupFindsEntry | Parsing/Lexer.cs:191-192 | the dictionary lookup finds a value exactly when some entry has the word as its key; with distinct keys the value is that entry's |
| Tokens.LookupGivesEntryValue | Parsing/Lexer.cs:191-192 | a value found by the lookup is the value of some entry |
| Tokens.KeywordsAreDistinct | Parsing/Lexer.cs:92-107 | the thirteen reserved words are pairwise different (a valid dictionary) and map to pairwise different kinds |
| Tokens.KindOfWord | Parsing/Lexer.cs:191-192 | a word resolves to `Ident` or to a reserved-word kind, never to anything else |
| Tokens.KindOfWordFollowsTable | Parsing/Lexer.cs:92-107 | a reserved word resolves to its table kind; a word that is no key resolves to `Ident` |
| Tokens.Spelling | Parsing/Lexer.cs:92-107 | each reserved-word kind has an entry in the table, whose key is the spelling returned |
| Tokens.KeywordTableIsInjective | Parsing/Lexer.cs:92-107 | resolving a reserved word and spelling the kind gives back the word |
| Scanning.IsDigit | Parsing/Lexer.cs:176 | the ASCII digits, standing for `char.IsDigit` (a definition, no contract) |
| Scanning.IsLetter | Parsing/Lexer.cs:178 | the ASCII letters, standing for `char.IsLetter` (a definition, no contract) |
| Scanning.IsAlphaNumeric | Parsing/Lexer.cs:272-275 | letters, digits and `_` continue an identifier; the end sentinel `\0`, a line terminator, a quote and `.` do not |
| Scanning.Continues | Parsing/Lexer.cs:158-216 | the conditions of the four scanning loops: a digit (lines 199 and 207), an identifier character (189), anything but a line terminator (158), anything but a quote (216) (a definition, no contract) |
| Scanning.SpanEnd | Parsing/Lexer.cs:189 | the end of the loop that eats characters of one class, which lies between the start and the end of the text |
| Scanning.SpanEndIsMaximal | Parsing/Lexer.cs:199 | every character before that end belongs to the run, and the one at the end, if any, does not |
| Scanning.Newlines | Parsing/Lexer.cs:216-220 | the count of line terminators in a slice, at most its length |
| Scanning.DigitsValue | Parsing/Lexer.cs:210 | the decimal value of the first digits of a string, most significant first; never negative when they are all digits |
| Scanning.DecimalValue | Parsing/Lexer.cs:210 | what `int.Parse` gives for a lexeme of digits: its decimal value, never negative |
| Scanning.Spacing | Parsing/Lexer.cs:210 | the gap between neighbouring `float` values at a magnitude: 1 below 2^24, doubling with each power of two above, never below 1 |
| Scanning.Spacings | Parsing/Lexer.cs:210 | round to nearest, ties to even, counted in spacings (a definition, no contract) |
| Scanning.SingleOf | Parsing/Lexer.cs:210 | the conversion of an `int` to `float`, as the integer the `float` holds (a definition; see the three lemmas below) |
| ScanProperties.SmallIntegersAreExact | Parsing/Lexer.cs:210 | every integer of magnitude at most 2^24 converts to `float` unchanged |
| ScanProperties.SingleOfIsNearest | Parsing/Lexer.cs:210 | the converted value is a multiple of the spacing at the integer's magnitude and lies within half a spacing of the integer |
| ScanProperties.LargeIntegersRound | Parsing/Lexer.cs:210 | above 2^24 the conversion rounds: 123456789 becomes 123456792, and 2^24 + 1, a tie, goes to the even 2^24 |
| Scanning.SingleCharKind | Parsing/Lexer.cs:132-149 | the sixteen one-character cases of the switch and their kinds (a definition, no contract) |
| Scanning.OperatorKinds | Parsing/Lexer.cs:151-154 | the four characters that may take `=`, each with its kind alone and its kind with `=` (a definition, no contract) |
| ScanProperties.CasesAreDisjoint | Parsing/Lexer.cs:130-183 | a one-character case is no operator, slash, whitespace, line terminator, quote, digit or letter, and an operator is none of the latter; so testing the cases in turn agrees with the switch |
| Scanning.HasFraction | Parsing/Lexer.cs:203 | a `.` continues a number only when a digit follows it (a definition, no contract) |
| Scanning.StringStep | Parsing/Lexer.cs:214-234 | a string literal consumes at least its quote; a token, when one is made, is the consumed slice, on the line reached, with no error |
| Scanning.NumberEnd | Parsing/Lexer.cs:197-208 | the end of a number lies within the text |
| Scanning.NumberStep | Parsing/Lexer.cs:197-212 | a number consumes at least its first digit, makes exactly one token and no error, and leaves the line unchanged; an integer is stored converted to `float` |
| Scanning.WordStep | Parsing/Lexer.cs:187-195 | an identifier consumes at least its first letter, makes exactly one token and no error, and leaves the line unchanged |
| Scanning.ScanStep | Parsing/Lexer.cs:127-185 | one turn of the main loop consumes at least one character and produces a token or an error, never both; a token is the consumed slice on the turn's final line and is never end-of-input |
| Scanning.Scan | Parsing/Lexer.cs:116-121 | the loop to the end of the text gives one span for each token, and no more tokens and errors together than characters left |
| Scanning.Tokenize | Parsing/Lexer.cs:109-125 | the token list of a whole text is never empty, ends with the end-of-input token, and has at most one token per character plus that one |
| Scanning.ScanErrors | Parsing/Lexer.cs:109-125 | the errors of a whole text, in order; together with the tokens before end-of-input they are at most one per character |
| Scanning.ScanUnfolds | Parsing/Lexer.cs:116-121 | (proof helper: unfolding) the pass is the first turn's token and error, then the rest of the pass |
| ScanProperties.SpanEndAt | Parsing/Lexer.cs:189 | a run's end is the first position whose character does not continue it |
| ScanProperties.NewlinesSplit | Parsing/Lexer.cs:218 | line terminators counted over adjacent slices add up |
| ScanProperties.NoNewlines | Parsing/Lexer.cs:218 | a slice without a line terminator counts zero |
| ScanProperties.RunHasNoNewlines | Parsing/Lexer.cs:158 | digit, identifier and comment runs hold no line terminator |
| ScanProperties.QuotedNewlines | Parsing/Lexer.cs:216-220 | the line terminators a string literal passes over are those in its text |
| ScanProperties.NumberHasNoNewlines | Parsing/Lexer.cs:197-208 | a number holds no line terminator |
| ScanProperties.StepLine | Parsing/Lexer.cs:169 | after any turn the line counter has moved by exactly the number of line terminators consumed |
| ScanProperties.ShortStepLine | Parsing/Lexer.cs:132-169 | the same for punctuation, operators, comments, whitespace and unexpected characters |
| ScanProperties.CommentStepLine | Parsing/Lexer.cs:156-158 | the same for a comment |
| ScanProperties.ShortNewlines | Parsing/Lexer.cs:169 | the line-terminator count over one or two characters |
| ScanProperties.LiteralStepLine | Parsing/Lexer.cs:171-179 | the same for string, number and identifier turns |
| ScanProperties.StringStepLine | Parsing/Lexer.cs:216-220 | a string literal moves the line counter by the line terminators it consumes |
| ScanProperties.NumberStepLine | Parsing/Lexer.cs:197-212 | a number moves the line counter by the line terminators it consumes (none) |
| ScanProperties.WordStepLine | Parsing/Lexer.cs:187-195 | an identifier moves the line counter by the line terminators it consumes (none) |
| ScanProperties.OperatorLookahead | Parsing/Lexer.cs:151-154 | `!`, `=`, `<` and `>` make their two-character kind exactly when `=` follows and their one-character kind otherwise, consuming two or one characters |
| ScanProperties.CommentSkipsLine | Parsing/Lexer.cs:156-158 | `//` emits nothing, reports nothing, keeps the line, and stops at the next line terminator (left unconsumed) or at the end |
| ScanProperties.LoneSlash | Parsing/Lexer.cs:159-160 | a slash not followed by a slash is the one-character `Slash` token |
| ScanProperties.TerminatedString | Parsing/Lexer.cs:214-234 | a literal closed by the first quote after it is one `String` token: the lexeme runs to and including the closing quote, the value is the text between the quotes, the line counts the terminators inside |
| ScanProperties.StringClosedAt | Parsing/Lexer.cs:228-233 | (proof helper: unfolding) the terminated branch of the string turn, for a closing quote given as the end of the text run |
| ScanProperties.UnterminatedString | Parsing/Lexer.cs:222-226 | a literal with no closing quote consumes the rest of the input, makes no token and reports "Unterminated string." on the line reached |
| ScanProperties.StringOpenAt | Parsing/Lexer.cs:222-226 | (proof helper: unfolding) the unterminated branch of the string turn, for a text run that reaches the end of the input |
| ScanProperties.NumberEndShape | Parsing/Lexer.cs:199-208 | a number's integer part is the longest digit run; a `.` belongs to it only with a digit after it, and then the fraction is the longest digit run after the `.` |
| ScanProperties.NumberMaximalMunch | Parsing/Lexer.cs:197-212 | a number token ends where no digit follows, is never followed by `.` and then a digit, and carries the `float` conversion of the decimal value of its digits, or its text when it has a fraction |
| ScanProperties.WordToken | Parsing/Lexer.cs:187-195 | an identifier is the longest run of letters, digits and `_`; its kind is its table kind for a reserved word and `Ident` otherwise |
| ScanProperties.UnexpectedCharacter | Parsing/Lexer.cs:180-181 | any other character is consumed alone, makes no token, and reports "Unexpected Character 'c'" on the current line |
| ScanProperties.StepReportsError | Parsing/Lexer.cs:175-181 | a turn reports an error exactly for an unexpected character and for a string literal that is never closed |
| ScanProperties.ScanConses | Parsing/Lexer.cs:116-121 | (proof helper: unfolding) the pass from a position is the first turn's token and span in front of the rest |
| ScanProperties.SpanAt | Parsing/Lexer.cs:267-270 | the k-th token of a pass is the non-empty slice of the source its span names, within the text from the start position on |
| ScanProperties.TokenLineAt | Parsing/Lexer.cs:277-281 | the k-th token's line is the starting line plus the line terminators before the end of its lexeme |
| ScanProperties.NoEofAt | Parsing/Lexer.cs:127-185 | no token of the main loop is end-of-input |
| ScanProperties.SpansFitOrdered | Parsing/Lexer.cs:116-121 | the spans of a pass are in source order and do not overlap |
| ScanProperties.ReassembleFront | Parsing/Lexer.cs:267-270 | a lexeme in front of a reassembled rest reassembles the longer text |
| ScanProperties.ReassembleSkipped | Parsing/Lexer.cs:156-167 | skipped text in front of a reassembled rest reassembles the longer text |
| ScanProperties.ScanReassembles | Parsing/Lexer.cs:116-121 | the lexemes of a pass are the slices of the text their spans name, so with the source text between the spans they give back the text from the start position on; what that text is, `ScanSkipsBlank` says |
| ScanProperties.TokenizeReassembles | Parsing/Lexer.cs:109-125 | the same for a whole scan: the lexemes, with the source text between their spans, are the source text |
| ScanProperties.IsBlank | Parsing/Lexer.cs:164-169 | the characters a turn skips alone: space, carriage return, tab and the line terminator (a definition, no contract) |
| ScanProperties.IsComment | Parsing/Lexer.cs:156-158 | a comment: `//`, then text without a line terminator, ending before a line terminator or at the end (a definition, no contract) |
| ScanProperties.Blank | Parsing/Lexer.cs:156-169 | text made of blanks, line terminators and comments only (a definition, no contract) |
| ScanProperties.GapsBlank | Parsing/Lexer.cs:116-121 | every text between the spans, and after the last, is blank (a definition, no contract) |
| ScanProperties.SilentTurn | Parsing/Lexer.cs:156-169 | a turn that makes neither token nor error consumed exactly one blank character or exactly one comment |
| ScanProperties.LiteralTurnSpeaks | Parsing/Lexer.cs:171-179 | a turn on a quote, a digit or a letter always makes a token or an error |
| ScanProperties.BlankConcat | Parsing/Lexer.cs:156-169 | blank text followed by blank text is blank |
| ScanProperties.GapsBlankEarlier | Parsing/Lexer.cs:116-121 | blank text in front of blank gaps leaves the gaps blank |
| ScanProperties.ScanSkipsBlank | Parsing/Lexer.cs:116-121 | a pass that reports no error skips nothing but white space, line terminators and comments: all text outside the spans is blank |
| ScanProperties.TokenizeSkipsOnlyBlank | Parsing/Lexer.cs:109-125 | a source that scans without errors is its tokens' lexemes, in order, with only white space, line terminators and comments between and after them |
| ScanProperties.ScanEndLine | Parsing/Lexer.cs:116-123 | the line counter at the end of a pass has moved by the number of line terminators passed over |
| ScanProperties.TokenizeEndsWithEof | Parsing/Lexer.cs:123-124 | the token list ends with exactly one end-of-input token: empty lexeme, no value, on line 0 plus the number of line terminators; no other token has that kind |
| ScanProperties.TokenizeLexemes | Parsing/Lexer.cs:109-125 | every other token's lexeme is a non-empty slice of the source, and the slices are in order without overlap |
| ScanProperties.TokenizeLines | Parsing/Lexer.cs:114 | each token's line is 0 plus the number of line terminators before the end of its lexeme |
| ScanProperties.TokenizeDumpIsPiecewise | Milt.cs:85-114 | every opening brace the scanner makes has text, so the dump of a scanned list is the header followed by each token's piece |
| ScanProperties.IntegerThenPeriod | Parsing/Lexer.cs:203 | `1.` scans as the integer 1, then a period, then end-of-input |
| ScanProperties.QuotedText | Parsing/Lexer.cs:214-234 | `"abc"` scans as one `String` token valued `abc`, then end-of-input, with nothing reported |
| ScanProperties.OpenQuote | Parsing/Lexer.cs:222-226 | `"abc` without a closing quote gives end-of-input alone and reports "Unterminated string." on line 0 |
| ScanProperties.WholeWordResolution | Parsing/Lexer.cs:191-192 | `if` resolves to its keyword kind, `iffy` to `Ident` |
| ScanProperties.CommentThenWord | Parsing/Lexer.cs:156-169 | a comment line and then `x` give one `Ident` token `x` on line 1, then end-of-input on line 1 |
| Lexer.Lexer.constructor | Parsing/Lexer.cs:85-90 | the initial state: empty token list, cursor at 0, line 1; the source field, null in C#, is the empty text here |
| Lexer.Lexer.Lex | Parsing/Lexer.cs:109-125 | the result and the token list are the reference token list of the text; the cursor ends at the end of the text and the line counter at 0 plus its line terminators; the log gains exactly the reference errors, in order, and its flag ends set exactly when it was set before or an error was reported |
| Lexer.Lexer.EatToken | Parsing/Lexer.cs:127-185 | one turn moves the cursor and the line counter as the reference turn does, appends its token and reports its error |
| Lexer.Lexer.SkipComment | Parsing/Lexer.cs:158 | the comment loop stops at the first line terminator or at the end |
| Lexer.Lexer.HandleIdentifier | Parsing/Lexer.cs:187-195 | reads the identifier as the reference word turn does and appends its token |
| Lexer.Lexer.HandleNumber | Parsing/Lexer.cs:197-212 | reads the number (with its fraction only when a digit follows the `.`) and appends the token with the `float` conversion of the integer value, or the decimal text |
| Lexer.Lexer.SkipDigits | Parsing/Lexer.cs:199 | the digit loop stops at the end of the longest digit run |
| Lexer.Lexer.HandleString | Parsing/Lexer.cs:214-234 | reads up to the closing quote, counting line terminators; appends the `String` token whose value is the text between the quotes, or for a missing quote reports "Unterminated string." on the line reached and appends nothing |
| Lexer.Lexer.CloseString | Parsing/Lexer.cs:228-233 | takes the closing quote and appends the token, whose value is the lexeme with its quotes trimmed, which is exactly the text between them |
| Lexer.Lexer.SkipStringText | Parsing/Lexer.cs:216-220 | the string loop stops at the next quote or at the end, having counted every line terminator it passed |
| Lexer.Lexer.AtEnd | Parsing/Lexer.cs:236-239 | true exactly when the cursor is at the end of the source |
| Lexer.Lexer.MatchNext | Parsing/Lexer.cs:241-248 | consumes one character exactly when there is one and it is the expected one; says whether it did |
| Lexer.Lexer.EatChar | Parsing/Lexer.cs:250-253 | returns the character under the cursor and moves one on |
| Lexer.Lexer.CurrentChar | Parsing/Lexer.cs:255-259 | the character under the cursor, or `\0` at the end, which is neither a digit nor an identifier character |
| Lexer.Lexer.PeekChar | Parsing/Lexer.cs:261-265 | the character after the cursor, or `\0`, which is not a digit, when there is none |
| Lexer.Lexer.CurrentLexeme | Parsing/Lexer.cs:267-270 | the slice from the lexeme start to the cursor |
| Lexer.Lexer.AddToken | Parsing/Lexer.cs:277-281 | appends one token: the given kind and value, the current lexeme, the current line |
| Lexer.SkipLeading | Parsing/Lexer.cs:232 | the first position from the start that does not hold the trimmed character |
| Lexer.SkipTrailing | Parsing/Lexer.cs:232 | the end left after the trailing trimmed characters are dropped, never below the left cut |
| Lexer.Trim | Parsing/Lexer.cs:232 | `string.Trim(char)`: the text between the leading and the trailing runs of the character (a definition; see `TrimCutsRuns`) |
| Lexer.TrimCutsRuns | Parsing/Lexer.cs:232 | `Trim` keeps a slice of its input; what it cuts off holds only the trimmed character, and a non-empty result neither starts nor ends with it |
| Lexer.LeadingRun | Parsing/Lexer.cs:232 | everything skipped from the left is the trimmed character, and the character at the cut is not |
| Lexer.TrailingRun | Parsing/Lexer.cs:232 | everything skipped from the right is the trimmed character, and the character left last is not |
| Lexer.TrimQuoted | Parsing/Lexer.cs:232 | trimming the quotes off a scanned literal's lexeme leaves exactly the text between them, since that text holds no quote |
| Lexer.StringTurn | Parsing/Lexer.cs:171 | what `HandleString` does is the reference turn for a quote |
| Lexer.NumberTurn | Parsing/Lexer.cs:176-177 | what `HandleNumber` does is the reference turn for a digit |
| Milt.ErrorLog.constructor | Milt.cs:12 | the flag starts cleared, with nothing reported |
| Milt.ErrorLog.Error | Milt.cs:116-120 | sets the flag and records one report with the line and the message; the flag is set exactly when something has been reported |
| Milt.CharOf | Milt.cs:68 | a byte becomes the character with that code |
| Milt.ByteOf | Milt.cs:79 | a character becomes the low eight bits of its code, which is the code itself when that is below 256 |
| Milt.Decode | Milt.cs:63-72 | one character per byte, with each character's code equal to its byte |
| Milt.Encode | Milt.cs:74-83 | one byte per character, with each byte the low eight bits of its character's code |
| Milt.EncodeDecode | Milt.cs:63-83 | encoding decoded bytes gives back the bytes |
| Milt.DecodeEncode | Milt.cs:63-83 | decoding encoded text gives it back exactly when every character's code is below 256 |
| Milt.BytesToString | Milt.cs:63-72 | the loop builds the decoding of the array's bytes |
| Milt.StringToBytes | Milt.cs:74-83 | the loop fills a fresh array with the encoding of the text |
| Milt.Insert | Milt.cs:107 | `string.Insert`: the text before the position, the piece, then the rest of the text |
| Milt.Separator | Milt.cs:93-104 | the layout after a token: a space after `Ident`, `Func` and `Return`, a line break after `BraceRight` and `Semicolon`, nothing after the others (a definition, no contract) |
| Milt.Render | Milt.cs:90-110 | one step of the dump never shortens the text |
| Milt.Dump | Milt.cs:85-114 | the dump never shortens its starting text |
| Milt.RenderAppendsPiece | Milt.cs:90-110 | when an opening brace has text, one step appends exactly the token's piece: its lexeme and layout, with the break before the brace's last character |
| Milt.DumpIsPiecewise | Milt.cs:85-114 | when every opening brace has text, the dump is the starting text followed by every token's piece in list order, so the starting text is never altered |
| Milt.Reconstruction | Milt.cs:85-114 | the dump of a token list after the header (a definition; see `ReconstructionIsPiecewise`) |
| Milt.ReconstructionIsPiecewise | Milt.cs:85-114 | the reconstruction starts with its header, then holds each token's piece in list order |
| Milt.ReconstructCode | Milt.cs:85-114 | the loop computes the reconstruction of the token list |

## Left out

- `Main` and everything it does is left out: argument checks, exit codes, file
  reading and writing, the `-l` log and `Token.ToString`.
- Console output: `Error` writes one console line per report; the model
  records the reported `(line, message)` pairs in `ErrorLog.reported`.
- The token list of the source is one static list, which `Lex` clears and
  refills. A list returned by an earlier call is therefore changed by the
  next call. Here each call returns its own value, and that aliasing is not
  modelled.
- `Lexer.Lexer.HandleNumber`: `float.Parse` is not modelled, since the model
  has no floating point. A decimal number keeps its lexeme as its value.
- `Lexer.Lexer.HandleNumber`: `int.Parse` throws on an integer literal above
  2147483647, and that overflow exception is not modelled. Such a literal
  gets the `float` conversion of its unbounded decimal value instead.
- `Scanning.NumberStep`: the same two gaps as `HandleNumber`: a decimal
  number's value is its lexeme, not the parsed `float`, and an integer
  literal too large for `int` is not an exception.
- `ScanProperties.NumberMaximalMunch`: the same two gaps; its value clauses
  speak of the lexeme for a decimal number and of the unbounded integer
  before conversion.
- The source stores every number as a boxed `float`, with no tag saying
  whether it had a fraction. The model's literal is tagged: `WholeValue`
  holds the integer that the `float` of an integer literal represents
  exactly, and `FloatValue` holds a decimal lexeme.
- `Scanning.IsAlphaNumeric`: `char.IsDigit`, `char.IsLetter` and
  `char.IsLetterOrDigit` are Unicode classes. The model uses their ASCII
  subsets, so a non-ASCII letter or digit is treated as an unexpected
  character here.
- `Milt.Encode`: C# strings are sequences of UTF-16 code units, and the
  model's are sequences of Unicode scalar values. A character above U+FFFF
  is two code units in C#, so `StringToBytes` gives two bytes for it, where
  the model gives one. A lone surrogate, which a C# string may hold, is no
  Dafny character at all. The two agree on text whose characters are all
  below U+10000 and are not surrogates. The driver only encodes text that
  it decoded from bytes, whose characters are all below 256.
- The C# `source` field starts out null. The model starts it as the empty
  text, since nothing reads it before `Lex` assigns it.
- The `switch` of `EatToken` is written as two table lookups: one for the
  one-character kinds, one for the operators that may take `=`. A `match`
  handles the rest. Every case has the same effect as in the source.
- The keyword `Dictionary` is its list of entries with a first-match lookup.
  Its keys are proved distinct, so the order does not matter.
- Each loop of the source is a method of its own: `SkipComment`,
  `SkipDigits` (used twice by `HandleNumber`) and `SkipStringText`.
  `CloseString` is the last three statements of `HandleString`.
- `TokenType.Error` is declared but never produced, as in the source.
