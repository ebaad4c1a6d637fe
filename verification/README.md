# A verified model of a toy-language front end

The system is a two-stage front end for a tiny language. Its first stage, `Lexer.py`, is a
priority-ordered regular-expression lexer. It strips the source text and tries fifteen
(pattern, category) rules in table order against the start of what is left. The first rule
that matches produces a `(lexeme, category)` token and lexing continues on the stripped text
after it. When no rule matches, one character is dropped. The tokens are written to a token
file, one line `lexeme: CATEGORY` each.

The second stage, `Parser.py`, reads the token file back. It splits each stripped line on
`": "` and parses the tokens by recursive descent:

    program              -> assignment_statement print_statement
    assignment_statement -> identifier "=" expression
    print_statement      -> "print" expression
    expression           -> identifier | number | "(" expression ")"

It prints the resulting tree with two spaces of indentation per level, or reports a
`ParseError`.

The model is a set of pure functions over immutable data:

- `Chars`: the character classes `\s`, `\d`, `\w` on ASCII, greedy runs, and Python's `strip`.
- `Lexer`: the rule table and one hand-written matcher per regular expression. It gives the
  winning rule (`FirstRule`, `NextToken`) and `Tokenize`. `TokenizeLoop` is the imperative
  loop of the source, proved equal to `Tokenize`.
- `LexerProperties`: which rule wins on which text, and the shape of every lexeme. It also
  proves that dropped characters leave no trace and that the lexemes occur in the text in
  order and do not overlap.
- `TokenCodec`: the line `lexeme: CATEGORY` and Python's `str.split(": ")` with its partner
  `join`. It covers reading the file line by line with universal newlines, and the unpacking
  of each line into two values with its two ValueErrors. It proves the round trip of one
  line and of a whole token file, and exactly when they fail.
- `Parser`: `Token`, its `__repr__`, the tree, and each procedure of the `Parser` class. Each
  procedure is a function from the tokens and the cursor to the tree and the new cursor, or
  to the exception raised. A `ParseError` with its exact message is kept apart from the
  IndexError of reading past the end.
- `ParserProperties`: a declarative description of the accepted token sequences. Every
  expression is an atom inside `k` pairs of parentheses, and a program is of a fixed form.
  Both directions are proved against the procedures, together with what follows from them.
- `TreePrinter`: `print_tree` as the list of lines it prints.
- `Pipeline`: both main blocks, with the token file as the string one side writes and the
  other reads. This gives what `Parser.py` prints, or the exception that escapes it.
- `LexerExamples`, `ParserExamples`, `TreePrinterExamples`: concrete programs worked through
  each stage. Their lemmas follow from the general ones.

Things the code does that are easy to misread:

- The identifier rule `[a-zA-Z_][\w\s]*` swallows the spaces, digits and line breaks that
  follow a name. So `x = 5` lexes to `"x "`, `=`, `5`. `x 5` is a single identifier, and in
  `x = y print y` the keyword disappears into the identifier `"y print y"`. The grammar
  comment at the top of `Parser.py` (`[a-zA-Z_][a-zA-Z0-9_]*`) does not describe this lexer.
  The model follows the rule as written.
- Input that ends in the middle of a statement (`x = (5`, or an assignment with no print
  statement) makes the parser index past the end of its token list. That is Python's
  IndexError, not a `ParseError`. The main block catches only `ParseError`, so the
  IndexError escapes.
- The checks for `=`, `print` and `)` compare the lexeme only. The parser never checks that
  the input ends after the print statement.
- A lexeme that holds `": "` or a line break does not survive the token file. Such lexemes
  come from string literals, and from identifiers followed by a newline. A line break ends the
  record early, and each piece is read as a record of its own. Depending on where the
  separators fall, reading then raises a ValueError or succeeds with tokens that were never
  written. `"a: b"` fails with too many values, and `x⏎= 5` (⏎ marks a line break) with too few. `"a: b⏎c"` reads
  back as the two tokens `"a: b` and `c": STRING`, and the parse then fails for want of an
  identifier.
- The `code` that `TokenizeFile` and `Run` take is the text `file.read()` returns. It comes
  from opening the source file in text mode, so universal newlines have already turned each
  `\r\n` and lone `\r` into `\n`. The model does not apply that translation to `code`
  again.

## Model

| member | source | states |
|---|---|---|
| Chars.Span | Lexer.py:29 | the greedy run: every character before the returned length has the class, and the next one, if any, does not |
| Chars.Strip | Lexer.py:60 | `strip()` leaves text that neither begins nor ends with whitespace and is no longer than the input |
| Chars.StripSplits | Lexer.py:60 | every string is its strip with a whitespace prefix and a whitespace suffix around it: nothing else is removed |
| Chars.StripStripped | Lexer.py:68 | stripping already stripped text changes nothing (idempotence) |
| Chars.StripAllSpace | Lexer.py:60-61 | `strip()` gives the empty string exactly when the text is all whitespace |
| Chars.StripPadded | Lexer.py:60 | stripping whitespace padding around stripped text gives that text back |
| Lexer.StringBody | Lexer.py:27 | a string literal match ends on a closing quote past its start, within the text |
| Lexer.MatchPattern | Lexer.py:25-44 | the length a pattern of the table matches at the start of the text never runs past the text; the language of each pattern is stated by the lemmas named under Left out |
| Lexer.FirstRuleFrom | Lexer.py:63-70 | the index found is a matching rule and no rule between the start and it matches; None only when no rule from the start on matches |
| Lexer.FirstRule | Lexer.py:63-70 | the winning rule matches and no earlier rule of the table does; there is none exactly when no rule matches |
| Lexer.FirstMatchUnique | Lexer.py:63-70 | a rule that matches with no earlier rule matching is the one the search returns |
| Lexer.RulesConsume | Lexer.py:25-44 | every rule of the table consumes at least one character when it matches |
| Lexer.NextToken | Lexer.py:63-68 | no token exactly when no rule matches; otherwise a non-empty prefix of the text, with the category of the first matching rule and the length of that rule's match |
| Lexer.Tokenize | Lexer.py:58-73 | at most one token per character of the input; every lexeme is non-empty and does not start with whitespace |
| Lexer.TokenizeStrip | Lexer.py:60 | tokenizing the stripped text gives the same tokens as the text |
| Lexer.TokenizeStep | Lexer.py:61-72 | one iteration: the winning rule's token followed by the tokens of the stripped rest, or, when none wins, the tokens of the stripped text after the first character |
| Lexer.EmitStep | Lexer.py:64-70 | when rule `i` wins, its match is the next token and lexing continues on the stripped text after it |
| Lexer.DropStep | Lexer.py:71-72 | when no rule matches, the first character is dropped and lexing continues on the stripped rest |
| Lexer.FindRule | Lexer.py:63-70 | the `for` loop over the table stops at the first matching rule, and runs to its end only when no rule matches |
| Lexer.EmitToken | Lexer.py:65-70 | the token is a non-empty prefix of the text in the winning rule's category; the new remainder is the stripped text after it, strictly shorter |
| Lexer.DropCharacter | Lexer.py:71-72 | the remainder is the stripped text after the first character, strictly shorter, and no token is lost |
| Lexer.LexOnce | Lexer.py:61-72 | one pass of the `while` loop keeps "tokens so far plus tokens of the remainder" equal and shortens the remainder |
| Lexer.TokenizeLoop | Lexer.py:58-73 | the imperative loop returns exactly the tokens of the recursive definition |
| LexerProperties.StringBodyIff | Lexer.py:27 | the string scan from a position ends at `n` exactly when `n - 1` holds a `"` and the text between is a string body: characters other than `"` and `\`, or `\` with any character but a line break |
| LexerProperties.QuotedStringMatch | Lexer.py:27 | the string rule matches `n` characters exactly when they form a string literal by that grammar: a body between two quotes |
| LexerProperties.StringLiteralUnique | Lexer.py:27 | a text starts with at most one string literal, so the rule's match is determined |
| LexerProperties.StringBodyPrefix | Lexer.py:27 | a string literal matched inside longer text is matched the same way once the text after it is cut off |
| LexerProperties.RuleMatchStarts | Lexer.py:25-44 | each rule matches only text beginning with one of its start characters |
| LexerProperties.FirstMatchWellShaped | Lexer.py:25-44 | the lexeme the winning rule produces has the shape of its category (keyword word, a string literal by the grammar above, identifier run, digit run, or the exact symbol) |
| LexerProperties.NextTokenWellShaped | Lexer.py:63-68 | the next token is well shaped |
| LexerProperties.TokenizeWellShaped | Lexer.py:58-73 | every emitted token is well shaped; in particular an ASSIGNMENT lexeme is always exactly `=` and an EQUALITY lexeme `==` |
| LexerProperties.KeywordWins | Lexer.py:26 | `if`, `else` or `print` not followed by a word character is a KEYWORD token, though the identifier rule would match more |
| LexerProperties.KeywordMatch | Lexer.py:26 | the keyword rule only ever matches one of the three keywords |
| LexerProperties.KeywordNeedsBoundary | Lexer.py:26 | a keyword followed by a word character does not match the keyword rule |
| LexerProperties.IdentifierUnlessKeyword | Lexer.py:28-31 | text starting with a letter or `_` that is not a whole keyword is one IDENTIFIER taking the greedy run of word and whitespace characters |
| LexerProperties.IdentifierIsGreedy | Lexer.py:29 | an IDENTIFIER lexeme stops only at the end of the text or at a character that is neither a word character nor whitespace |
| LexerProperties.IdentifierRunEnds | Lexer.py:29 | the identifier pattern's match is maximal |
| LexerProperties.FirstMatchCategory | Lexer.py:28-31 | only the identifier rule produces IDENTIFIER tokens |
| LexerProperties.DigitsAreNumber | Lexer.py:32 | a leading run of digits is one NUMBER token |
| LexerProperties.EqualityWins | Lexer.py:38 | `==` at the start is always one EQUALITY token |
| LexerProperties.LoneEqualsIsAssignment | Lexer.py:39 | a `=` not followed by `=` is one ASSIGNMENT token `=` |
| LexerProperties.SymbolIsToken | Lexer.py:33-43 | a one-character operator or punctuation mark is a token of its category |
| LexerProperties.QuotedIsString | Lexer.py:27 | a complete double-quoted literal at the start is one STRING token |
| LexerProperties.NoRuleForUnstartable | Lexer.py:25-44 | text starting with a character no rule can start with matches no rule |
| LexerProperties.WhitespaceOnlyIsEmpty | Lexer.py:60-61 | empty or whitespace-only text has no tokens |
| LexerProperties.TokenizeEmits | Lexer.py:64-68 | on stripped text the next token is emitted first and lexing continues after it |
| LexerProperties.TokenizeDrops | Lexer.py:71-72 | on stripped text that no rule matches, the first character is dropped |
| LexerProperties.TokenizeSkipsSpace | Lexer.py:60 | leading whitespace changes no token |
| LexerProperties.UnstartableIsDropped | Lexer.py:71-72 | a character no rule can start with produces no token and lexing continues after it |
| LexerProperties.TokenizeCases | Lexer.py:60-72 | one unfolding of the lexer, with the stripped remainder located inside the text |
| LexerProperties.TokenizePlaced | Lexer.py:64-68 | the lexemes occur in the input as non-overlapping substrings, in order |
| LexerExamples.PrintIsKeyword | Lexer.py:26 | `print x` gives KEYWORD `print` and IDENTIFIER `x` |
| LexerExamples.PrinterIsIdentifier | Lexer.py:26 | `printer` is one IDENTIFIER |
| LexerExamples.IfUnderscoreIsIdentifier | Lexer.py:26 | `if_a` is one IDENTIFIER |
| LexerExamples.StringWithLineBreak | Lexer.py:27 | a string literal may hold a line break: `"a: b⏎c"` is one STRING token |
| LexerExamples.EqualityIsOneToken | Lexer.py:38 | `a==b` gives IDENTIFIER, EQUALITY `==`, IDENTIFIER |
| LexerExamples.TripleEquals | Lexer.py:38-39 | `===` gives EQUALITY `==` then ASSIGNMENT `=` |
| LexerExamples.AssignmentWithoutSpaces | Lexer.py:29-39 | `x=5` gives `x`, `=`, `5` |
| LexerExamples.IdentifierTakesSpace | Lexer.py:29 | `x = 5` gives the lexemes `"x "`, `=`, `5` |
| LexerExamples.IdentifierSwallowsKeyword | Lexer.py:29 | `x = y print y` gives three tokens, the last the IDENTIFIER `y print y` |
| LexerExamples.NameRunsIntoNumber | Lexer.py:29 | `x 5` is a single IDENTIFIER |
| LexerExamples.IdentifierTakesLineBreak | Lexer.py:29 | in `x`, a line break, `= 5`, the identifier's lexeme holds the line break |
| LexerExamples.PunctuationIsDropped | Lexer.py:71-72 | `;@.` gives no tokens |
| LexerExamples.UnterminatedString | Lexer.py:71-72 | an unterminated `"` is dropped and the rest lexes on its own |
| LexerExamples.EscapedString | Lexer.py:27 | a literal with an escaped quote is one STRING token |
| LexerExamples.StringWithSeparator | Lexer.py:27 | the literal `"a: b"` is one STRING token |
| LexerExamples.AssignThenPrint | Lexer.py:58-73 | `x = 5 print x` gives five tokens |
| LexerExamples.ParenthesisedAssignment | Lexer.py:58-73 | `x = (5) print x` gives seven tokens, the parentheses among them |
| LexerExamples.UnclosedParenthesis | Lexer.py:58-73 | `x = (5` gives four tokens |
| LexerExamples.UnclosedBeforePrint | Lexer.py:58-73 | `x = (5 print x` gives six tokens |
| LexerExamples.ModulusOperand | Lexer.py:37 | `x = % print x` gives a MODULUS token where the value should be |
| LexerExamples.NoRuleForQuote | Lexer.py:27 | a `"` without its closing quote matches no rule |
| TokenCodec.FindSeparator | Parser.py:116 | the first occurrence of `": "` at or after the start, or none at all |
| TokenCodec.Split | Parser.py:116 | `split(": ")` yields at least one piece |
| TokenCodec.JoinSplit | Parser.py:116 | joining the pieces of a split with `": "` gives back the string |
| TokenCodec.SplitPieces | Parser.py:116 | no piece of a split contains the separator |
| TokenCodec.SplitJoin | Parser.py:116 | splitting joined pieces gives the pieces back when none holds the separator |
| TokenCodec.DecodeLine | Parser.py:116-117 | a decoded token's fields hold no separator and make up the stripped line around one separator; the line has too few values exactly when the stripped line has no separator |
| TokenCodec.UniqueSeparator | Parser.py:116 | in `a: b` with no separator in `a` or `b`, the middle one is the only separator |
| TokenCodec.DecodeSingleSeparator | Parser.py:116-117 | any line whose stripped text is `a: b` with no separator in `a` or `b` unpacks to the token `(a, b)`, whoever wrote it |
| TokenCodec.TooManyValuesIff | Parser.py:116 | a line has too many values to unpack exactly when its stripped text holds the separator at two places; with `DecodeLine` this sorts every line into its three outcomes |
| TokenCodec.SeparatorInLexeme | Parser.py:116 | a line whose lexeme holds `": "` has too many values to unpack |
| TokenCodec.LineRoundTrip | Lexer.py:54 | the written line decodes to the token exactly when the lexeme has no separator and does not start with whitespace |
| TokenCodec.UniversalNewlines | Parser.py:114 | text-mode reading leaves no carriage return and never lengthens the text |
| TokenCodec.UniversalNewlinesKeepsText | Parser.py:114 | text-mode reading changes only line breaks: with every `\r` and `\n` removed, the text read equals the file's |
| TokenCodec.UniversalNewlinesCountsBreaks | Parser.py:114 | each `\r\n`, lone `\r` and `\n` becomes exactly one `\n`: the line feeds read are the file's line feeds plus its carriage returns not followed by `\n` |
| TokenCodec.UniversalNewlinesKeep | Parser.py:114 | text without a carriage return is read as written |
| TokenCodec.Lines | Parser.py:115 | iterating over the file yields non-empty lines |
| TokenCodec.LinesConcat | Parser.py:115 | the lines concatenate to the text |
| TokenCodec.LinesBreakOnlyAtEnd | Parser.py:115 | every line but the last ends in its only `\n`, and the last has no `\n` before its end |
| TokenCodec.LinesStep | Parser.py:115 | a line followed by more text is read as that line, then the lines of the rest |
| TokenCodec.DecodeLines | Parser.py:115-118 | a successful read has one token per line, each the decoding of its line |
| TokenCodec.DecodeLinesFirstFailure | Parser.py:115-118 | reading ends with the error of the first line that does not unpack |
| TokenCodec.ReadFailsOnFirstLine | Parser.py:112-118 | a file whose first line does not unpack fails with that line's error |
| TokenCodec.AsParserTokens | Parser.py:117 | the parser sees each lexer token as its lexeme and category name, position by position |
| TokenCodec.WriteTokensCons | Lexer.py:53-54 | the token file is the first token's line, then the file of the rest |
| TokenCodec.NameIsCapitals | Lexer.py:4-22 | every category name is a non-empty run of capital letters |
| TokenCodec.NoColonNoSeparator | Parser.py:116 | text without `:` holds no separator |
| TokenCodec.NameDecodable | Lexer.py:4-22 | every category name can be read back: no separator, no whitespace, no line break |
| TokenCodec.WrittenHasNoReturn | Lexer.py:53-54 | the token file has no carriage return when no lexeme has one |
| TokenCodec.DecodeWritten | Parser.py:115-117 | the lines of a file written for encodable lexemes decode to those tokens |
| TokenCodec.ReadWriteTokens | Parser.py:112-118 | reading back the token file of encodable lexemes gives the lexer's tokens under their category names |
| TokenCodec.WellShapedNoSeparator | Lexer.py:25-44 | no lexeme except a string literal can hold the separator |
| TokenCodec.LexedEncodable | Lexer.py:58-73 | every lexeme the lexer emits, except STRING ones, is free of the separator |
| Parser.At | Parser.py:69 | indexing the tokens gives the token under the cursor, or IndexError exactly when the cursor is past the end |
| Parser.Identifier | Parser.py:86-92 | succeeds exactly on an IDENTIFIER token, consuming one token; otherwise "Expected an identifier", or IndexError past the end |
| Parser.Number | Parser.py:94-100 | succeeds exactly on a NUMBER token, consuming one token; otherwise "Expected a number", or IndexError past the end |
| Parser.Expression | Parser.py:68-84 | a successful expression moves the cursor forward, stays within the tokens and yields an `identifier` or `number` node holding one leaf; a ParseError is the missing `)` or an unexpected token met from the cursor on |
| Parser.AssignmentStatement | Parser.py:53-59 | success means a token with lexeme `=` after the identifier and an `assignment` node holding that identifier and an atom |
| Parser.PrintStatement | Parser.py:61-66 | success means a token with lexeme `print` at the cursor and a `print` node holding one atom |
| Parser.Program | Parser.py:48-51 | a program consumes at least five tokens and has the shape program(assignment(identifier, atom), print(atom)) |
| Parser.Parse | Parser.py:45-46 | a successful parse needs at least five tokens and returns a tree of program shape |
| ParserProperties.WrappedIsShape | Parser.py:68-82 | the nested description of an atom in `k` pairs of parentheses agrees with the flat one: `k` opening parentheses, an atom, `k` closing ones |
| ParserProperties.ExpressionAtom | Parser.py:70-75 | an IDENTIFIER or NUMBER token is a whole expression |
| ParserProperties.ExpressionParenthesised | Parser.py:76-82 | `(`, an expression and `)` make an expression with the inner tree |
| ParserProperties.ExpressionInversion | Parser.py:76-82 | a successful expression that does not start with an atom is `(`, an expression and `)` |
| ParserProperties.ExpressionWrapped | Parser.py:68-82 | an atom in `k` pairs of parentheses parses to the atom's tree, consuming exactly `2k + 1` tokens |
| ParserProperties.ExpressionSound | Parser.py:68-84 | every successful expression is an atom in some number of parentheses, with that tree and length |
| ParserProperties.ParenthesesLeaveNoTrace | Parser.py:76-82 | `k` nested pairs of parentheses give the same tree as the bare atom |
| ParserProperties.ExpressionFrame | Parser.py:68-84 | an expression never looks at the tokens before its start |
| ParserProperties.ExpressionExtend | Parser.py:68-84 | an expression that does not run off the end has the same outcome whatever follows |
| ParserProperties.AssignmentExtend | Parser.py:53-59 | the same for an assignment statement |
| ParserProperties.PrintExtend | Parser.py:61-66 | the same for a print statement |
| ParserProperties.ParseExtend | Parser.py:45-51 | appending tokens changes neither a parsed program nor a ParseError: trailing tokens are ignored |
| ParserProperties.AssignmentWrapped | Parser.py:53-59 | an identifier, a `=` and a wrapped atom make an assignment statement with that tree and length |
| ParserProperties.AssignmentOf | Parser.py:53-59 | an identifier, a `=` and an expression make an assignment statement |
| ParserProperties.PrintWrapped | Parser.py:61-66 | a `print` and a wrapped atom make a print statement with that tree and length |
| ParserProperties.PrintOf | Parser.py:61-66 | a `print` and an expression make a print statement |
| ParserProperties.ProgramOf | Parser.py:45-51 | an assignment followed by a print statement make a program with both as children |
| ParserProperties.ParseComplete | Parser.py:45-51 | every token sequence of program form parses to its tree, consuming exactly `5 + 2k1 + 2k2` tokens |
| ParserProperties.ProgramInversion | Parser.py:48-51 | a successful parse is an assignment statement followed by a print statement |
| ParserProperties.AssignmentInversion | Parser.py:53-59 | a successful assignment statement is an IDENTIFIER, a `=` lexeme and an expression |
| ParserProperties.PrintInversion | Parser.py:61-66 | a successful print statement is a `print` lexeme and an expression, and its tree is a `print` node holding that expression's tree |
| ParserProperties.AssignmentSound | Parser.py:53-59 | every successful assignment statement is an identifier, a `=` and a wrapped atom, ending after it |
| ParserProperties.PrintSound | Parser.py:61-66 | every successful print statement is a `print` and a wrapped atom |
| ParserProperties.ParseSound | Parser.py:45-51 | every successful parse is of program form, with the tree that form determines |
| ParserProperties.WrappedPrefix | Parser.py:68-82 | a wrapped atom stays wrapped when the tokens after it are cut off |
| ParserProperties.ProgramFormPrefix | Parser.py:45-51 | a program form stays one when the tokens after the program are cut off |
| ParserProperties.ParseReadsOnlyProgram | Parser.py:45-51 | a successful parse gives the same tree on the tokens it consumed alone |
| ParserProperties.EqualsCheckedByLexeme | Parser.py:55 | the `=` token's category is never read |
| ParserProperties.PrintCheckedByLexeme | Parser.py:62 | the `print` token's category is never read |
| ParserProperties.ParseEmpty | Parser.py:87 | an empty token list fails with IndexError |
| ParserProperties.ParseNeedsIdentifierFirst | Parser.py:54 | a first token that is not an IDENTIFIER fails with "Expected an identifier" |
| ParserProperties.AssignmentNeedsEquals | Parser.py:53-56 | an identifier followed by a token whose lexeme is not `=` fails with "Expected '=' after identifier" |
| ParserProperties.PrintNeedsKeyword | Parser.py:61-63 | a print statement at a token whose lexeme is not `print` fails with "Expected 'print' keyword" |
| ParserProperties.ExpressionUnexpected | Parser.py:68-84 | a token that is neither IDENTIFIER, NUMBER nor `(` fails with "Unexpected token: " and its repr |
| ParserProperties.ExpressionNeedsClose | Parser.py:76-80 | a parenthesised expression followed by a token other than `)` fails with "Expected ')' after expression" |
| ParserProperties.ExpressionRunsOut | Parser.py:76-79 | a parenthesised expression that ends the tokens indexes past the end: IndexError |
| ParserProperties.ParseMissingEquals | Parser.py:48-56 | a program whose identifier is followed by anything but `=` fails with "Expected '=' after identifier" |
| ParserProperties.ParseMissingPrint | Parser.py:48-63 | a complete assignment followed by a token other than `print` fails with "Expected 'print' keyword" |
| ParserProperties.ParseErrorMessages | Parser.py:45-100 | every ParseError of a parse is one of the three statement messages, the missing `)`, or "Unexpected token: " with the repr of a token of the input; "Expected a number" never occurs |
| ParserExamples.SimpleParsed | Parser.py:45-66 | the tokens of `x = 5 print x` parse to program(assignment(identifier, number), print(identifier)) |
| ParserExamples.ParenthesisedParsed | Parser.py:76-82 | the tokens of `x = (5) print x` parse to the same tree |
| ParserExamples.UnclosedRunsOut | Parser.py:79 | the tokens of `x = (5` end in IndexError |
| ParserExamples.UnclosedBeforePrintFails | Parser.py:79-80 | the tokens of `x = (5 print x` fail with "Expected ')' after expression" |
| ParserExamples.ModulusOperandFails | Parser.py:83-84 | the tokens of `x = % print x` fail with "Unexpected token: %: MODULUS" |
| ParserExamples.ModulusMessage | Parser.py:20-21 | the message for the token `%` of type MODULUS is exactly `Unexpected token: %: MODULUS` |
| ParserExamples.PlusForEqualsFails | Parser.py:55-56 | the tokens of `x + 5 print x` fail with "Expected '=' after identifier" |
| ParserExamples.PlusForPrintFails | Parser.py:62-63 | the tokens of `x = 5 + y` fail with "Expected 'print' keyword" |
| ParserExamples.SwallowedRunsOut | Parser.py:62 | the three tokens of `x = y print y` end in IndexError where the print statement should begin |
| TreePrinter.TreeLines | Parser.py:103-109 | the first line is the indentation and the node's label or the token's repr; every line starts with the indentation |
| TreePrinter.ForestLines | Parser.py:106-107 | every line printed for the children starts with their indentation |
| TreePrinter.Indented | Parser.py:103-109 | the indentation is put in front of each line, keeping the count |
| TreePrinter.TreeLinesCount | Parser.py:103-109 | one line per node and token |
| TreePrinter.TreeLinesShift | Parser.py:103-109 | printing at an indentation is printing at none with the indentation in front of every line |
| TreePrinter.NodeLines | Parser.py:104-107 | a node prints its label, then its children one level further in |
| TreePrinter.AtomLines | Parser.py:103-109 | a node holding one token prints two lines, the second the token's repr |
| TreePrinterExamples.ProgramPrinted | Parser.py:103-109 | the nine lines of the tree of `x = 5 print x` |
| Pipeline.Run | Lexer.py:76-78 | a run that succeeds yields a tree of program shape |
| Pipeline.ParserScript | Parser.py:121-131 | no exception escapes exactly when the file reads and the parse does not index past the end; then at least one line is printed, otherwise none |
| Pipeline.ScriptPrintsTree | Parser.py:126-129 | a successful run prints the banner, an empty line and the tree: `2 + Size` lines, `program` the third |
| Pipeline.ScriptReportsParseError | Parser.py:130-131 | a ParseError prints exactly one line, `Parse error: ` and the message |
| Pipeline.ScriptEscapes | Parser.py:121-131 | a ValueError while reading or an IndexError while parsing prints nothing and escapes |
| Pipeline.RunSeesLexedTokens | Parser.py:121-123 | when every lexeme survives the file, the parser sees exactly the lexer's tokens |
| Pipeline.PlainEncodable | Lexer.py:54 | a lexeme without `:`, without line breaks and not starting with whitespace survives the file |
| Pipeline.RunsAs | Parser.py:121-127 | a run over plain lexemes is the parse of the lexer's tokens under their names |
| Pipeline.SimpleProgramRuns | Parser.py:121-127 | `x = 5 print x` runs to its tree |
| Pipeline.SimpleProgramOutput | Parser.py:128-129 | the exact lines printed for `x = 5 print x` |
| Pipeline.ParenthesisedProgramRuns | Parser.py:121-127 | `x = (5) print x` runs to the same tree |
| Pipeline.UnclosedProgramFails | Parser.py:121-127 | `x = (5` ends with an IndexError |
| Pipeline.UnclosedBeforePrintProgramFails | Parser.py:126-131 | `x = (5 print x` ends with "Expected ')' after expression" |
| Pipeline.ModulusProgramFails | Parser.py:126-131 | `x = % print x` ends with "Unexpected token: %: MODULUS" |
| Pipeline.SwallowedProgramFails | Parser.py:121-127 | `x = y print y` ends with an IndexError |
| Pipeline.BrokenUnreadable | Parser.py:116 | the token file of an identifier holding a line break has a first line with too few values |
| Pipeline.BrokenProgramFails | Parser.py:121-122 | `x`, a line break, `= 5` cannot be read back: a ValueError |
| Pipeline.QuotedUnreadable | Parser.py:116 | the line of the literal `"a: b"` has too many values |
| Pipeline.QuotedProgramFails | Parser.py:121-122 | the program `"a: b"`, a string literal holding `: ` on one line, cannot be read back: a ValueError |
| Pipeline.SplitWritten | Lexer.py:53-54 | the record of the literal `"a: b⏎c"` is written across two lines |
| Pipeline.TwoLines | Parser.py:115 | text of two lines, each ended by a `\n` and holding no other, is read as those two lines |
| Pipeline.TwoDecoded | Parser.py:115-117 | two lines that each unpack are read as their two tokens |
| Pipeline.SplitLines | Parser.py:114-115 | the token file of `"a: b⏎c"` is read as two lines |
| Pipeline.SplitFirstLine | Parser.py:116 | the first line, `"a: b`, unpacks to the token `"a` of type `b` |
| Pipeline.SplitSecondLine | Parser.py:116 | the second line, `c": STRING`, unpacks to the token `c"` of type `STRING` |
| Pipeline.SplitMisread | Parser.py:112-118 | the token file of `"a: b⏎c"` reads back without error as two tokens that were never written |
| Pipeline.SplitProgramFails | Parser.py:121-131 | `"a: b⏎c"` ends with "Expected an identifier": the misread first token has type `b` |

## Left out

- `Symbol_Table` is not part of this model. It is built on Python's `ast` module, whose
  behaviour cannot be seen from this repository.
- File and console I/O: the file names `example.py` and `tokens.txt`, opening, reading and
  writing files, and the `print` calls. The token file is a string that `TokenizeFile`
  produces and `ParserScript` consumes. The printed output is a list of lines without their
  terminators.
- Writing a file in text mode on Windows turns `\n` into `\r\n`. The model writes `\n`, as on
  POSIX systems.
- Unicode: `\s`, `\d`, `\w` and `str.strip` are modelled on ASCII. One whitespace class
  (tab, line feed, vertical tab, form feed, carriage return, the separators 0x1C-0x1F, space)
  serves both `strip` and `\s`. Characters above 127 are neither whitespace, digit nor word
  character.
- The general `re` engine is not modelled. Each of the fifteen patterns has a matcher of its
  own. Only matches at position 0 are needed, where `\b` before a word and the `(?<!\=)`
  lookbehind always hold.
- Exception unwinding and the traceback printed for an uncaught exception. A failure is a
  value. `Pipeline.Output` records which exception escaped, not its text.
- `ParseTreeNode.add_child` is never called and is not modelled. The `children=None` default is
  not modelled either: every node is built with its children.
- `Parser.Number` is modelled but, as in the source, nothing in the grammar calls it.
- `Pipeline.TokenizeFile` carries no contract of its own: it is `tokenize` followed by
  writing one line per token. Its properties are those of `Lexer.Tokenize` and
  `TokenCodec.WriteTokens`.
- Lexer.Rules: the fifteen (pattern, category) pairs of Lexer.py:25-45 in table order, a
  constant with no contract. Its order is what `Lexer.FirstRule`, `Lexer.FirstMatchUnique`,
  `LexerProperties.KeywordWins` and `LexerProperties.EqualityWins` state.
- Lexer.MatchPattern: its own contract bounds the match by the text. The language each pattern
  matches at Lexer.py:25-44 is stated by `LexerProperties.RuleMatchStarts`,
  `LexerProperties.KeywordMatch`, `LexerProperties.QuotedStringMatch`,
  `LexerProperties.IdentifierRunEnds` and `Lexer.RulesConsume`.
- Lexer.MatchKeyword: carries no contract of its own. Its meaning for `\b(if|else|print)\b`
  at Lexer.py:26 is stated by `LexerProperties.KeywordMatch`,
  `LexerProperties.KeywordNeedsBoundary` and `LexerProperties.KeywordWins`.
- TokenCodec.EncodeLine: carries no contract of its own. Its meaning for the line written at
  Lexer.py:54 is stated by `TokenCodec.LineRoundTrip` and `TokenCodec.SeparatorInLexeme`.
- TokenCodec.WriteTokens: carries no contract of its own. Its meaning for the writing loop
  at Lexer.py:53-54 is stated by `TokenCodec.WriteTokensCons`, `TokenCodec.WrittenHasNoReturn`
  and `TokenCodec.ReadWriteTokens`.
- TokenCodec.ReadTokens: carries no contract of its own. Its meaning for
  `read_tokens_from_file` at Parser.py:112-118 is stated by `TokenCodec.ReadWriteTokens`,
  `TokenCodec.ReadFailsOnFirstLine`, `TokenCodec.DecodeLines` and
  `TokenCodec.DecodeLinesFirstFailure`.
- Parser.Repr: carries no contract of its own. `Token.__repr__` at Parser.py:20-21 is stated
  through `ParserExamples.ModulusMessage`, `TreePrinter.AtomLines` and
  `TreePrinterExamples.ProgramPrinted`.
- Parser.UnexpectedToken: carries no contract of its own. The message at Parser.py:84 is
  stated by `ParserProperties.ExpressionUnexpected` and `ParserProperties.ParseErrorMessages`.
- TreePrinter.Display: carries no contract of its own. `str(node)` at Parser.py:105 and 109
  is stated by `TreePrinter.TreeLines`, `TreePrinter.NodeLines` and `TreePrinter.AtomLines`.
- Lexer.Tokenize: its contract gives the bounds and the absence of leading whitespace; the
  rest of its meaning is stated by `Lexer.TokenizeLoop` (equality with the loop) and by the
  lemmas of `LexerProperties`.
- Parser.Expression: Python limits the depth of recursion, 1000 frames by default. An
  expression nested in about a thousand parentheses makes `expression` raise RecursionError,
  which no handler catches. The model has no such limit and parses parentheses to any depth.
- ParserProperties.ExpressionWrapped: holds in the model for every depth `k`. In Python it holds
  only while `k` stays below the recursion limit, less the frames already on the stack.
- ParserProperties.ParenthesesLeaveNoTrace: holds for every `k`, under the same proviso about
  Python's recursion limit.
- ParserProperties.ParseComplete: holds for every `k1` and `k2`, under the same proviso about
  Python's recursion limit.
