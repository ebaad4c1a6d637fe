/**
 * The two programs run one after the other, as their main blocks do: Lexer.py tokenizes the
 * source and writes the token file, Parser.py reads the token file, parses it and prints
 * the tree. The file names are fixed in the source and the file system is left out: the
 * token file is the string one side writes and the other reads.
 */
module Pipeline {
  import opened Chars
  import opened Results
  import Lexer
  import opened Parser
  import opened TokenCodec
  import opened TreePrinter
  import LexerExamples
  import TreePrinterExamples
  import opened ParserExamples
  import ParserProperties

  /** How a run ends without a tree. */
  datatype RunFailure =
    | ReadFailed(error: DecodeError)      // a ValueError in `read_tokens_from_file`
    | ParseFailed(failure: ParseFailure)  // an exception out of `parser.parse()`

  function Lift(r: Result<Tree, ParseFailure>): Result<Tree, RunFailure>
  {
    match r
    case Success(tree) => Success(tree)
    case Failure(f) => Failure(ParseFailed(f))
  }

  /** Lexer.py's main block: `tokenize_file` on the program text gives the token file's text. */
  function TokenizeFile(code: string): string
  {
    WriteTokens(Lexer.Tokenize(code))
  }

  /** Lexing `code`, writing the token file, reading it back and parsing the tokens read. */
  function Run(code: string): (r: Result<Tree, RunFailure>)
    ensures r.Success? ==> IsProgramTree(r.value)
  {
    match ReadTokens(TokenizeFile(code))
    case Failure(e) => Failure(ReadFailed(e))
    case Success(tokens) => Lift(Parse(tokens))
  }

  /** What Parser.py's main block leaves behind: the lines it printed and the exception that escaped it, if any. */
  datatype Output = Output(lines: seq<string>, escaped: Option<RunFailure>)

  const TreeBanner: seq<string> := ["Parse tree: ", ""]

  /**
   * Parser.py's main block on the token file's text: the tree after a banner line and an
   * empty one, or the one line reporting a ParseError. A ValueError while reading and an
   * IndexError while parsing are not caught.
   */
  function ParserScript(content: string): (out: Output)
    ensures out.escaped.None? <==> ReadTokens(content).Success? && Parse(ReadTokens(content).value) != Failure(IndexError)
    ensures out.escaped.None? ==> 0 < |out.lines|
    ensures out.escaped.Some? ==> out.lines == []
  {
    match ReadTokens(content)
    case Failure(e) => Output([], Some(ReadFailed(e)))
    case Success(tokens) =>
      match Parse(tokens)
      case Success(tree) => Output(TreeBanner + TreeLines(tree, ""), None)
      case Failure(ParseError(message)) => Output(["Parse error: " + message], None)
      case Failure(IndexError) => Output([], Some(ParseFailed(IndexError)))
  }

  /**
   * Both main blocks one after the other print the banner and the tree exactly when the run
   * succeeds: one line per node and token, the root `program` first.
   */
  lemma ScriptPrintsTree(code: string)
    requires Run(code).Success?
    ensures ParserScript(TokenizeFile(code)) == Output(TreeBanner + TreeLines(Run(code).value, ""), None)
    ensures |ParserScript(TokenizeFile(code)).lines| == 2 + Size(Run(code).value)
    ensures ParserScript(TokenizeFile(code)).lines[2] == "program"
  {
    var tree := Run(code).value;
    var lines := TreeLines(tree, "");
    assert ParserScript(TokenizeFile(code)) == Output(TreeBanner + lines, None);
    TreeLinesCount(tree, "");
    assert (TreeBanner + lines)[2] == lines[0] == "" + "program";
  }

  /** A run ending in a ParseError prints `Parse error:` and the message, and nothing else. */
  lemma ScriptReportsParseError(code: string)
    requires Run(code).Failure? && Run(code).error.ParseFailed? && Run(code).error.failure.ParseError?
    ensures ParserScript(TokenizeFile(code)) == Output(["Parse error: " + Run(code).error.failure.message], None)
  {
  }

  /** Every other failed run prints nothing: its exception escapes the main block. */
  lemma ScriptEscapes(code: string)
    requires Run(code).Failure? && !(Run(code).error.ParseFailed? && Run(code).error.failure.ParseError?)
    ensures ParserScript(TokenizeFile(code)) == Output([], Some(Run(code).error))
  {
  }

  /**
   * When every lexeme survives the token file, the file is transparent: the parser sees
   * exactly the lexer's tokens with their category names.
   */
  lemma RunSeesLexedTokens(code: string)
    requires forall k :: 0 <= k < |Lexer.Tokenize(code)| ==> Encodable(Lexer.Tokenize(code)[k].lexeme)
    ensures Run(code) == Lift(Parse(AsParserTokens(Lexer.Tokenize(code))))
  {
    ReadWriteTokens(Lexer.Tokenize(code));
  }

  /** A lexeme without `:` or line breaks that does not start with whitespace. */
  predicate Plain(lexeme: string) {
    0 < |lexeme| && !IsSpace(lexeme[0]) &&
    forall j :: 0 <= j < |lexeme| ==> lexeme[j] != ':' && !IsLineBreak(lexeme[j])
  }

  predicate AllPlain(ts: seq<Lexer.LexToken>) {
    forall k :: 0 <= k < |ts| ==> Plain(ts[k].lexeme)
  }

  /** A plain lexeme survives the token file. */
  lemma PlainEncodable(lexeme: string)
    requires Plain(lexeme)
    ensures Encodable(lexeme)
  {
    NoColonNoSeparator(lexeme);
  }

  /** A run whose lexemes are all plain is the parse of the lexer's tokens under their names. */
  lemma RunsAs(code: string, lexed: seq<Lexer.LexToken>, tokens: seq<Token>)
    requires Lexer.Tokenize(code) == lexed && AllPlain(lexed) && AsParserTokens(lexed) == tokens
    ensures Run(code) == Lift(Parse(tokens))
  {
    forall k | 0 <= k < |lexed|
      ensures Encodable(lexed[k].lexeme)
    {
      PlainEncodable(lexed[k].lexeme);
    }
    RunSeesLexedTokens(code);
  }

  // ----- x = 5 print x -----

  const SimpleLexed: seq<Lexer.LexToken> := [
    Lexer.LexToken("x ", Lexer.Identifier), Lexer.LexToken("=", Lexer.Assignment),
    Lexer.LexToken("5", Lexer.Number), Lexer.LexToken("print", Lexer.Keyword),
    Lexer.LexToken("x", Lexer.Identifier)]

  lemma SimpleLexedPlain()
    ensures AllPlain(SimpleLexed)
  {
  }

  lemma SimpleLexedNamed()
    ensures AsParserTokens(SimpleLexed) == SimpleTokens
  {
  }

  /** `x = 5 print x` runs through both programs to the tree of its assignment and print. */
  lemma SimpleProgramRuns()
    ensures Run("x = 5 print x") == Success(SimpleTree)
  {
    LexerExamples.AssignThenPrint();
    SimpleLexedPlain();
    SimpleLexedNamed();
    RunsAs("x = 5 print x", SimpleLexed, SimpleTokens);
    SimpleParsed();
  }

  /** What the two programs print for `x = 5 print x`. */
  lemma SimpleProgramOutput()
    ensures ParserScript(TokenizeFile("x = 5 print x")).lines ==
      TreeBanner +
      ["program",
       "  assignment", "    identifier", "      x : IDENTIFIER", "    number", "      5: NUMBER",
       "  print", "    identifier", "      x: IDENTIFIER"]
  {
    SimpleProgramRuns();
    ScriptPrintsTree("x = 5 print x");
    TreePrinterExamples.ProgramPrinted();
  }

  // ----- x = (5) print x -----

  const ParenthesisedLexed: seq<Lexer.LexToken> := [
    Lexer.LexToken("x ", Lexer.Identifier), Lexer.LexToken("=", Lexer.Assignment),
    Lexer.LexToken("(", Lexer.LParen), Lexer.LexToken("5", Lexer.Number),
    Lexer.LexToken(")", Lexer.RParen), Lexer.LexToken("print", Lexer.Keyword),
    Lexer.LexToken("x", Lexer.Identifier)]

  lemma ParenthesisedLexedPlain()
    ensures AllPlain(ParenthesisedLexed)
  {
  }

  lemma ParenthesisedLexedNamed()
    ensures AsParserTokens(ParenthesisedLexed) == ParenthesisedTokens
  {
  }

  /** Parentheses around the value change nothing in the printed tree. */
  lemma ParenthesisedProgramRuns()
    ensures Run("x = (5) print x") == Success(SimpleTree)
  {
    LexerExamples.ParenthesisedAssignment();
    ParenthesisedLexedPlain();
    ParenthesisedLexedNamed();
    RunsAs("x = (5) print x", ParenthesisedLexed, ParenthesisedTokens);
    ParenthesisedParsed();
  }

  // ----- x = (5 -----

  const UnclosedLexed: seq<Lexer.LexToken> := [
    Lexer.LexToken("x ", Lexer.Identifier), Lexer.LexToken("=", Lexer.Assignment),
    Lexer.LexToken("(", Lexer.LParen), Lexer.LexToken("5", Lexer.Number)]

  lemma UnclosedLexedPlain()
    ensures AllPlain(UnclosedLexed)
  {
  }

  lemma UnclosedLexedNamed()
    ensures AsParserTokens(UnclosedLexed) == UnclosedTokens
  {
  }

  /** A missing `)` at the end of the input ends the run with an IndexError. */
  lemma UnclosedProgramFails()
    ensures Run("x = (5") == Failure(ParseFailed(IndexError))
  {
    LexerExamples.UnclosedParenthesis();
    UnclosedLexedPlain();
    UnclosedLexedNamed();
    RunsAs("x = (5", UnclosedLexed, UnclosedTokens);
    UnclosedRunsOut();
  }

  // ----- x = (5 print x -----

  const UnclosedBeforePrintLexed: seq<Lexer.LexToken> := [
    Lexer.LexToken("x ", Lexer.Identifier), Lexer.LexToken("=", Lexer.Assignment),
    Lexer.LexToken("(", Lexer.LParen), Lexer.LexToken("5", Lexer.Number),
    Lexer.LexToken("print", Lexer.Keyword), Lexer.LexToken("x", Lexer.Identifier)]

  lemma UnclosedBeforePrintLexedPlain()
    ensures AllPlain(UnclosedBeforePrintLexed)
  {
  }

  lemma UnclosedBeforePrintLexedNamed()
    ensures AsParserTokens(UnclosedBeforePrintLexed) == UnclosedBeforePrintTokens
  {
  }

  /** A missing `)` before more input is the ParseError about the parenthesis. */
  lemma UnclosedBeforePrintProgramFails()
    ensures Run("x = (5 print x") == Failure(ParseFailed(ParseError(ExpectedRParen)))
  {
    LexerExamples.UnclosedBeforePrint();
    UnclosedBeforePrintLexedPlain();
    UnclosedBeforePrintLexedNamed();
    RunsAs("x = (5 print x", UnclosedBeforePrintLexed, UnclosedBeforePrintTokens);
    UnclosedBeforePrintFails();
  }

  // ----- x = % print x -----

  const ModulusLexed: seq<Lexer.LexToken> := [
    Lexer.LexToken("x ", Lexer.Identifier), Lexer.LexToken("=", Lexer.Assignment),
    Lexer.LexToken("%", Lexer.Modulus), Lexer.LexToken("print", Lexer.Keyword),
    Lexer.LexToken("x", Lexer.Identifier)]

  lemma ModulusLexedPlain()
    ensures AllPlain(ModulusLexed)
  {
  }

  lemma ModulusLexedNamed()
    ensures AsParserTokens(ModulusLexed) == ModulusTokens
  {
  }

  /** An operator as the assigned value is reported as an unexpected token. */
  lemma ModulusProgramFails()
    ensures Run("x = % print x") == Failure(ParseFailed(ParseError(UnexpectedToken(Token("%", "MODULUS")))))
  {
    LexerExamples.ModulusOperand();
    ModulusLexedPlain();
    ModulusLexedNamed();
    RunsAs("x = % print x", ModulusLexed, ModulusTokens);
    ModulusOperandFails();
  }

  // ----- x = y print y -----

  const SwallowedLexed: seq<Lexer.LexToken> := [
    Lexer.LexToken("x ", Lexer.Identifier), Lexer.LexToken("=", Lexer.Assignment),
    Lexer.LexToken("y print y", Lexer.Identifier)]

  lemma SwallowedLexedPlain()
    ensures AllPlain(SwallowedLexed)
  {
  }

  lemma SwallowedLexedNamed()
    ensures AsParserTokens(SwallowedLexed) == SwallowedTokens
  {
  }

  /** An identifier as the assigned value takes the print statement with it. */
  lemma SwallowedProgramFails()
    ensures Run("x = y print y") == Failure(ParseFailed(IndexError))
  {
    LexerExamples.IdentifierSwallowsKeyword();
    SwallowedLexedPlain();
    SwallowedLexedNamed();
    RunsAs("x = y print y", SwallowedLexed, SwallowedTokens);
    SwallowedRunsOut();
  }

  // ----- x, a line break, = 5 -----

  const BrokenLexed: seq<Lexer.LexToken> := [
    Lexer.LexToken("x\n", Lexer.Identifier), Lexer.LexToken("=", Lexer.Assignment),
    Lexer.LexToken("5", Lexer.Number)]

  /** The first line of the token file is `x` alone, which has no separator. */
  lemma BrokenFirstLine()
    ensures DecodeLine("x\n") == Failure(NotEnoughValues)
  {
    StripPadded([], "x", "\n");
    assert [] + "x" + "\n" == "x\n";
    assert !HasSeparator("x");
  }

  const BrokenTail: seq<Lexer.LexToken> := [Lexer.LexToken("=", Lexer.Assignment), Lexer.LexToken("5", Lexer.Number)]

  lemma BrokenSplit()
    ensures BrokenLexed == [Lexer.LexToken("x\n", Lexer.Identifier)] + BrokenTail
  {
  }

  /** The token file of `BrokenLexed` starts with `x` and a line break. */
  lemma BrokenWritten(rest: string)
    requires rest == ": IDENTIFIER\n" + WriteTokens(BrokenTail)
    ensures WriteTokens(BrokenLexed) == "x" + "\n" + rest
  {
    BrokenSplit();
    WriteTokensCons(Lexer.LexToken("x\n", Lexer.Identifier), BrokenTail);
    assert EncodeLine("x\n", "IDENTIFIER") == "x" + "\n" + ": IDENTIFIER\n";
  }

  /** The identifier's line break ends the first line of the token file after `x`. */
  lemma BrokenUnreadable()
    ensures ReadTokens(WriteTokens(BrokenLexed)) == Failure(NotEnoughValues)
  {
    var rest := ": IDENTIFIER\n" + WriteTokens(BrokenTail);
    BrokenWritten(rest);
    WrittenHasNoReturn(BrokenLexed);
    BrokenFirstLine();
    ReadFailsOnFirstLine("x", rest);
  }

  /** A program whose first identifier ends a line cannot be read back from the token file. */
  lemma BrokenProgramFails()
    ensures Run("x\n= 5") == Failure(ReadFailed(NotEnoughValues))
  {
    LexerExamples.IdentifierTakesLineBreak();
    BrokenUnreadable();
  }

  // ----- "a: b" -----

  const QuotedLexed: seq<Lexer.LexToken> := [Lexer.LexToken("\"a: b\"", Lexer.String)]

  /** The separator inside the string literal gives its line three values. */
  lemma QuotedUnreadable()
    ensures ReadTokens(WriteTokens(QuotedLexed)) == Failure(TooManyValues)
  {
    var lexeme := "\"a: b\"";
    var body := lexeme + Separator + "STRING";
    assert WriteTokens(QuotedLexed) == EncodeLine(lexeme, "STRING") == body + "\n" + "";
    assert SeparatorAt(lexeme, 2);
    NameDecodable(Lexer.String);
    SeparatorInLexeme(lexeme, "STRING");
    WrittenHasNoReturn(QuotedLexed);
    ReadFailsOnFirstLine(body, "");
  }

  /** A string literal holding `: ` cannot be read back from the token file. */
  lemma QuotedProgramFails()
    ensures Run("\"a: b\"") == Failure(ReadFailed(TooManyValues))
  {
    LexerExamples.StringWithSeparator();
    QuotedUnreadable();
  }

  // ----- "a: b" and a line break -----

  const SplitLexed: seq<Lexer.LexToken> := [Lexer.LexToken("\"a: b\nc\"", Lexer.String)]

  /** What the token file of `SplitLexed` reads back as: one record per line. */
  const SplitRead: seq<Token> := [Token("\"a", "b"), Token("c\"", "STRING")]

  /** The line `"a: b` splits at its one separator. */
  lemma SplitFirstLine()
    ensures DecodeLine("\"a: b\n") == Success(Token("\"a", "b"))
  {
    StripPadded([], "\"a: b", "\n");
    assert [] + "\"a: b" + "\n" == "\"a: b\n";
    assert "\"a: b" == Join(["\"a", "b"]);
    SplitJoin(["\"a", "b"]);
  }

  /** The line `c": STRING` splits at its one separator. */
  lemma SplitSecondLine()
    ensures DecodeLine("c\": STRING\n") == Success(Token("c\"", "STRING"))
  {
    StripPadded([], "c\": STRING", "\n");
    assert [] + "c\": STRING" + "\n" == "c\": STRING\n";
    assert "c\": STRING" == Join(["c\"", "STRING"]);
    SplitJoin(["c\"", "STRING"]);
  }

  /** The token file of `SplitLexed`: the literal's line break falls inside its record. */
  lemma SplitWritten()
    ensures WriteTokens(SplitLexed) == "\"a: b" + "\n" + ("c\": STRING" + "\n" + "")
  {
  }

  /** Two lines without a line break of their own, each ended by one. */
  lemma TwoLines(a: string, b: string)
    requires forall k :: 0 <= k < |a| ==> a[k] != '\n'
    requires forall k :: 0 <= k < |b| ==> b[k] != '\n'
    ensures Lines(a + "\n" + (b + "\n" + "")) == [a + "\n", b + "\n"]
  {
    LinesStep(a, b + "\n" + "");
    LinesStep(b, "");
  }

  /** Two lines that each decode read back as their two tokens. */
  lemma TwoDecoded(a: string, b: string, s: Token, t: Token)
    requires DecodeLine(a) == Success(s) && DecodeLine(b) == Success(t)
    ensures DecodeLines([a, b]) == Success([s, t])
  {
    assert [b][0] == b && [b][1..] == [];
    assert DecodeLines([b][1..]) == Success([]);
    assert [t] + [] == [t];
    assert DecodeLines([b]) == Success([t]);
    assert [a, b][0] == a && [a, b][1..] == [b];
    assert [s] + [t] == [s, t];
  }

  /** The token file of `SplitLexed` is two lines. */
  lemma SplitLines()
    ensures Lines(UniversalNewlines(WriteTokens(SplitLexed))) == ["\"a: b\n", "c\": STRING\n"]
  {
    var w := WriteTokens(SplitLexed);
    var a, b := "\"a: b", "c\": STRING";
    SplitWritten();
    WrittenHasNoReturn(SplitLexed);
    UniversalNewlinesKeep(w);
    TwoLines(a, b);
    assert a + "\n" == "\"a: b\n" && b + "\n" == "c\": STRING\n";
  }

  /**
   * The line break inside the literal splits its record in two: the token file reads back
   * without error, as two tokens that were never written.
   */
  lemma SplitMisread()
    ensures ReadTokens(WriteTokens(SplitLexed)) == Success(SplitRead)
  {
    SplitLines();
    SplitFirstLine();
    SplitSecondLine();
    TwoDecoded("\"a: b\n", "c\": STRING\n", Token("\"a", "b"), Token("c\"", "STRING"));
  }

  /** The misread tokens start with one whose type is `b`, so the parser finds no identifier. */
  lemma SplitProgramFails()
    ensures Run("\"a: b\nc\"") == Failure(ParseFailed(ParseError(ExpectedIdentifier)))
  {
    LexerExamples.StringWithLineBreak();
    SplitMisread();
    ParserProperties.ParseNeedsIdentifierFirst(SplitRead);
  }
}
