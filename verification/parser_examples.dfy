/**
 * Worked examples of the parser on the token sequences the lexer produces for a few short
 * programs: the tree of a well-formed program, and each way a malformed one fails.
 */
module ParserExamples {
  import opened Results
  import opened Parser
  import opened ParserProperties

  const AssignedName: Tree := Node("identifier", [Leaf(Token("x ", "IDENTIFIER"))])
  const AssignedValue: Tree := Node("number", [Leaf(Token("5", "NUMBER"))])
  const PrintedName: Tree := Node("identifier", [Leaf(Token("x", "IDENTIFIER"))])
  const AssignmentTree: Tree := Node("assignment", [AssignedName, AssignedValue])
  const PrintTree: Tree := Node("print", [PrintedName])

  /** The tree of `x = 5 print x`; the identifier rule leaves the space in the first `x`. */
  const SimpleTree: Tree := Node("program", [AssignmentTree, PrintTree])

  /** The tokens of `x = 5 print x`. */
  const SimpleTokens: seq<Token> := [
    Token("x ", "IDENTIFIER"), Token("=", "ASSIGNMENT"), Token("5", "NUMBER"),
    Token("print", "KEYWORD"), Token("x", "IDENTIFIER")]

  /** The tokens of `x = (5) print x`. */
  const ParenthesisedTokens: seq<Token> := [
    Token("x ", "IDENTIFIER"), Token("=", "ASSIGNMENT"), Token("(", "LPAREN"), Token("5", "NUMBER"),
    Token(")", "RPAREN"), Token("print", "KEYWORD"), Token("x", "IDENTIFIER")]

  /** The tokens of `x = (5`. */
  const UnclosedTokens: seq<Token> := [
    Token("x ", "IDENTIFIER"), Token("=", "ASSIGNMENT"), Token("(", "LPAREN"), Token("5", "NUMBER")]

  /** The tokens of `x = (5 print x`. */
  const UnclosedBeforePrintTokens: seq<Token> := [
    Token("x ", "IDENTIFIER"), Token("=", "ASSIGNMENT"), Token("(", "LPAREN"), Token("5", "NUMBER"),
    Token("print", "KEYWORD"), Token("x", "IDENTIFIER")]

  /** The tokens of `x = % print x`. */
  const ModulusTokens: seq<Token> := [
    Token("x ", "IDENTIFIER"), Token("=", "ASSIGNMENT"), Token("%", "MODULUS"),
    Token("print", "KEYWORD"), Token("x", "IDENTIFIER")]

  /** The tokens of `x = y print y`, whose last identifier has swallowed the keyword. */
  const SwallowedTokens: seq<Token> := [
    Token("x ", "IDENTIFIER"), Token("=", "ASSIGNMENT"), Token("y print y", "IDENTIFIER")]

  /** The tokens of `x + 5 print x`. */
  const PlusForEqualsTokens: seq<Token> := [
    Token("x ", "IDENTIFIER"), Token("+", "PLUS"), Token("5", "NUMBER"),
    Token("print", "KEYWORD"), Token("x", "IDENTIFIER")]

  /** The tokens of `x = 5 + y`. */
  const PlusForPrintTokens: seq<Token> := [
    Token("x ", "IDENTIFIER"), Token("=", "ASSIGNMENT"), Token("5", "NUMBER"),
    Token("+", "PLUS"), Token("y", "IDENTIFIER")]

  /** An assignment and a print statement, each with a bare operand. */
  lemma SimpleParsed()
    ensures Parse(SimpleTokens) == Success(SimpleTree)
  {
    var ts := SimpleTokens;
    assert Wrapped(ts, 2, 0) && Wrapped(ts, 4, 0);
    ParseComplete(ts, 0, 0);
  }

  /** Parentheses around the assigned value leave the same tree. */
  lemma ParenthesisedParsed()
    ensures Parse(ParenthesisedTokens) == Success(SimpleTree)
  {
    var ts := ParenthesisedTokens;
    assert IsOpen(ts[2]);
    assert Wrapped(ts, 2, 1) && Wrapped(ts, 6, 0);
    ParseComplete(ts, 1, 0);
  }

  /** The parser reads past the end looking for `)`: an IndexError, not a ParseError. */
  lemma UnclosedRunsOut()
    ensures Parse(UnclosedTokens) == Failure(IndexError)
  {
    var ts := UnclosedTokens;
    ExpressionAtom(ts, 3);
    assert Expression(ts, 2) == Failure(IndexError);
  }

  /** A token other than `)` after the parenthesised expression. */
  lemma UnclosedBeforePrintFails()
    ensures Parse(UnclosedBeforePrintTokens) == Failure(ParseError(ExpectedRParen))
  {
    var ts := UnclosedBeforePrintTokens;
    ExpressionAtom(ts, 3);
    assert Expression(ts, 2) == Failure(ParseError(ExpectedRParen));
  }

  /** An operator where an expression starts is reported with its repr. */
  lemma ModulusOperandFails()
    ensures Parse(ModulusTokens) == Failure(ParseError(UnexpectedToken(Token("%", "MODULUS"))))
  {
    var ts := ModulusTokens;
    assert Expression(ts, 2) == Failure(ParseError(UnexpectedToken(ts[2])));
  }

  /** The message of that failure, spelled out: the repr is the lexeme, `: `, then the type. */
  lemma ModulusMessage()
    ensures UnexpectedToken(Token("%", "MODULUS")) == "Unexpected token: %: MODULUS"
  {
  }

  /** With the keyword inside an identifier there is no print statement to read. */
  lemma SwallowedRunsOut()
    ensures Parse(SwallowedTokens) == Failure(IndexError)
  {
    var ts := SwallowedTokens;
    ExpressionAtom(ts, 2);
    assert AssignmentStatement(ts, 0).Success? && AssignmentStatement(ts, 0).value.next == 3;
  }

  /** An operator where the `=` belongs. */
  lemma PlusForEqualsFails()
    ensures Parse(PlusForEqualsTokens) == Failure(ParseError(ExpectedEquals))
  {
    ParseMissingEquals(PlusForEqualsTokens);
  }

  /** An operator after a complete assignment, where the `print` belongs. */
  lemma PlusForPrintFails()
    ensures Parse(PlusForPrintTokens) == Failure(ParseError(ExpectedPrint))
  {
    var ts := PlusForPrintTokens;
    assert Wrapped(ts, 2, 0);
    ParseMissingPrint(ts, 0);
  }
}
