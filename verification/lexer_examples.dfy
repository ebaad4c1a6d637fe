/** Worked examples of the lexer on short programs, each derived from the general lemmas. */
module LexerExamples {
  import opened Chars
  import opened Results
  import opened Lexer
  import opened LexerProperties

  // Each example is split into one lemma per lexing step; the example itself only chains
  // the steps, which keeps every proof obligation small.

  /** `print x`: the keyword rule wins although the identifier rule would take all seven characters. */
  lemma PrintIsKeyword()
    ensures Tokenize("print x") == [LexToken("print", Keyword), LexToken("x", Identifier)]
  {
    PrintXStep();
    LoneIdentifier("x");
    Prepend2(LexToken("print", Keyword), LexToken("x", Identifier));
  }

  lemma PrintXStep()
    ensures Tokenize("print x") == [LexToken("print", Keyword)] + Tokenize("x")
  {
    KeywordStep("print x", "print", " ", "x");
  }

  /** `printer`: a keyword directly followed by a word character is part of an identifier. */
  lemma PrinterIsIdentifier()
    ensures Tokenize("printer") == [LexToken("printer", Identifier)]
  {
    KeywordNeedsBoundary("printer", "print");
    LoneIdentifier("printer");
  }

  /** `if_a`: `_` is a word character, so `if` is not a whole word here. */
  lemma IfUnderscoreIsIdentifier()
    ensures Tokenize("if_a") == [LexToken("if_a", Identifier)]
  {
    KeywordNeedsBoundary("if_a", "if");
    LoneIdentifier("if_a");
  }

  /** `a==b`: the equality rule comes before the assignment rule, so `==` is never split. */
  lemma EqualityIsOneToken()
    ensures Tokenize("a==b") == [LexToken("a", Identifier), LexToken("==", Equality), LexToken("b", Identifier)]
  {
    AEqualsEqualsBStep();
    EqualsEqualsBStep();
    LoneIdentifier("b");
    Prepend2(LexToken("==", Equality), LexToken("b", Identifier));
    Prepend3(LexToken("a", Identifier), LexToken("==", Equality), LexToken("b", Identifier));
  }

  lemma AEqualsEqualsBStep()
    ensures Tokenize("a==b") == [LexToken("a", Identifier)] + Tokenize("==b")
  {
    IdentifierStep("a==b", "a", "==b");
  }

  lemma EqualsEqualsBStep()
    ensures Tokenize("==b") == [LexToken("==", Equality)] + Tokenize("b")
  {
    EqualityStep("==b", "", "b");
  }

  /** `===`: EQUALITY takes the first two characters and a lone ASSIGNMENT the third. */
  lemma TripleEquals()
    ensures Tokenize("===") == [LexToken("==", Equality), LexToken("=", Assignment)]
  {
    TripleEqualsStep();
    EqualsAlone();
    Prepend2(LexToken("==", Equality), LexToken("=", Assignment));
  }

  lemma TripleEqualsStep()
    ensures Tokenize("===") == [LexToken("==", Equality)] + Tokenize("=")
  {
    EqualityStep("===", "", "=");
  }

  lemma EqualsAlone()
    ensures Tokenize("=") == [LexToken("=", Assignment)]
  {
    AssignStep("=", "", "");
  }

  /** `x=5`: three tokens. */
  lemma AssignmentWithoutSpaces()
    ensures Tokenize("x=5") == [LexToken("x", Identifier), LexToken("=", Assignment), LexToken("5", Number)]
  {
    XEqualsFiveStep();
    EqualsFiveStep();
    FiveAlone();
  }

  lemma XEqualsFiveStep()
    ensures Tokenize("x=5") == [LexToken("x", Identifier)] + Tokenize("=5")
  {
    IdentifierStep("x=5", "x", "=5");
  }

  lemma EqualsFiveStep()
    ensures Tokenize("=5") == [LexToken("=", Assignment)] + Tokenize("5")
  {
    AssignStep("=5", "", "5");
  }

  lemma FiveAlone()
    ensures Tokenize("5") == [LexToken("5", Number)]
  {
    LoneNumber("5");
  }

  /** `x = 5`: the identifier swallows the space after `x`. */
  lemma IdentifierTakesSpace()
    ensures Tokenize("x = 5") == [LexToken("x ", Identifier), LexToken("=", Assignment), LexToken("5", Number)]
  {
    SpacedXStep();
    SpacedEqualsFiveStep();
    FiveAlone();
  }

  lemma SpacedXStep()
    ensures Tokenize("x = 5") == [LexToken("x ", Identifier)] + Tokenize("= 5")
  {
    IdentifierStep("x = 5", "x ", "= 5");
  }

  lemma SpacedEqualsFiveStep()
    ensures Tokenize("= 5") == [LexToken("=", Assignment)] + Tokenize("5")
  {
    AssignStep("= 5", " ", "5");
  }

  /** `x = y print y`: the second identifier swallows the keyword, leaving three tokens. */
  lemma IdentifierSwallowsKeyword()
    ensures Tokenize("x = y print y") ==
      [LexToken("x ", Identifier), LexToken("=", Assignment), LexToken("y print y", Identifier)]
  {
    XEqualsYPrintYStep();
    EqualsYPrintYStep();
    YPrintYAlone();
  }

  lemma XEqualsYPrintYStep()
    ensures Tokenize("x = y print y") == [LexToken("x ", Identifier)] + Tokenize("= y print y")
  {
    IdentifierStep("x = y print y", "x ", "= y print y");
  }

  lemma EqualsYPrintYStep()
    ensures Tokenize("= y print y") == [LexToken("=", Assignment)] + Tokenize("y print y")
  {
    AssignStep("= y print y", " ", "y print y");
  }

  lemma YPrintYAlone()
    ensures Tokenize("y print y") == [LexToken("y print y", Identifier)]
  {
    LoneIdentifier("y print y");
  }

  /** Characters no rule can start with are dropped one by one. */
  lemma PunctuationIsDropped()
    ensures Tokenize(";@.") == []
  {
    SemicolonDropped();
    AtDropped();
    DotDropped();
  }

  lemma SemicolonDropped()
    ensures Tokenize(";@.") == Tokenize("@.")
  {
    UnstartableStep(';', "@.", ";@.");
  }

  lemma AtDropped()
    ensures Tokenize("@.") == Tokenize(".")
  {
    UnstartableStep('@', ".", "@.");
  }

  lemma DotDropped()
    ensures Tokenize(".") == []
  {
    UnstartableStep('.', "", ".");
  }

  /** `x = (5) print x`: the parentheses are tokens of their own. */
  lemma ParenthesisedAssignment()
    ensures Tokenize("x = (5) print x") == [LexToken("x ", Identifier), LexToken("=", Assignment), LexToken("(", LParen), LexToken("5", Number), LexToken(")", RParen), LexToken("print", Keyword), LexToken("x", Identifier)]
  {
    SpacedXThenParenthesised();
    EqualsParenthesisedFive();
    Prepend7(LexToken("x ", Identifier), LexToken("=", Assignment), LexToken("(", LParen), LexToken("5", Number), LexToken(")", RParen), LexToken("print", Keyword), LexToken("x", Identifier));
  }

  lemma SpacedXThenParenthesised()
    ensures Tokenize("x = (5) print x") == [LexToken("x ", Identifier)] + Tokenize("= (5) print x")
  {
    IdentifierStep("x = (5) print x", "x ", "= (5) print x");
  }

  lemma EqualsParenthesisedFive()
    ensures Tokenize("= (5) print x") == [LexToken("=", Assignment), LexToken("(", LParen), LexToken("5", Number), LexToken(")", RParen), LexToken("print", Keyword), LexToken("x", Identifier)]
  {
    EqualsThenParenthesised();
    ParenthesisedFive();
    Prepend6(LexToken("=", Assignment), LexToken("(", LParen), LexToken("5", Number), LexToken(")", RParen), LexToken("print", Keyword), LexToken("x", Identifier));
  }

  lemma EqualsThenParenthesised()
    ensures Tokenize("= (5) print x") == [LexToken("=", Assignment)] + Tokenize("(5) print x")
  {
    AssignStep("= (5) print x", " ", "(5) print x");
  }

  lemma ParenthesisedFive()
    ensures Tokenize("(5) print x") == [LexToken("(", LParen), LexToken("5", Number), LexToken(")", RParen), LexToken("print", Keyword), LexToken("x", Identifier)]
  {
    OpenThenFiveClose();
    FiveClosePrintX();
    Prepend5(LexToken("(", LParen), LexToken("5", Number), LexToken(")", RParen), LexToken("print", Keyword), LexToken("x", Identifier));
  }

  lemma OpenThenFiveClose()
    ensures Tokenize("(5) print x") == [LexToken("(", LParen)] + Tokenize("5) print x")
  {
    SymbolStep("(5) print x", '(', LParen, "", "5) print x");
  }

  lemma FiveClosePrintX()
    ensures Tokenize("5) print x") == [LexToken("5", Number), LexToken(")", RParen), LexToken("print", Keyword), LexToken("x", Identifier)]
  {
    FiveThenClose();
    ClosePrintX();
    Prepend4(LexToken("5", Number), LexToken(")", RParen), LexToken("print", Keyword), LexToken("x", Identifier));
  }

  lemma FiveThenClose()
    ensures Tokenize("5) print x") == [LexToken("5", Number)] + Tokenize(") print x")
  {
    NumberStep("5) print x", "5", "", ") print x");
  }

  lemma ClosePrintX()
    ensures Tokenize(") print x") == [LexToken(")", RParen), LexToken("print", Keyword), LexToken("x", Identifier)]
  {
    CloseThenPrintX();
    PrintIsKeyword();
    Prepend3(LexToken(")", RParen), LexToken("print", Keyword), LexToken("x", Identifier));
  }

  lemma CloseThenPrintX()
    ensures Tokenize(") print x") == [LexToken(")", RParen)] + Tokenize("print x")
  {
    SymbolStep(") print x", ')', RParen, " ", "print x");
  }

  /** `x = (5`: the closing parenthesis is missing. */
  lemma UnclosedParenthesis()
    ensures Tokenize("x = (5") == [LexToken("x ", Identifier), LexToken("=", Assignment), LexToken("(", LParen), LexToken("5", Number)]
  {
    SpacedXThenUnclosed();
    EqualsUnclosed();
    Prepend4(LexToken("x ", Identifier), LexToken("=", Assignment), LexToken("(", LParen), LexToken("5", Number));
  }

  lemma SpacedXThenUnclosed()
    ensures Tokenize("x = (5") == [LexToken("x ", Identifier)] + Tokenize("= (5")
  {
    IdentifierStep("x = (5", "x ", "= (5");
  }

  lemma EqualsUnclosed()
    ensures Tokenize("= (5") == [LexToken("=", Assignment), LexToken("(", LParen), LexToken("5", Number)]
  {
    EqualsThenUnclosed();
    OpenFive();
    Prepend3(LexToken("=", Assignment), LexToken("(", LParen), LexToken("5", Number));
  }

  lemma EqualsThenUnclosed()
    ensures Tokenize("= (5") == [LexToken("=", Assignment)] + Tokenize("(5")
  {
    AssignStep("= (5", " ", "(5");
  }

  lemma OpenFive()
    ensures Tokenize("(5") == [LexToken("(", LParen), LexToken("5", Number)]
  {
    OpenThenFive();
    FiveAlone();
    Prepend2(LexToken("(", LParen), LexToken("5", Number));
  }

  lemma OpenThenFive()
    ensures Tokenize("(5") == [LexToken("(", LParen)] + Tokenize("5")
  {
    SymbolStep("(5", '(', LParen, "", "5");
  }

  /** `x = (5 print x`: `print` stands where `)` should. */
  lemma UnclosedBeforePrint()
    ensures Tokenize("x = (5 print x") == [LexToken("x ", Identifier), LexToken("=", Assignment), LexToken("(", LParen), LexToken("5", Number), LexToken("print", Keyword), LexToken("x", Identifier)]
  {
    SpacedXThenUnclosedPrint();
    EqualsUnclosedPrint();
    Prepend6(LexToken("x ", Identifier), LexToken("=", Assignment), LexToken("(", LParen), LexToken("5", Number), LexToken("print", Keyword), LexToken("x", Identifier));
  }

  lemma SpacedXThenUnclosedPrint()
    ensures Tokenize("x = (5 print x") == [LexToken("x ", Identifier)] + Tokenize("= (5 print x")
  {
    IdentifierStep("x = (5 print x", "x ", "= (5 print x");
  }

  lemma EqualsUnclosedPrint()
    ensures Tokenize("= (5 print x") == [LexToken("=", Assignment), LexToken("(", LParen), LexToken("5", Number), LexToken("print", Keyword), LexToken("x", Identifier)]
  {
    EqualsThenUnclosedPrint();
    OpenFivePrintX();
    Prepend5(LexToken("=", Assignment), LexToken("(", LParen), LexToken("5", Number), LexToken("print", Keyword), LexToken("x", Identifier));
  }

  lemma EqualsThenUnclosedPrint()
    ensures Tokenize("= (5 print x") == [LexToken("=", Assignment)] + Tokenize("(5 print x")
  {
    AssignStep("= (5 print x", " ", "(5 print x");
  }

  lemma OpenFivePrintX()
    ensures Tokenize("(5 print x") == [LexToken("(", LParen), LexToken("5", Number), LexToken("print", Keyword), LexToken("x", Identifier)]
  {
    OpenThenFivePrintX();
    FivePrintX();
    Prepend4(LexToken("(", LParen), LexToken("5", Number), LexToken("print", Keyword), LexToken("x", Identifier));
  }

  lemma OpenThenFivePrintX()
    ensures Tokenize("(5 print x") == [LexToken("(", LParen)] + Tokenize("5 print x")
  {
    SymbolStep("(5 print x", '(', LParen, "", "5 print x");
  }

  /** `x = % print x`: `%` is a MODULUS token where an expression should start. */
  lemma ModulusOperand()
    ensures Tokenize("x = % print x") == [LexToken("x ", Identifier), LexToken("=", Assignment), LexToken("%", Modulus), LexToken("print", Keyword), LexToken("x", Identifier)]
  {
    SpacedXThenModulus();
    EqualsModulusPrintX();
    Prepend5(LexToken("x ", Identifier), LexToken("=", Assignment), LexToken("%", Modulus), LexToken("print", Keyword), LexToken("x", Identifier));
  }

  lemma SpacedXThenModulus()
    ensures Tokenize("x = % print x") == [LexToken("x ", Identifier)] + Tokenize("= % print x")
  {
    IdentifierStep("x = % print x", "x ", "= % print x");
  }

  lemma EqualsModulusPrintX()
    ensures Tokenize("= % print x") == [LexToken("=", Assignment), LexToken("%", Modulus), LexToken("print", Keyword), LexToken("x", Identifier)]
  {
    EqualsThenModulus();
    ModulusPrintX();
    Prepend4(LexToken("=", Assignment), LexToken("%", Modulus), LexToken("print", Keyword), LexToken("x", Identifier));
  }

  lemma EqualsThenModulus()
    ensures Tokenize("= % print x") == [LexToken("=", Assignment)] + Tokenize("% print x")
  {
    AssignStep("= % print x", " ", "% print x");
  }

  lemma ModulusPrintX()
    ensures Tokenize("% print x") == [LexToken("%", Modulus), LexToken("print", Keyword), LexToken("x", Identifier)]
  {
    ModulusThenPrintX();
    PrintIsKeyword();
    Prepend3(LexToken("%", Modulus), LexToken("print", Keyword), LexToken("x", Identifier));
  }

  lemma ModulusThenPrintX()
    ensures Tokenize("% print x") == [LexToken("%", Modulus)] + Tokenize("print x")
  {
    SymbolStep("% print x", '%', Modulus, " ", "print x");
  }

  /** `x 5`: a digit is a word character, so the identifier runs on over the space and the number. */
  lemma NameRunsIntoNumber()
    ensures Tokenize("x 5") == [LexToken("x 5", Identifier)]
  {
    LoneIdentifier("x 5");
  }

  /** `x` on one line and `= 5` on the next: the identifier takes the line break. */
  lemma IdentifierTakesLineBreak()
    ensures Tokenize("x\n= 5") == [LexToken("x\n", Identifier), LexToken("=", Assignment), LexToken("5", Number)]
  {
    BrokenXThenEqualsFive();
    EqualsFive();
    Prepend3(LexToken("x\n", Identifier), LexToken("=", Assignment), LexToken("5", Number));
  }

  lemma BrokenXThenEqualsFive()
    ensures Tokenize("x\n= 5") == [LexToken("x\n", Identifier)] + Tokenize("= 5")
  {
    IdentifierStep("x\n= 5", "x\n", "= 5");
  }

  lemma EqualsFive()
    ensures Tokenize("= 5") == [LexToken("=", Assignment), LexToken("5", Number)]
  {
    SpacedEqualsFiveStep();
    FiveAlone();
    Prepend2(LexToken("=", Assignment), LexToken("5", Number));
  }

  /** `x = 5 print x`: an assignment and a print statement, five tokens. */
  lemma AssignThenPrint()
    ensures Tokenize("x = 5 print x") == [LexToken("x ", Identifier), LexToken("=", Assignment),
      LexToken("5", Number), LexToken("print", Keyword), LexToken("x", Identifier)]
  {
    SpacedXThenRest();
    EqualsFivePrintX();
    Prepend5(LexToken("x ", Identifier), LexToken("=", Assignment), LexToken("5", Number), LexToken("print", Keyword), LexToken("x", Identifier));
  }

  lemma SpacedXThenRest()
    ensures Tokenize("x = 5 print x") == [LexToken("x ", Identifier)] + Tokenize("= 5 print x")
  {
    IdentifierStep("x = 5 print x", "x ", "= 5 print x");
  }

  lemma EqualsFivePrintX()
    ensures Tokenize("= 5 print x") ==
      [LexToken("=", Assignment), LexToken("5", Number), LexToken("print", Keyword), LexToken("x", Identifier)]
  {
    EqualsThenFivePrintX();
    FivePrintX();
    Prepend4(LexToken("=", Assignment), LexToken("5", Number), LexToken("print", Keyword), LexToken("x", Identifier));
  }

  lemma EqualsThenFivePrintX()
    ensures Tokenize("= 5 print x") == [LexToken("=", Assignment)] + Tokenize("5 print x")
  {
    AssignStep("= 5 print x", " ", "5 print x");
  }

  lemma FivePrintX()
    ensures Tokenize("5 print x") == [LexToken("5", Number), LexToken("print", Keyword), LexToken("x", Identifier)]
  {
    FiveThenPrintX();
    PrintIsKeyword();
    Prepend3(LexToken("5", Number), LexToken("print", Keyword), LexToken("x", Identifier));
  }

  lemma FiveThenPrintX()
    ensures Tokenize("5 print x") == [LexToken("5", Number)] + Tokenize("print x")
  {
    NumberStep("5 print x", "5", " ", "print x");
  }

  /** An unterminated string literal loses its quote and the rest lexes on its own. */
  lemma UnterminatedString()
    ensures Tokenize("\"abc") == [LexToken("abc", Identifier)]
  {
    QuoteDropped();
    AbcAlone();
  }

  lemma QuoteDropped()
    ensures Tokenize("\"abc") == Tokenize("abc")
  {
    NoRuleForQuote("\"abc");
    UnstartableDrop("\"abc", "abc");
  }

  lemma AbcAlone()
    ensures Tokenize("abc") == [LexToken("abc", Identifier)]
  {
    LoneIdentifier("abc");
  }

  /** A complete string literal, escape included, is one STRING token. */
  lemma EscapedString()
    ensures Tokenize("\"a\\\"b\"") == [LexToken("\"a\\\"b\"", String)]
  {
    var code := "\"a\\\"b\"";
    assert StringBody(code, 1) == Some(6);
    QuotedIsString(code);
    assert code[..6] == code;
    TokenizeLast(code, LexToken(code, String));
  }

  /** A string literal holding `: ` is one STRING token, separator and all. */
  lemma StringWithSeparator()
    ensures Tokenize("\"a: b\"") == [LexToken("\"a: b\"", String)]
  {
    var code := "\"a: b\"";
    assert StringBody(code, 1) == Some(6);
    QuotedIsString(code);
    assert code[..6] == code;
    TokenizeLast(code, LexToken(code, String));
  }

  /** A string literal may span lines: `[^"\\]` accepts a line break. */
  lemma StringWithLineBreak()
    ensures Tokenize("\"a: b\nc\"") == [LexToken("\"a: b\nc\"", String)]
  {
    var code := "\"a: b\nc\"";
    assert StringBody(code, 1) == Some(8);
    QuotedIsString(code);
    assert code[..8] == code;
    TokenizeLast(code, LexToken(code, String));
  }

  /** The keyword `w` at the start of `code` is emitted and the whitespace `pad` after it skipped. */
  lemma KeywordStep(code: string, w: string, pad: string, rest: string)
    requires w in KeywordWords && code == w + pad + rest && AllSpace(pad) && IsStripped(code)
    requires |code| == |w| || !IsWordChar(code[|w|])
    ensures Tokenize(code) == [LexToken(w, Keyword)] + Tokenize(rest)
  {
    assert w <= code;
    KeywordWins(code, w);
    EmitThen(code, LexToken(w, Keyword), pad, rest);
  }

  /** Dropping the unstartable character `c` from the front of `code`. */
  lemma UnstartableStep(c: char, rest: string, code: string)
    requires code == [c] + rest && !IsSpace(c) && !CanStartToken(c)
    ensures Tokenize(code) == Tokenize(rest)
  {
    UnstartableIsDropped(c, rest);
  }

  /** The identifier `id` at the start of `code` is emitted and lexing goes on with `rest`. */
  lemma IdentifierStep(code: string, id: string, rest: string)
    requires IsStripped(code) && code == id + rest && 0 < |id| && 0 < |rest| && IsIdentifierStart(code[0])
    requires forall k :: 1 <= k < |id| ==> IsIdentifierPart(code[k])
    requires !IsIdentifierPart(rest[0])
    requires MatchKeyword(code).None?
    ensures Tokenize(code) == [LexToken(id, Identifier)] + Tokenize(rest)
  {
    assert code[|id|] == rest[0];
    IdentifierPrefix(code, |id|);
    assert code[..|id|] == id;
    EmitThen(code, LexToken(id, Identifier), "", rest);
  }

  /** `==` is emitted and the whitespace `pad` after it skipped. */
  lemma EqualityStep(code: string, pad: string, rest: string)
    requires code == "==" + pad + rest && AllSpace(pad) && IsStripped(code)
    ensures Tokenize(code) == [LexToken("==", Equality)] + Tokenize(rest)
  {
    assert code[..2] == "==";
    EqualityWins(code);
    EmitThen(code, LexToken("==", Equality), pad, rest);
  }

  /** A lone `=` is emitted and the whitespace `pad` after it skipped. */
  lemma AssignStep(code: string, pad: string, rest: string)
    requires code == "=" + pad + rest && AllSpace(pad) && IsStripped(code)
    requires 0 < |pad| || |rest| == 0 || rest[0] != '='
    ensures Tokenize(code) == [LexToken("=", Assignment)] + Tokenize(rest)
  {
    assert code[0] == '=';
    assert 1 < |code| ==> code[1] == (pad + rest)[0];
    LoneEqualsIsAssignment(code);
    EmitThen(code, LexToken("=", Assignment), pad, rest);
  }

  /** The digits `digits` at the start of `code` are emitted and the whitespace `pad` after them skipped. */
  lemma NumberStep(code: string, digits: string, pad: string, rest: string)
    requires code == digits + pad + rest && AllSpace(pad) && IsStripped(code)
    requires 0 < |digits| < |code| && forall k :: 0 <= k < |digits| ==> IsDigit(digits[k])
    requires !IsDigit(code[|digits|])
    ensures Tokenize(code) == [LexToken(digits, Number)] + Tokenize(rest)
  {
    assert forall k :: 0 <= k < |digits| ==> code[k] == digits[k];
    DigitSpanUpTo(code, |digits|);
    DigitsAreNumber(code);
    assert code[..|digits|] == digits;
    EmitThen(code, LexToken(digits, Number), pad, rest);
  }

  /** The one-character operator or punctuation mark `symbol` of category `cat` is emitted and the whitespace `pad` after it skipped. */
  lemma SymbolStep(code: string, symbol: char, cat: Category, pad: string, rest: string)
    requires SymbolCategory(symbol) == Some(cat)
    requires code == [symbol] + pad + rest && AllSpace(pad) && IsStripped(code)
    ensures Tokenize(code) == [LexToken([symbol], cat)] + Tokenize(rest)
  {
    assert code[0] == symbol && code[..1] == [symbol];
    SymbolIsToken(code);
    EmitThen(code, LexToken([symbol], cat), pad, rest);
  }

  /** A lexing step that emits `t` and skips the whitespace `pad` after it. */
  lemma EmitThen(code: string, t: LexToken, pad: string, rest: string)
    requires IsStripped(code) && NextToken(code) == Some(t)
    requires AllSpace(pad) && code == t.lexeme + pad + rest
    ensures Tokenize(code) == [t] + Tokenize(rest)
  {
    DropPrefix(t.lexeme, pad, rest);
    TokenizeEmits(code, t);
    TokenizeSkipsSpace(pad, rest);
  }

  lemma DropPrefix(a: string, b: string, c: string)
    ensures (a + b + c)[|a|..] == b + c
  {
    assert (a + b + c)[|a|..] == (a + (b + c))[|a|..];
  }

  /** A lexing step in which no rule matches. */
  lemma UnstartableDrop(code: string, rest: string)
    requires IsStripped(code) && 0 < |code| && NextToken(code).None? && code[1..] == rest
    ensures Tokenize(code) == Tokenize(rest)
  {
    TokenizeDrops(code);
  }

  /** A text that is one identifier from end to end. */
  lemma LoneIdentifier(code: string)
    requires IsStripped(code) && 0 < |code| && IsIdentifierStart(code[0])
    requires forall k :: 1 <= k < |code| ==> IsIdentifierPart(code[k])
    requires MatchKeyword(code).None?
    ensures Tokenize(code) == [LexToken(code, Identifier)]
  {
    WholeIdentifier(code);
    TokenizeLast(code, LexToken(code, Identifier));
  }

  lemma WholeIdentifier(code: string)
    requires 0 < |code| && IsIdentifierStart(code[0])
    requires forall k :: 1 <= k < |code| ==> IsIdentifierPart(code[k])
    requires MatchKeyword(code).None?
    ensures NextToken(code) == Some(LexToken(code, Identifier))
  {
    IdentifierUnlessKeyword(code);
    SpanAll(code[1..]);
    assert code[..|code|] == code;
  }

  /** An identifier of `n` characters at the start of `code`, cut by a character it cannot take. */
  lemma IdentifierBefore(code: string, n: nat)
    requires IsStripped(code) && 0 < n < |code| && IsIdentifierStart(code[0])
    requires forall k :: 1 <= k < n ==> IsIdentifierPart(code[k])
    requires !IsIdentifierPart(code[n])
    requires MatchKeyword(code).None?
    ensures Tokenize(code) == [LexToken(code[..n], Identifier)] + Tokenize(code[n..])
  {
    IdentifierPrefix(code, n);
    TokenizeEmits(code, LexToken(code[..n], Identifier));
  }

  lemma IdentifierPrefix(code: string, n: nat)
    requires 0 < n < |code| && IsIdentifierStart(code[0])
    requires forall k :: 1 <= k < n ==> IsIdentifierPart(code[k])
    requires !IsIdentifierPart(code[n])
    requires MatchKeyword(code).None?
    ensures NextToken(code) == Some(LexToken(code[..n], Identifier))
  {
    IdentifierLength(code, n);
    IdentifierUnlessKeyword(code);
  }

  lemma IdentifierLength(code: string, n: nat)
    requires 0 < n < |code|
    requires forall k :: 1 <= k < n ==> IsIdentifierPart(code[k])
    requires !IsIdentifierPart(code[n])
    ensures 1 + Span(IsIdentifierPart, code[1..]) == n
  {
    var tail := code[1..];
    forall k | 0 <= k < n - 1 ensures IsIdentifierPart(tail[k]) {
      assert tail[k] == code[k + 1];
    }
    assert tail[n - 1] == code[n];
    SpanUpTo(tail, n - 1);
  }

  /** A text that is one run of digits. */
  lemma LoneNumber(code: string)
    requires IsStripped(code) && 0 < |code| && forall k :: 0 <= k < |code| ==> IsDigit(code[k])
    ensures Tokenize(code) == [LexToken(code, Number)]
  {
    WholeNumber(code);
    TokenizeLast(code, LexToken(code, Number));
  }

  lemma WholeNumber(code: string)
    requires 0 < |code| && forall k :: 0 <= k < |code| ==> IsDigit(code[k])
    ensures NextToken(code) == Some(LexToken(code, Number))
  {
    DigitsAreNumber(code);
    DigitSpanAll(code);
    assert code[..|code|] == code;
  }

  /** The last lexing step: the token takes all of the remaining text. */
  lemma TokenizeLast(code: string, t: LexToken)
    requires IsStripped(code) && 0 < |code| && NextToken(code) == Some(t) && |t.lexeme| == |code|
    ensures Tokenize(code) == [t]
  {
    TokenizeEmits(code, t);
    assert code[|t.lexeme|..] == [];
  }

  lemma {:induction false} SpanAll(s: string)
    requires forall k :: 0 <= k < |s| ==> IsIdentifierPart(s[k])
    ensures Span(IsIdentifierPart, s) == |s|
  {
    if 0 < |s| {
      SpanAll(s[1..]);
    }
  }

  lemma {:induction false} DigitSpanAll(s: string)
    requires forall k :: 0 <= k < |s| ==> IsDigit(s[k])
    ensures Span(IsDigit, s) == |s|
  {
    if 0 < |s| {
      DigitSpanAll(s[1..]);
    }
  }

  lemma {:induction false} DigitSpanUpTo(s: string, n: nat)
    requires n < |s| && !IsDigit(s[n])
    requires forall k :: 0 <= k < n ==> IsDigit(s[k])
    ensures Span(IsDigit, s) == n
  {
    if 0 < n {
      DigitSpanUpTo(s[1..], n - 1);
    }
  }

  lemma {:induction false} SpanUpTo(s: string, n: nat)
    requires n < |s| && !IsIdentifierPart(s[n])
    requires forall k :: 0 <= k < n ==> IsIdentifierPart(s[k])
    ensures Span(IsIdentifierPart, s) == n
  {
    if 0 < n {
      SpanUpTo(s[1..], n - 1);
    }
  }

  // A sequence display split after its first element. These lemmas model nothing of the
  // lexer: they state the equalities apart from any lexing, so that the chains above need no
  // reasoning about sequence extensionality next to `Tokenize`, which keeps them within the
  // resource limit.

  lemma Prepend2<T>(a: T, b: T)
    ensures [a] + [b] == [a, b]
  {
  }

  lemma Prepend3<T>(a: T, b: T, c: T)
    ensures [a] + [b, c] == [a, b, c]
  {
  }

  lemma Prepend4<T>(a: T, b: T, c: T, d: T)
    ensures [a] + [b, c, d] == [a, b, c, d]
  {
  }

  lemma Prepend5<T>(a: T, b: T, c: T, d: T, e: T)
    ensures [a] + [b, c, d, e] == [a, b, c, d, e]
  {
  }

  lemma Prepend6<T>(a: T, b: T, c: T, d: T, e: T, f: T)
    ensures [a] + [b, c, d, e, f] == [a, b, c, d, e, f]
  {
  }

  lemma Prepend7<T>(a: T, b: T, c: T, d: T, e: T, f: T, g: T)
    ensures [a] + [b, c, d, e, f, g] == [a, b, c, d, e, f, g]
  {
  }

  lemma OnlyStringsStartWithQuote()
    ensures forall j :: 0 <= j < |Rules| && j != 1 ==> !CanStart(Rules[j].pattern, '"')
  {
    forall j | 0 <= j < |Rules| && j != 1 ensures !CanStart(Rules[j].pattern, '"') {
      if j == 0 {} else if j == 2 {} else if j == 3 {} else if j == 4 {} else if j == 5 {}
      else if j == 6 {} else if j == 7 {} else if j == 8 {} else if j == 9 {} else if j == 10 {}
      else if j == 11 {} else if j == 12 {} else if j == 13 {} else {}
    }
  }

  /** The quote rule is the only one that can begin with `"`, and it needs a closing quote. */
  lemma NoRuleForQuote(code: string)
    requires 0 < |code| && code[0] == '"' && StringBody(code, 1).None?
    ensures NextToken(code).None?
  {
    OnlyStringsStartWithQuote();
    NoEarlierRule(code, 1);
    NoLaterRule(code, 2);
  }
}
