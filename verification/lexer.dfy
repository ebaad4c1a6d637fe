/**
 * The priority-ordered lexer of Lexer.py: fifteen (pattern, category) rules tried in table
 * order against the start of the stripped remaining text; the first rule that matches
 * produces a token, an unmatched character is dropped.
 *
 * Each regular expression of the table is modelled by a hand-written matcher that returns
 * the length of the text `re.match` would match at position 0, or None.
 */
module Lexer {
  import opened Chars
  import opened Results

  /** The token categories of Lexer.py. */
  datatype Category =
    | Keyword | String | Identifier | Number
    | Plus | Minus | Multi | Division | Modulus
    | Equality | Assignment
    | LParen | RParen | Comma | Colon

  /** The category's name as written to the token file. */
  function Name(c: Category): string
  {
    match c
    case Keyword => "KEYWORD"
    case String => "STRING"
    case Identifier => "IDENTIFIER"
    case Number => "NUMBER"
    case Plus => "PLUS"
    case Minus => "MINUS"
    case Multi => "MULTI"
    case Division => "DIVISION"
    case Modulus => "MODULUS"
    case Equality => "EQUALITY"
    case Assignment => "ASSIGNMENT"
    case LParen => "LPAREN"
    case RParen => "RPAREN"
    case Comma => "COMMA"
    case Colon => "COLON"
  }

  /** The shapes of regular expression that occur in the rule table. */
  datatype Pattern =
    | KeywordWord      // \b(if|else|print)\b
    | QuotedString     // "(?:\\.|[^"\\])*"
    | IdentifierRun    // [a-zA-Z_][\w\s]*
    | Digits           // \d+
    | Exactly(text: string)  // a fixed string such as \+ or ==
    | EqualsRun        // (?<!\=)=+(?!=)

  datatype Rule = Rule(pattern: Pattern, category: Category)

  /** The rule table, in priority order. */
  const Rules: seq<Rule> := [
    Rule(KeywordWord, Keyword),
    Rule(QuotedString, String),
    Rule(IdentifierRun, Identifier),
    Rule(Digits, Number),
    Rule(Exactly("+"), Plus),
    Rule(Exactly("-"), Minus),
    Rule(Exactly("*"), Multi),
    Rule(Exactly("/"), Division),
    Rule(Exactly("%"), Modulus),
    Rule(Exactly("=="), Equality),
    Rule(EqualsRun, Assignment),
    Rule(Exactly("("), LParen),
    Rule(Exactly(")"), RParen),
    Rule(Exactly(","), Comma),
    Rule(Exactly(":"), Colon)
  ]

  /** A lexer token: the matched text and the category of the rule that matched it. */
  datatype LexToken = LexToken(lexeme: string, category: Category)

  const KeywordWords: seq<string> := ["if", "else", "print"]

  predicate IsIdentifierStart(c: char) {
    IsAsciiLetter(c) || c == '_'
  }

  /** The class `[\w\s]` that continues an identifier. */
  predicate IsIdentifierPart(c: char) {
    IsWordChar(c) || IsSpace(c)
  }

  predicate IsEqualsSign(c: char) {
    c == '='
  }

  /** The regex assertion `\b` at index `i` of `s`. */
  predicate WordBoundary(s: string, i: nat)
    requires i <= |s|
  {
    (0 < i && IsWordChar(s[i - 1])) != (i < |s| && IsWordChar(s[i]))
  }

  /** `\bw\b` matches at the start of `s`. */
  predicate WholeWordAt(s: string, w: string) {
    WordBoundary(s, 0) && w <= s && WordBoundary(s, |w|)
  }

  /** `\b(if|else|print)\b`: the alternatives are tried left to right. */
  function MatchKeyword(s: string): Option<nat>
  {
    if WholeWordAt(s, "if") then Some(2)
    else if WholeWordAt(s, "else") then Some(4)
    else if WholeWordAt(s, "print") then Some(5)
    else None
  }

  /**
   * The body and closing quote of `"(?:\\.|[^"\\])*"` from index `i` on. The two
   * alternatives start with different characters and neither starts with `"`, so the
   * regex has exactly one way to match and backtracking never finds another.
   */
  function StringBody(s: string, i: nat): (r: Option<nat>)
    ensures r.Some? ==> i < r.value <= |s| && s[r.value - 1] == '"'
    decreases |s| - i
  {
    if i >= |s| then None
    else if s[i] == '"' then Some(i + 1)
    else if s[i] == '\\' then
      if i + 1 < |s| && s[i + 1] != '\n' then StringBody(s, i + 2) else None
    else StringBody(s, i + 1)
  }

  /** Length of the text the pattern matches at the start of `s`, if any. */
  function MatchPattern(p: Pattern, s: string): (r: Option<nat>)
    ensures r.Some? ==> r.value <= |s|
  {
    match p
    case KeywordWord => MatchKeyword(s)
    case QuotedString =>
      if 0 < |s| && s[0] == '"' then StringBody(s, 1) else None
    case IdentifierRun =>
      if 0 < |s| && IsIdentifierStart(s[0]) then Some(1 + Span(IsIdentifierPart, s[1..])) else None
    case Digits =>
      var n := Span(IsDigit, s);
      if 0 < n then Some(n) else None
    case Exactly(text) =>
      if text <= s then Some(|text|) else None
    case EqualsRun =>
      // The lookbehind looks before the start of the string and always succeeds; the
      // greedy run is maximal, so the lookahead after it succeeds as well.
      var n := Span(IsEqualsSign, s);
      if 0 < n then Some(n) else None
  }

  predicate Matches(r: Rule, s: string) {
    MatchPattern(r.pattern, s).Some?
  }

  /** Rule `i` matches `s` and no earlier rule of the table does. */
  predicate IsFirstMatch(s: string, i: nat) {
    i < |Rules| && Matches(Rules[i], s) && forall j :: 0 <= j < i ==> !Matches(Rules[j], s)
  }

  /** The first rule at or after index `i` that matches `s`. */
  function FirstRuleFrom(s: string, i: nat): (r: Option<nat>)
    requires i <= |Rules|
    ensures r.Some? ==> i <= r.value < |Rules| && Matches(Rules[r.value], s)
    ensures r.Some? ==> forall j :: i <= j < r.value ==> !Matches(Rules[j], s)
    ensures r.None? ==> forall j :: i <= j < |Rules| ==> !Matches(Rules[j], s)
    decreases |Rules| - i
  {
    if i == |Rules| then None
    else if Matches(Rules[i], s) then Some(i)
    else FirstRuleFrom(s, i + 1)
  }

  /** The table index of the rule that wins on `s`: the first one that matches. */
  function FirstRule(s: string): (r: Option<nat>)
    ensures r.Some? ==> IsFirstMatch(s, r.value)
    ensures r.None? <==> forall j :: 0 <= j < |Rules| ==> !Matches(Rules[j], s)
  {
    FirstRuleFrom(s, 0)
  }

  /** At most one rule is the first to match. */
  lemma FirstMatchUnique(s: string, i: nat)
    requires IsFirstMatch(s, i)
    ensures FirstRule(s) == Some(i)
  {
  }

  /** Every rule of the table consumes at least one character when it matches. */
  lemma RulesConsume(i: nat, s: string)
    requires i < |Rules| && Matches(Rules[i], s)
    ensures 0 < MatchPattern(Rules[i].pattern, s).value
  {
  }

  /** The token the winning rule produces on `code`, or None when no rule matches. */
  function NextToken(code: string): (r: Option<LexToken>)
    ensures r.None? <==> forall j :: 0 <= j < |Rules| ==> !Matches(Rules[j], code)
    ensures r.Some? ==> 0 < |r.value.lexeme| && r.value.lexeme <= code
    ensures r.Some? ==> exists i: nat :: IsFirstMatch(code, i) &&
                          r.value.category == Rules[i].category &&
                          MatchPattern(Rules[i].pattern, code) == Some(|r.value.lexeme|)
  {
    match FirstRule(code)
    case None => None
    case Some(i) =>
      RulesConsume(i, code);
      var n := MatchPattern(Rules[i].pattern, code).value;
      Some(LexToken(code[..n], Rules[i].category))
  }

  /**
   * Lexer.py's `tokenize`: strip the remaining text, let the winning rule produce a token
   * and continue after it, or drop one character when no rule matches.
   */
  function Tokenize(text: string): (r: seq<LexToken>)
    ensures |r| <= |text|
    ensures forall k :: 0 <= k < |r| ==> 0 < |r[k].lexeme| && !IsSpace(r[k].lexeme[0])
    decreases |text|
  {
    var code := Strip(text);
    if |code| == 0 then []
    else match NextToken(code)
      case Some(t) => [t] + Tokenize(code[|t.lexeme|..])
      case None => Tokenize(code[1..])
  }

  /** Tokenizing ignores whitespace around the text. */
  lemma TokenizeStrip(text: string)
    ensures Tokenize(Strip(text)) == Tokenize(text)
  {
    StripStripped(Strip(text));
  }

  /** One iteration of the lexing loop on already stripped, non-empty text. */
  lemma TokenizeStep(code: string)
    requires IsStripped(code) && 0 < |code|
    ensures NextToken(code).Some? ==>
      Tokenize(code) == [NextToken(code).value] + Tokenize(Strip(code[|NextToken(code).value.lexeme|..]))
    ensures NextToken(code).None? ==> Tokenize(code) == Tokenize(Strip(code[1..]))
  {
    StripStripped(code);
    match NextToken(code)
    case Some(t) => TokenizeStrip(code[|t.lexeme|..]);
    case None => TokenizeStrip(code[1..]);
  }

  /** The iteration in which rule `i` wins: its match becomes the next token. */
  lemma EmitStep(code: string, i: nat)
    requires IsStripped(code) && 0 < |code| && IsFirstMatch(code, i)
    ensures 0 < MatchPattern(Rules[i].pattern, code).value <= |code|
    ensures var n := MatchPattern(Rules[i].pattern, code).value;
            Tokenize(code) == [LexToken(code[..n], Rules[i].category)] + Tokenize(Strip(code[n..]))
  {
    TokenizeStep(code);
    FirstMatchUnique(code, i);
    RulesConsume(i, code);
  }

  /** The iteration in which no rule matches: the first character is dropped. */
  lemma DropStep(code: string)
    requires IsStripped(code) && 0 < |code|
    requires forall j :: 0 <= j < |Rules| ==> !Matches(Rules[j], code)
    ensures Tokenize(code) == Tokenize(Strip(code[1..]))
  {
    TokenizeStep(code);
  }

  /**
   * The `for pattern, token_type in patterns` search of Lexer.py's `tokenize`: the index of
   * the first rule that matches `code`, or `|Rules|` when the loop runs to its end.
   */
  method FindRule(code: string) returns (i: nat)
    ensures i <= |Rules|
    ensures i < |Rules| ==> IsFirstMatch(code, i)
    ensures i == |Rules| ==> forall j :: 0 <= j < |Rules| ==> !Matches(Rules[j], code)
  {
    i := 0;
    while i < |Rules| && !Matches(Rules[i], code)
      invariant i <= |Rules|
      invariant forall j :: 0 <= j < i ==> !Matches(Rules[j], code)
    {
      i := i + 1;
    }
  }

  /**
   * The body of the rule loop once rule `i` has matched: `value = match.group(0)` becomes
   * the token, and lexing continues on the stripped text after it.
   */
  method EmitToken(code: string, i: nat) returns (token: LexToken, rest: string)
    requires IsStripped(code) && 0 < |code| && IsFirstMatch(code, i)
    ensures token.lexeme <= code && 0 < |token.lexeme| && token.category == Rules[i].category
    ensures rest == Strip(code[|token.lexeme|..]) && |rest| < |code|
    ensures Tokenize(code) == [token] + Tokenize(rest)
  {
    EmitStep(code, i);
    var n := MatchPattern(Rules[i].pattern, code).value;
    token := LexToken(code[..n], Rules[i].category);
    rest := Strip(code[n..]);
  }

  /** The branch of Lexer.py's `tokenize` in which no rule matched: `code = code[1:].strip()`. */
  method DropCharacter(code: string) returns (rest: string)
    requires IsStripped(code) && 0 < |code|
    requires forall j :: 0 <= j < |Rules| ==> !Matches(Rules[j], code)
    ensures rest == Strip(code[1..]) && |rest| < |code|
    ensures Tokenize(code) == Tokenize(rest)
  {
    DropStep(code);
    rest := Strip(code[1..]);
  }

  /**
   * One pass of the `while code:` loop of Lexer.py's `tokenize`: find the first matching rule
   * and emit its token, or drop a character; what remains to lex shrinks.
   */
  method LexOnce(tokens: seq<LexToken>, code: string) returns (tokens': seq<LexToken>, code': string)
    requires IsStripped(code) && 0 < |code|
    ensures IsStripped(code') && |code'| < |code|
    ensures tokens' + Tokenize(code') == tokens + Tokenize(code)
  {
    var i := FindRule(code);
    if i < |Rules| {
      var token, rest := EmitToken(code, i);
      assert tokens + [token] + Tokenize(rest) == tokens + ([token] + Tokenize(rest));
      tokens' := tokens + [token];
      code' := rest;
    } else {
      code' := DropCharacter(code);
      tokens' := tokens;
    }
  }

  /** The loop of Lexer.py's `tokenize`, statement by statement. */
  method TokenizeLoop(text: string) returns (tokens: seq<LexToken>)
    ensures tokens == Tokenize(text)
  {
    tokens := [];
    var code := Strip(text);
    TokenizeStrip(text);
    while |code| > 0
      invariant IsStripped(code)
      invariant tokens + Tokenize(code) == Tokenize(text)
      decreases |code|
    {
      tokens, code := LexOnce(tokens, code);
    }
  }
}
