/** Properties of the lexer: what each token looks like, which rule wins, what is dropped. */
module LexerProperties {
  import opened Chars
  import opened Results
  import opened Lexer

  /** What a lexeme of each category looks like on its own. */
  predicate WellShaped(t: LexToken) {
    var l := t.lexeme;
    match t.category
    case Keyword => l in KeywordWords
    case String => IsStringLiteral(l, |l|)
    case Identifier =>
      0 < |l| && IsIdentifierStart(l[0]) && forall k :: 1 <= k < |l| ==> IsIdentifierPart(l[k])
    case Number => 0 < |l| && forall k :: 0 <= k < |l| ==> IsDigit(l[k])
    case Plus => l == "+"
    case Minus => l == "-"
    case Multi => l == "*"
    case Division => l == "/"
    case Modulus => l == "%"
    case Equality => l == "=="
    case Assignment => l == "="
    case LParen => l == "("
    case RParen => l == ")"
    case Comma => l == ","
    case Colon => l == ":"
  }

  /** A string literal matched inside longer text is matched the same way on its own. */
  lemma {:induction false} StringBodyPrefix(s: string, i: nat, n: nat)
    requires StringBody(s, i) == Some(n)
    ensures StringBody(s[..n], i) == Some(n)
    decreases |s| - i
  {
    if s[i] == '"' {
    } else if s[i] == '\\' {
      StringBodyPrefix(s, i + 2, n);
    } else {
      StringBodyPrefix(s, i + 1, n);
    }
  }

  /**
   * The body of a string literal as the regular expression describes it: a sequence of
   * escapes (a backslash and any character but a line feed) and of characters other than
   * `"` and the backslash.
   */
  predicate IsStringBody(b: string)
    decreases |b|
  {
    |b| == 0 ||
    (b[0] != '"' && b[0] != '\\' && IsStringBody(b[1..])) ||
    (b[0] == '\\' && 2 <= |b| && b[1] != '\n' && IsStringBody(b[2..]))
  }

  /** `s` begins with a string literal `n` characters long: a quote, a body, a quote. */
  predicate IsStringLiteral(s: string, n: nat) {
    2 <= n <= |s| && s[0] == '"' && s[n - 1] == '"' && IsStringBody(s[1..n - 1])
  }

  /** The scanner from index `i` stops at `n` exactly when a body followed by a quote runs from `i` to `n`. */
  lemma {:induction false} StringBodyIff(s: string, i: nat, n: nat)
    ensures StringBody(s, i) == Some(n) <==> i < n <= |s| && s[n - 1] == '"' && IsStringBody(s[i..n - 1])
    decreases |s| - i
  {
    if i < |s| {
      if s[i] == '"' {
        if i + 1 < n <= |s| {
          assert s[i..n - 1][0] == '"';
        }
      } else if s[i] == '\\' {
        if i + 1 < |s| && s[i + 1] != '\n' {
          StringBodyIff(s, i + 2, n);
          if i + 2 < n <= |s| {
            assert s[i..n - 1][2..] == s[i + 2..n - 1];
          }
        }
      } else {
        StringBodyIff(s, i + 1, n);
        if i + 1 < n <= |s| {
          assert s[i..n - 1][1..] == s[i + 1..n - 1];
        }
      }
    }
  }

  /** The string rule matches exactly the string literals at the start of the text. */
  lemma QuotedStringMatch(s: string, n: nat)
    ensures MatchPattern(QuotedString, s) == Some(n) <==> IsStringLiteral(s, n)
  {
    if 0 < |s| && s[0] == '"' {
      StringBodyIff(s, 1, n);
    }
  }

  /**
   * A string literal at the start of the text has one length only: it ends at the first
   * quote that is not escaped, so the regular expression has one way to match.
   */
  lemma StringLiteralUnique(s: string, n: nat, m: nat)
    requires IsStringLiteral(s, n) && IsStringLiteral(s, m)
    ensures n == m
  {
    QuotedStringMatch(s, n);
    QuotedStringMatch(s, m);
  }

  /** The characters a match of the pattern can begin with. */
  predicate CanStart(p: Pattern, c: char) {
    match p
    case KeywordWord => c == 'i' || c == 'e' || c == 'p'
    case QuotedString => c == '"'
    case IdentifierRun => IsIdentifierStart(c)
    case Digits => IsDigit(c)
    case Exactly(t) => 0 < |t| && t[0] == c
    case EqualsRun => c == '='
  }

  /** A rule of the table only matches text that begins with one of its start characters. */
  lemma RuleMatchStarts(j: nat, s: string)
    requires j < |Rules| && Matches(Rules[j], s)
    ensures 0 < |s| && CanStart(Rules[j].pattern, s[0])
  {
    if j == 0 {} else if j == 1 {} else if j == 2 {} else if j == 3 {} else if j == 4 {}
    else if j == 5 {} else if j == 6 {} else if j == 7 {} else if j == 8 {} else if j == 9 {}
    else if j == 10 {} else if j == 11 {} else if j == 12 {} else if j == 13 {} else {}
  }

  /** The rules before index `i` cannot begin with the first character of `s`. */
  lemma NoEarlierRule(s: string, i: nat)
    requires 0 < |s| && i <= |Rules|
    requires forall j :: 0 <= j < i ==> !CanStart(Rules[j].pattern, s[0])
    ensures forall j :: 0 <= j < i ==> !Matches(Rules[j], s)
  {
    forall j | 0 <= j < i ensures !Matches(Rules[j], s) {
      if Matches(Rules[j], s) {
        RuleMatchStarts(j, s);
      }
    }
  }

  /** The rules from index `i` on cannot begin with the first character of `s`. */
  lemma NoLaterRule(s: string, i: nat)
    requires 0 < |s| && i <= |Rules|
    requires forall j :: i <= j < |Rules| ==> !CanStart(Rules[j].pattern, s[0])
    ensures forall j :: i <= j < |Rules| ==> !Matches(Rules[j], s)
  {
    forall j | i <= j < |Rules| ensures !Matches(Rules[j], s) {
      if Matches(Rules[j], s) {
        RuleMatchStarts(j, s);
      }
    }
  }

  /** A rule that matches wins when no earlier rule can start with the first character. */
  lemma WinsAt(code: string, i: nat, n: nat)
    requires 0 < |code| && i < |Rules| && MatchPattern(Rules[i].pattern, code) == Some(n)
    requires forall j :: 0 <= j < i ==> !CanStart(Rules[j].pattern, code[0])
    ensures NextToken(code) == Some(LexToken(code[..n], Rules[i].category))
  {
    NoEarlierRule(code, i);
    FirstMatchUnique(code, i);
  }

  /**
   * The first rule's match is a whole lexeme of its category. In particular an
   * ASSIGNMENT lexeme is always the single character `=`: a second `=` would have let
   * the earlier EQUALITY rule win.
   */
  lemma FirstMatchWellShaped(code: string, i: nat)
    requires IsFirstMatch(code, i)
    ensures WellShaped(LexToken(code[..MatchPattern(Rules[i].pattern, code).value], Rules[i].category))
  {
    var n := MatchPattern(Rules[i].pattern, code).value;
    var l := code[..n];
    if i == 0 {
      KeywordMatch(code);
    } else if i == 1 {
      QuotedStringMatch(code, n);
      assert l[1..n - 1] == code[1..n - 1];
    } else if i == 2 {
      forall k | 1 <= k < |l| ensures IsIdentifierPart(l[k]) {
        assert l[k] == code[1..][k - 1];
      }
    } else if i == 3 {
    } else if i == 9 {
    } else if i == 10 {
      assert !Matches(Rules[9], code);
      assert n == 1;
    } else {
      assert Rules[i].pattern.Exactly? && |Rules[i].pattern.text| == 1;
      assert l == Rules[i].pattern.text;
    }
  }

  /** The token the winning rule produces is well shaped. */
  lemma NextTokenWellShaped(code: string)
    requires NextToken(code).Some?
    ensures WellShaped(NextToken(code).value)
  {
    FirstMatchWellShaped(code, FirstRule(code).value);
  }

  /** Every token `Tokenize` emits is well shaped. */
  lemma {:induction false} TokenizeWellShaped(text: string)
    ensures forall k :: 0 <= k < |Tokenize(text)| ==> WellShaped(Tokenize(text)[k])
    decreases |text|
  {
    var code := Strip(text);
    if |code| > 0 {
      match NextToken(code)
      case Some(t) =>
        NextTokenWellShaped(code);
        TokenizeWellShaped(code[|t.lexeme|..]);
      case None =>
        TokenizeWellShaped(code[1..]);
    }
  }

  /**
   * `if`, `else` or `print` followed by a non-word character or the end is a KEYWORD,
   * although the identifier rule would match a longer prefix.
   */
  lemma KeywordWins(code: string, w: string)
    requires w in KeywordWords && w <= code
    requires |code| == |w| || !IsWordChar(code[|w|])
    ensures NextToken(code) == Some(LexToken(w, Keyword))
  {
    KeywordFacts(code, w);
    WinsAt(code, 0, |w|);
  }

  lemma KeywordFacts(code: string, w: string)
    requires w in KeywordWords && w <= code
    requires |code| == |w| || !IsWordChar(code[|w|])
    ensures 0 < |code| && MatchPattern(Rules[0].pattern, code) == Some(|w|) && code[..|w|] == w
  {
    assert code[0] == w[0];
    assert WordBoundary(code, 0);
  }

  /** Text starting with a letter or `_` that is not a whole keyword is one greedy IDENTIFIER. */
  lemma IdentifierUnlessKeyword(code: string)
    requires 0 < |code| && IsIdentifierStart(code[0])
    requires MatchKeyword(code).None?
    ensures NextToken(code) == Some(LexToken(code[..1 + Span(IsIdentifierPart, code[1..])], Identifier))
  {
    assert !Matches(Rules[1], code) && !Matches(Rules[0], code);
    assert MatchPattern(Rules[2].pattern, code) == Some(1 + Span(IsIdentifierPart, code[1..]));
    assert IsFirstMatch(code, 2);
    FirstMatchUnique(code, 2);
  }

  /** The keyword rule matches one of the three keywords. */
  lemma KeywordMatch(code: string)
    requires MatchKeyword(code).Some?
    ensures code[..MatchKeyword(code).value] in KeywordWords
  {
    if WholeWordAt(code, "if") {
      assert code[..2] == "if";
    } else if WholeWordAt(code, "else") {
      assert code[..4] == "else";
    } else {
      assert code[..5] == "print";
    }
  }

  /** A keyword directly followed by a word character is not a keyword. */
  lemma KeywordNeedsBoundary(code: string, w: string)
    requires w in KeywordWords && w <= code
    requires |w| < |code| && IsWordChar(code[|w|])
    ensures MatchKeyword(code).None?
  {
  }

  /** A run of digits is one NUMBER. */
  lemma DigitsAreNumber(code: string)
    requires 0 < |code| && IsDigit(code[0])
    ensures NextToken(code) == Some(LexToken(code[..Span(IsDigit, code)], Number))
  {
    var n := Span(IsDigit, code);
    DigitsFacts(code);
    WinsAt(code, 3, n);
  }

  lemma DigitsFacts(code: string)
    requires 0 < |code| && IsDigit(code[0])
    ensures Rules[3].category == Number
    ensures MatchPattern(Rules[3].pattern, code) == Some(Span(IsDigit, code))
    ensures forall j :: 0 <= j < 3 ==> !CanStart(Rules[j].pattern, code[0])
  {
    assert Rules[3].pattern == Digits;
    forall j | 0 <= j < 3 ensures !CanStart(Rules[j].pattern, code[0]) {
      if j == 0 {} else if j == 1 {} else {}
    }
  }

  /** `==` at the start of the remainder is always one EQUALITY token. */
  lemma EqualityWins(code: string)
    requires "==" <= code
    ensures NextToken(code) == Some(LexToken("==", Equality))
  {
    EqualityFacts(code);
    WinsAt(code, 9, 2);
  }

  lemma EqualityFacts(code: string)
    requires "==" <= code
    ensures 0 < |code| && MatchPattern(Rules[9].pattern, code) == Some(2) && code[..2] == "=="
    ensures forall j :: 0 <= j < 9 ==> !CanStart(Rules[j].pattern, code[0])
  {
    assert code[0] == '=';
  }

  /** A lone `=` is one ASSIGNMENT token. */
  lemma LoneEqualsIsAssignment(code: string)
    requires 0 < |code| && code[0] == '=' && (|code| == 1 || code[1] != '=')
    ensures NextToken(code) == Some(LexToken("=", Assignment))
  {
    LoneEqualsFacts(code);
    NoEarlierRule(code, 9);
    assert IsFirstMatch(code, 10);
    FirstMatchUnique(code, 10);
  }

  lemma LoneEqualsFacts(code: string)
    requires 0 < |code| && code[0] == '=' && (|code| == 1 || code[1] != '=')
    ensures MatchPattern(Rules[10].pattern, code) == Some(1) && code[..1] == "="
    ensures !Matches(Rules[9], code)
    ensures forall j :: 0 <= j < 9 ==> !CanStart(Rules[j].pattern, code[0])
  {
    assert Span(IsEqualsSign, code) == 1;
  }

  /** The category of a one-character operator or punctuation token. */
  function SymbolCategory(c: char): Option<Category>
  {
    match c
    case '+' => Some(Plus)
    case '-' => Some(Minus)
    case '*' => Some(Multi)
    case '/' => Some(Division)
    case '%' => Some(Modulus)
    case '(' => Some(LParen)
    case ')' => Some(RParen)
    case ',' => Some(Comma)
    case ':' => Some(Colon)
    case _ => None
  }

  /** A one-character operator or punctuation mark is a token of its own. */
  lemma SymbolIsToken(code: string)
    requires 0 < |code| && SymbolCategory(code[0]).Some?
    ensures NextToken(code) == Some(LexToken(code[..1], SymbolCategory(code[0]).value))
  {
    var i := SymbolFacts(code);
    WinsAt(code, i, 1);
  }

  lemma SymbolFacts(code: string) returns (i: nat)
    requires 0 < |code| && SymbolCategory(code[0]).Some?
    ensures i < |Rules| && MatchPattern(Rules[i].pattern, code) == Some(1)
    ensures Rules[i].category == SymbolCategory(code[0]).value
    ensures forall j :: 0 <= j < i ==> !CanStart(Rules[j].pattern, code[0])
  {
    var c := code[0];
    i := if c == '+' then 4 else if c == '-' then 5 else if c == '*' then 6
      else if c == '/' then 7 else if c == '%' then 8 else if c == '(' then 11
      else if c == ')' then 12 else if c == ',' then 13 else 14;
    forall j | 0 <= j < i ensures !CanStart(Rules[j].pattern, c) {
      if j == 0 {} else if j == 1 {} else if j == 2 {} else if j == 3 {} else if j == 4 {}
      else if j == 5 {} else if j == 6 {} else if j == 7 {} else if j == 8 {} else if j == 9 {}
      else if j == 10 {} else if j == 11 {} else if j == 12 {} else {}
    }
  }

  /** A complete double-quoted literal at the start is one STRING token. */
  lemma QuotedIsString(code: string)
    requires 0 < |code| && code[0] == '"' && StringBody(code, 1).Some?
    ensures NextToken(code) == Some(LexToken(code[..StringBody(code, 1).value], String))
  {
    QuotedFacts(code);
    WinsAt(code, 1, StringBody(code, 1).value);
  }

  lemma QuotedFacts(code: string)
    requires 0 < |code| && code[0] == '"' && StringBody(code, 1).Some?
    ensures MatchPattern(Rules[1].pattern, code) == StringBody(code, 1)
    ensures !CanStart(Rules[0].pattern, code[0])
  {
  }

  /** A character that can begin a token under some rule of the table. */
  predicate CanStartToken(c: char) {
    IsIdentifierStart(c) || IsDigit(c) || c == '"' || c == '=' || SymbolCategory(c).Some?
  }

  /** No rule matches text whose first character cannot begin a token. */
  lemma NoRuleForUnstartable(code: string)
    requires 0 < |code| && !CanStartToken(code[0])
    ensures NextToken(code).None?
  {
    NoEarlierRule(code, |Rules|);
  }

  /** An IDENTIFIER lexeme extends as far as word and whitespace characters go. */
  lemma IdentifierIsGreedy(code: string)
    requires NextToken(code).Some? && NextToken(code).value.category == Identifier
    ensures var n := |NextToken(code).value.lexeme|;
            n == |code| || !IsIdentifierPart(code[n])
  {
    var i := FirstRule(code).value;
    if i != 2 {
      FirstMatchCategory(code, i);
    }
    IdentifierRunEnds(code);
  }

  /** The identifier pattern stops only at the end or at a character it cannot take. */
  lemma IdentifierRunEnds(code: string)
    requires Matches(Rules[2], code)
    ensures var n := MatchPattern(Rules[2].pattern, code).value;
            n <= |code| && (n == |code| || !IsIdentifierPart(code[n]))
  {
    var n := 1 + Span(IsIdentifierPart, code[1..]);
    assert n < |code| ==> code[n] == code[1..][n - 1];
  }

  /** The rule at index 2 is the only one producing IDENTIFIER tokens. */
  lemma FirstMatchCategory(code: string, i: nat)
    requires i < |Rules| && i != 2
    ensures Rules[i].category != Identifier
  {
  }

  /** Whitespace-only text, the empty text included, has no tokens. */
  lemma WhitespaceOnlyIsEmpty(text: string)
    requires AllSpace(text)
    ensures Tokenize(text) == []
  {
    StripAllSpace(text);
  }

  /** One lexing step that emits a token, on stripped text. */
  lemma TokenizeEmits(code: string, t: LexToken)
    requires IsStripped(code) && 0 < |code| && NextToken(code) == Some(t)
    ensures Tokenize(code) == [t] + Tokenize(code[|t.lexeme|..])
  {
    TokenizeStep(code);
    TokenizeStrip(code[|t.lexeme|..]);
  }

  /** One lexing step in which no rule matches: the first character is dropped. */
  lemma TokenizeDrops(code: string)
    requires IsStripped(code) && 0 < |code| && NextToken(code).None?
    ensures Tokenize(code) == Tokenize(code[1..])
  {
    TokenizeStep(code);
    TokenizeStrip(code[1..]);
  }

  /** Leading whitespace never reaches a token. */
  lemma TokenizeSkipsSpace(pad: string, text: string)
    requires AllSpace(pad)
    ensures Tokenize(pad + text) == Tokenize(text)
  {
    StripAfterSpace(pad, text);
    TokenizeStrip(pad + text);
    TokenizeStrip(text);
  }

  /**
   * A character no rule can start with (`;`, `@`, `.`, ...) produces no token and lexing
   * carries on with the rest as if the character had never been there.
   */
  lemma UnstartableIsDropped(c: char, rest: string)
    requires !IsSpace(c) && !CanStartToken(c)
    ensures Tokenize([c] + rest) == Tokenize(rest)
  {
    var text := [c] + rest;
    var code := Strip(text);
    assert StripLeft(text) == text;
    StripRightSplits(text);
    assert code[0] == c;
    NoRuleForUnstartable(code);
    var pad := text[|code|..];
    assert rest == code[1..] + pad;
    StripBeforeSpace(code[1..], pad);
    TokenizeStrip(rest);
    TokenizeStrip(code[1..]);
  }

  /**
   * `ts` occur in `s` from index `from` on as non-overlapping substrings, in order:
   * `gaps[0]` characters are skipped before the first lexeme, `gaps[1]` between the first
   * and the second, and so on.
   */
  predicate PlacedFrom(ts: seq<LexToken>, s: string, from: nat, gaps: seq<nat>)
    decreases |ts|
  {
    |gaps| == |ts| &&
    (|ts| == 0 ||
      (from + gaps[0] + |ts[0].lexeme| <= |s| &&
       s[from + gaps[0]..from + gaps[0] + |ts[0].lexeme|] == ts[0].lexeme &&
       PlacedFrom(ts[1..], s, from + gaps[0] + |ts[0].lexeme|, gaps[1..])))
  }

  lemma SliceInSlice(s: string, a: nat, b: nat, i: nat, j: nat)
    requires a <= b <= |s| && i <= j <= b - a
    ensures s[a..b][i..j] == s[a + i..a + j]
  {
    forall k | 0 <= k < j - i
      ensures s[a..b][i..j][k] == s[a + i..a + j][k]
    {
    }
  }

  /** Lexemes placed in `sub`, which sits in `s` at index `a`, are placed in `s` `a` characters further on. */
  lemma {:induction false} PlacedShift(ts: seq<LexToken>, s: string, a: nat, sub: string, from: nat, gaps: seq<nat>)
    requires a + |sub| <= |s| && sub == s[a..a + |sub|] && PlacedFrom(ts, sub, from, gaps)
    ensures PlacedFrom(ts, s, a + from, gaps)
    decreases |ts|
  {
    if |ts| > 0 {
      var p := from + gaps[0];
      var l := |ts[0].lexeme|;
      assert p + l <= |sub|;
      SliceInSlice(s, a, a + |sub|, p, p + l);
      PlacedShift(ts[1..], s, a, sub, p + l, gaps[1..]);
    }
  }

  /**
   * When `code` sits in `text` at index `lead`, its first `l` characters sit there too and
   * lexemes placed in the rest of `code` are placed in `text` after them.
   */
  lemma PlacedAfter(ts: seq<LexToken>, text: string, lead: nat, code: string, l: nat, gaps: seq<nat>)
    requires lead + |code| <= |text| && code == text[lead..lead + |code|] && l <= |code|
    requires PlacedFrom(ts, code[l..], 0, gaps)
    ensures code[..l] == text[lead..lead + l]
    ensures PlacedFrom(ts, text, lead + l, gaps)
  {
    assert code[l..] == text[lead + l..lead + |code|];
    PlacedShift(ts, text, lead + l, code[l..], 0, gaps);
  }

  /** A lexeme placed at `lead`, followed by lexemes placed after it, gives a placed sequence. */
  lemma {:induction false} PlacedCons(t: LexToken, ts: seq<LexToken>, s: string, lead: nat, gaps: seq<nat>)
    requires lead + |t.lexeme| <= |s| && s[lead..lead + |t.lexeme|] == t.lexeme
    requires PlacedFrom(ts, s, lead + |t.lexeme|, gaps)
    ensures PlacedFrom([t] + ts, s, 0, [lead] + gaps)
  {
    var all, wide := [t] + ts, [lead] + gaps;
    assert all[0] == t && all[1..] == ts;
    assert wide[0] == lead && wide[1..] == gaps;
  }

  /** A step of the lexer that emits `t` from `code`, the text left at index `lead`, keeps lexemes placed. */
  lemma PlacedEmit(t: LexToken, ts: seq<LexToken>, text: string, lead: nat, code: string, inner: seq<nat>)
      returns (gaps: seq<nat>)
    requires lead + |code| <= |text| && code == text[lead..lead + |code|]
    requires |t.lexeme| <= |code| && t.lexeme == code[..|t.lexeme|]
    requires PlacedFrom(ts, code[|t.lexeme|..], 0, inner)
    ensures PlacedFrom([t] + ts, text, 0, gaps)
  {
    PlacedAfter(ts, text, lead, code, |t.lexeme|, inner);
    PlacedCons(t, ts, text, lead, inner);
    gaps := [lead] + inner;
  }

  /** A step of the lexer that drops the first character of `code` keeps lexemes placed. */
  lemma PlacedSkip(ts: seq<LexToken>, text: string, lead: nat, code: string, inner: seq<nat>)
      returns (gaps: seq<nat>)
    requires lead + |code| <= |text| && code == text[lead..lead + |code|] && 0 < |code|
    requires PlacedFrom(ts, code[1..], 0, inner)
    ensures PlacedFrom(ts, text, 0, gaps)
  {
    PlacedAfter(ts, text, lead, code, 1, inner);
    gaps := PlacedEarlier(ts, text, lead + 1, inner);
  }

  /** Lexemes placed from `from` on are placed from any earlier index, the first gap widened. */
  lemma {:induction false} PlacedEarlier(ts: seq<LexToken>, s: string, from: nat, gaps: seq<nat>) returns (wider: seq<nat>)
    requires PlacedFrom(ts, s, from, gaps)
    ensures PlacedFrom(ts, s, 0, wider)
  {
    if |ts| == 0 {
      wider := [];
    } else {
      wider := [gaps[0] + from] + gaps[1..];
      assert wider[1..] == gaps[1..];
    }
  }

  /** One unfolding of `Tokenize`, with the stripped remainder located inside the text. */
  lemma TokenizeCases(text: string) returns (lead: nat, code: string, next: Option<LexToken>)
    ensures code == Strip(text) && lead + |code| <= |text| && code == text[lead..lead + |code|]
    ensures next == NextToken(code)
    ensures |code| == 0 ==> Tokenize(text) == []
    ensures 0 < |code| && next.Some? ==>
              0 < |next.value.lexeme| <= |code| && next.value.lexeme == code[..|next.value.lexeme|] &&
              Tokenize(text) == [next.value] + Tokenize(code[|next.value.lexeme|..])
    ensures 0 < |code| && next.None? ==> Tokenize(text) == Tokenize(code[1..])
  {
    code := Strip(text);
    var before, after := StripSplits(text);
    lead := |before|;
    assert text[lead..lead + |code|] == code;
    next := NextToken(code);
  }

  /**
   * Each emitted lexeme is taken from the text where lexing stood when it was emitted, and
   * the next token comes after it: the lexemes are non-overlapping substrings of the input,
   * in input order.
   */
  lemma {:induction false} TokenizePlaced(text: string) returns (gaps: seq<nat>)
    ensures PlacedFrom(Tokenize(text), text, 0, gaps)
    decreases |text|
  {
    var lead, code, next := TokenizeCases(text);
    if |code| == 0 {
      gaps := [];
    } else if next.Some? {
      var rest := code[|next.value.lexeme|..];
      var inner := TokenizePlaced(rest);
      gaps := PlacedEmit(next.value, Tokenize(rest), text, lead, code, inner);
    } else {
      var inner := TokenizePlaced(code[1..]);
      gaps := PlacedSkip(Tokenize(code[1..]), text, lead, code, inner);
    }
  }
}
