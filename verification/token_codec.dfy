/**
 * The token file between the two programs: Lexer.py's `tokenize_file` writes one line
 * `lexeme: CATEGORY` per token, and Parser.py's `read_tokens_from_file` reads each line back
 * with `line.strip().split(": ")` unpacked into exactly two values.
 *
 * Both files are opened in text mode. Reading translates `\r\n` and a lone `\r` to `\n`
 * (Python's universal newlines) and then yields the text line by line, each line with its
 * `\n`. Writing is modelled as on POSIX, where `\n` is written unchanged.
 */
module TokenCodec {
  import opened Chars
  import opened Results
  import opened Parser
  import Lexer
  import LexerProperties

  /** The separator between lexeme and category on a token line. */
  const Separator: string := ": "

  /** The separator occurs in `s` at index `i`. */
  predicate SeparatorAt(s: string, i: nat) {
    i + 1 < |s| && s[i] == ':' && s[i + 1] == ' '
  }

  predicate HasSeparator(s: string) {
    exists i: nat | i < |s| :: SeparatorAt(s, i)
  }

  /** The first occurrence of the separator at or after index `from`, as `str.find` gives it. */
  function FindSeparator(s: string, from: nat): (r: Option<nat>)
    ensures r.Some? ==> from <= r.value && SeparatorAt(s, r.value)
    ensures r.Some? ==> forall k: nat :: from <= k < r.value ==> !SeparatorAt(s, k)
    ensures r.None? ==> forall k: nat :: from <= k ==> !SeparatorAt(s, k)
    decreases |s| - from
  {
    if |s| <= from + 1 then None
    else if SeparatorAt(s, from) then Some(from)
    else FindSeparator(s, from + 1)
  }

  /** Python's `s.split(": ")`: the pieces between leftmost, non-overlapping separators. */
  function Split(s: string): (parts: seq<string>)
    ensures 1 <= |parts|
    decreases |s|
  {
    match FindSeparator(s, 0)
    case None => [s]
    case Some(i) => [s[..i]] + Split(s[i + 2..])
  }

  /** Python's `": ".join(parts)`, the partner of `Split`. */
  function Join(parts: seq<string>): string
    requires 1 <= |parts|
  {
    if |parts| == 1 then parts[0] else parts[0] + Separator + Join(parts[1..])
  }

  /** No separator in `s` before index `n`. */
  lemma SeparatorFreePrefix(s: string, n: nat)
    requires n <= |s| && forall k: nat :: k < n ==> !SeparatorAt(s, k)
    ensures !HasSeparator(s[..n])
  {
    forall j: nat | j < n
      ensures SeparatorAt(s[..n], j) ==> SeparatorAt(s, j)
    {
    }
  }

  /** Joining the pieces of a split gives back the string. */
  lemma {:induction false} JoinSplit(s: string)
    ensures Join(Split(s)) == s
    decreases |s|
  {
    match FindSeparator(s, 0)
    case None =>
    case Some(i) =>
      JoinSplit(s[i + 2..]);
      assert ([s[..i]] + Split(s[i + 2..]))[1..] == Split(s[i + 2..]);
      assert s == s[..i] + Separator + s[i + 2..];
  }

  /** No piece of a split contains the separator. */
  lemma {:induction false} SplitPieces(s: string)
    ensures forall k :: 0 <= k < |Split(s)| ==> !HasSeparator(Split(s)[k])
    decreases |s|
  {
    match FindSeparator(s, 0)
    case None =>
      SeparatorFreePrefix(s, |s|);
      assert s[..|s|] == s;
    case Some(i) =>
      SeparatorFreePrefix(s, i);
      SplitPieces(s[i + 2..]);
  }

  /** The first separator of `s` is at `i`. */
  lemma FindSeparatorIs(s: string, i: nat)
    requires SeparatorAt(s, i) && forall k: nat :: k < i ==> !SeparatorAt(s, k)
    ensures FindSeparator(s, 0) == Some(i)
  {
  }

  lemma FindNoSeparator(s: string)
    requires !HasSeparator(s)
    ensures FindSeparator(s, 0) == None
  {
  }

  /** The first separator of `a + ": " + b` is the one between `a` and `b` when `a` has none. */
  lemma SeparatorAfterPiece(a: string, b: string)
    requires !HasSeparator(a)
    ensures FindSeparator(a + Separator + b, 0) == Some(|a|)
    ensures (a + Separator + b)[..|a|] == a && (a + Separator + b)[|a| + 2..] == b
  {
    var s := a + Separator + b;
    forall k: nat | k < |a|
      ensures !SeparatorAt(s, k)
    {
      if k + 1 < |a| {
        assert !SeparatorAt(a, k) && s[k] == a[k] && s[k + 1] == a[k + 1];
      } else {
        assert s[k + 1] == ':';
      }
    }
    FindSeparatorIs(s, |a|);
  }

  /** Splitting what was joined gives back the pieces when none of them holds the separator. */
  lemma {:induction false} SplitJoin(parts: seq<string>)
    requires 1 <= |parts|
    requires forall k :: 0 <= k < |parts| ==> !HasSeparator(parts[k])
    ensures Split(Join(parts)) == parts
    decreases |parts|
  {
    if |parts| == 1 {
      FindNoSeparator(parts[0]);
    } else {
      SeparatorAfterPiece(parts[0], Join(parts[1..]));
      SplitJoin(parts[1..]);
      assert parts == [parts[0]] + parts[1..];
    }
  }

  /** The two ValueErrors of unpacking the split line into `lexeme, token_type`. */
  datatype DecodeError =
    | NotEnoughValues  // the line has no separator
    | TooManyValues    // the line has more than one separator

  /** The line `f"{token[0]}: {token[1]}\n"` that `tokenize_file` writes for one token. */
  function EncodeLine(lexeme: string, tokenType: string): string
  {
    lexeme + Separator + tokenType + "\n"
  }

  /** One iteration of `read_tokens_from_file`: strip the line, split it, unpack two values. */
  function DecodeLine(line: string): (r: Result<Token, DecodeError>)
    ensures r.Success? ==> !HasSeparator(r.value.lexeme) && !HasSeparator(r.value.tokenType)
    ensures r.Success? ==> Strip(line) == r.value.lexeme + Separator + r.value.tokenType
    ensures r == Failure(NotEnoughValues) <==> !HasSeparator(Strip(line))
  {
    var parts := Split(Strip(line));
    SplitPieces(Strip(line));
    JoinSplit(Strip(line));
    if |parts| < 2 then
      Failure(NotEnoughValues)
    else if 2 < |parts| then
      Failure(TooManyValues)
    else
      assert parts == [parts[0]] + [parts[1]];
      Success(Token(parts[0], parts[1]))
  }

  /** In `a + ": " + b` with no separator in `a` or `b`, the middle one is the only separator. */
  lemma UniqueSeparator(a: string, b: string)
    requires !HasSeparator(a) && !HasSeparator(b)
    ensures forall p: nat :: SeparatorAt(a + Separator + b, p) ==> p == |a|
  {
    var s := a + Separator + b;
    forall p: nat | SeparatorAt(s, p)
      ensures p == |a|
    {
      if p + 1 < |a| {
        assert s[p] == a[p] && s[p + 1] == a[p + 1];
        assert SeparatorAt(a, p);
      } else if |a| + 1 < p {
        assert s[p] == b[p - |a| - 2] && s[p + 1] == b[p - |a| - 1];
        assert SeparatorAt(b, p - |a| - 2);
      }
    }
  }

  /** A lexeme holding the separator splits its line into three or more values. */
  lemma SeparatorInLexeme(lexeme: string, tokenType: string)
    requires DecodableType(tokenType) && HasSeparator(lexeme) && !IsSpace(lexeme[0])
    ensures DecodeLine(EncodeLine(lexeme, tokenType)) == Failure(TooManyValues)
  {
    var body := lexeme + Separator + tokenType;
    assert EncodeLine(lexeme, tokenType) == [] + body + "\n";
    assert body[0] == lexeme[0];
    StripPadded([], body, "\n");
    var i: nat :| i < |lexeme| && SeparatorAt(lexeme, i);
    assert SeparatorAt(body, i) && SeparatorAt(body, |lexeme|);
    var r := DecodeLine(EncodeLine(lexeme, tokenType));
    if r.Success? {
      UniqueSeparator(r.value.lexeme, r.value.tokenType);
    }
  }

  /** A stripped line with exactly one separator unpacks into the two pieces around it. */
  lemma DecodeSingleSeparator(line: string, a: string, b: string)
    requires Strip(line) == a + Separator + b && !HasSeparator(a) && !HasSeparator(b)
    ensures DecodeLine(line) == Success(Token(a, b))
  {
    SplitJoin([a, b]);
    assert Join([a, b]) == a + Separator + b;
  }

  /** The separator occurs in `s` at two different places. */
  predicate HasTwoSeparators(s: string) {
    exists p: nat, q: nat | p < q < |s| :: SeparatorAt(s, p) && SeparatorAt(s, q)
  }

  /** A line has too many values to unpack exactly when its stripped text holds two separators. */
  lemma TooManyValuesIff(line: string)
    ensures DecodeLine(line) == Failure(TooManyValues) <==> HasTwoSeparators(Strip(line))
  {
    var s := Strip(line);
    var r := DecodeLine(line);
    if r == Failure(TooManyValues) {
      var parts := Split(s);
      JoinSplit(s);
      assert 2 < |parts|;
      var rest := Join(parts[1..]);
      assert parts[1..][0] == parts[1] && parts[1..][1..] == parts[2..];
      assert rest == parts[1] + Separator + Join(parts[2..]);
      assert s == parts[0] + Separator + rest;
      var p := |parts[0]|;
      var q := p + 2 + |parts[1]|;
      assert SeparatorAt(s, p);
      assert s[q] == rest[|parts[1]|] && s[q + 1] == rest[|parts[1]| + 1];
      assert SeparatorAt(s, q);
    }
    if HasTwoSeparators(s) {
      var p: nat, q: nat :| p < q < |s| && SeparatorAt(s, p) && SeparatorAt(s, q);
      if r.Success? {
        UniqueSeparator(r.value.lexeme, r.value.tokenType);
      }
      assert HasSeparator(s);
    }
  }

  /** A category name as the parser needs it: non-empty, no separator, no whitespace at its end. */
  predicate DecodableType(tokenType: string) {
    0 < |tokenType| && !IsSpace(tokenType[|tokenType| - 1]) && !HasSeparator(tokenType)
  }

  /** A lexeme that survives its line: no separator, and no whitespace at its start. */
  predicate DecodableLexeme(lexeme: string) {
    !HasSeparator(lexeme) && (|lexeme| == 0 || !IsSpace(lexeme[0]))
  }

  /**
   * A line decodes to the token it was written for exactly when the lexeme has no separator
   * and no leading whitespace and the type name has neither a separator nor trailing
   * whitespace; on such tokens `DecodeLine` inverts `EncodeLine`.
   */
  lemma LineRoundTrip(lexeme: string, tokenType: string)
    requires DecodableType(tokenType)
    ensures (DecodeLine(EncodeLine(lexeme, tokenType)) == Success(Token(lexeme, tokenType))) <==>
            DecodableLexeme(lexeme)
  {
    var body := lexeme + Separator + tokenType;
    if DecodableLexeme(lexeme) {
      assert EncodeLine(lexeme, tokenType) == [] + body + "\n";
      StripPadded([], body, "\n");
      SplitJoin([lexeme, tokenType]);
    }
    if DecodeLine(EncodeLine(lexeme, tokenType)) == Success(Token(lexeme, tokenType)) {
      StripLeftOfBody(lexeme, tokenType);
    }
  }

  /** Whatever the lexeme, stripping its line keeps the lexeme only if it has no leading whitespace. */
  lemma StripLeftOfBody(lexeme: string, tokenType: string)
    requires Strip(EncodeLine(lexeme, tokenType)) == lexeme + Separator + tokenType
    ensures |lexeme| == 0 || !IsSpace(lexeme[0])
  {
    var r := Strip(EncodeLine(lexeme, tokenType));
    assert 0 < |r| && r[0] == (if |lexeme| == 0 then ':' else lexeme[0]);
  }

  predicate IsLineFeed(c: char) {
    c == '\n'
  }

  predicate IsLineBreak(c: char) {
    c == '\n' || c == '\r'
  }

  predicate NoLineBreak(s: string) {
    forall k :: 0 <= k < |s| ==> !IsLineBreak(s[k])
  }

  /** Python's universal-newline translation on reading: `\r\n` and a lone `\r` become `\n`. */
  function UniversalNewlines(s: string): (r: string)
    ensures |r| <= |s|
    ensures NoReturn(r)
    decreases |s|
  {
    if |s| == 0 then []
    else if s[0] == '\r' then "\n" + UniversalNewlines(if 1 < |s| && s[1] == '\n' then s[2..] else s[1..])
    else [s[0]] + UniversalNewlines(s[1..])
  }

  /** Text without `\r` is read as written. */
  lemma {:induction false} UniversalNewlinesKeep(s: string)
    requires NoReturn(s)
    ensures UniversalNewlines(s) == s
    decreases |s|
  {
    if 0 < |s| {
      UniversalNewlinesKeep(s[1..]);
      assert s == [s[0]] + s[1..];
    }
  }

  /** The text with every `\r` and `\n` removed. */
  function WithoutBreaks(s: string): (r: string)
    ensures NoLineBreak(r)
    decreases |s|
  {
    if |s| == 0 then []
    else if IsLineBreak(s[0]) then WithoutBreaks(s[1..])
    else [s[0]] + WithoutBreaks(s[1..])
  }

  /** The number of `\n` characters in the text. */
  function LineFeeds(s: string): nat
    decreases |s|
  {
    if |s| == 0 then 0 else (if s[0] == '\n' then 1 else 0) + LineFeeds(s[1..])
  }

  /** The number of `\r` characters not followed by `\n`. */
  function LoneReturns(s: string): nat
    decreases |s|
  {
    if |s| == 0 then 0
    else (if s[0] == '\r' && (|s| == 1 || s[1] != '\n') then 1 else 0) + LoneReturns(s[1..])
  }

  /** Reading in text mode touches line terminators only: every other character is kept, in order. */
  lemma {:induction false} UniversalNewlinesKeepsText(s: string)
    ensures WithoutBreaks(UniversalNewlines(s)) == WithoutBreaks(s)
    decreases |s|
  {
    if 0 < |s| {
      if s[0] == '\r' {
        if 1 < |s| && s[1] == '\n' {
          UniversalNewlinesKeepsText(s[2..]);
          assert s[1..][1..] == s[2..];
        } else {
          UniversalNewlinesKeepsText(s[1..]);
        }
        assert ("\n" + UniversalNewlines(if 1 < |s| && s[1] == '\n' then s[2..] else s[1..]))[1..] ==
          UniversalNewlines(if 1 < |s| && s[1] == '\n' then s[2..] else s[1..]);
      } else {
        UniversalNewlinesKeepsText(s[1..]);
        assert ([s[0]] + UniversalNewlines(s[1..]))[1..] == UniversalNewlines(s[1..]);
      }
    }
  }

  /**
   * Every line terminator becomes one `\n`: the text read has as many line feeds as the
   * file has line feeds and lone carriage returns, a `\r\n` pair counting once.
   */
  lemma {:induction false} UniversalNewlinesCountsBreaks(s: string)
    ensures LineFeeds(UniversalNewlines(s)) == LineFeeds(s) + LoneReturns(s)
    decreases |s|
  {
    if 0 < |s| {
      if s[0] == '\r' {
        if 1 < |s| && s[1] == '\n' {
          UniversalNewlinesCountsBreaks(s[2..]);
          assert s[1..][1..] == s[2..];
        } else {
          UniversalNewlinesCountsBreaks(s[1..]);
        }
        assert ("\n" + UniversalNewlines(if 1 < |s| && s[1] == '\n' then s[2..] else s[1..]))[1..] ==
          UniversalNewlines(if 1 < |s| && s[1] == '\n' then s[2..] else s[1..]);
      } else {
        UniversalNewlinesCountsBreaks(s[1..]);
        assert ([s[0]] + UniversalNewlines(s[1..]))[1..] == UniversalNewlines(s[1..]);
      }
    }
  }

  /** Iterating over a text file: lines ending in `\n`, the last one possibly without. */
  function Lines(s: string): (lines: seq<string>)
    ensures forall k :: 0 <= k < |lines| ==> 0 < |lines[k]|
    decreases |s|
  {
    if |s| == 0 then []
    else
      var n := Span((c: char) => !IsLineFeed(c), s);
      if n == |s| then [s] else [s[..n + 1]] + Lines(s[n + 1..])
  }

  /** Concatenation of a sequence of strings. */
  function Concat(ss: seq<string>): string
  {
    if |ss| == 0 then [] else ss[0] + Concat(ss[1..])
  }

  /** Reading the lines of a file loses nothing: they concatenate to its text. */
  lemma {:induction false} LinesConcat(s: string)
    ensures Concat(Lines(s)) == s
    decreases |s|
  {
    if 0 < |s| {
      var n := Span((c: char) => !IsLineFeed(c), s);
      if n < |s| {
        LinesConcat(s[n + 1..]);
        assert ([s[..n + 1]] + Lines(s[n + 1..]))[1..] == Lines(s[n + 1..]);
        assert s == s[..n + 1] + s[n + 1..];
      } else {
        assert [s][1..] == [];
      }
    }
  }

  /** Every line but the last ends with its only `\n`; the last has no other `\n` either. */
  lemma {:induction false} LinesBreakOnlyAtEnd(s: string)
    ensures forall k, j :: 0 <= k < |Lines(s)| && 0 <= j < |Lines(s)[k]| - 1 ==> Lines(s)[k][j] != '\n'
    ensures forall k :: 0 <= k < |Lines(s)| - 1 ==> Lines(s)[k][|Lines(s)[k]| - 1] == '\n'
    decreases |s|
  {
    if 0 < |s| {
      var n := Span((c: char) => !IsLineFeed(c), s);
      if n < |s| {
        LinesBreakOnlyAtEnd(s[n + 1..]);
      }
    }
  }

  /** A line followed by more text is read as that line, then the lines of the rest. */
  lemma LinesStep(line: string, rest: string)
    requires forall k :: 0 <= k < |line| ==> line[k] != '\n'
    ensures Lines(line + "\n" + rest) == [line + "\n"] + Lines(rest)
  {
    var s := line + "\n" + rest;
    var n := Span((c: char) => !IsLineFeed(c), s);
    assert forall k :: 0 <= k < |line| ==> s[k] == line[k];
    assert s[|line|] == '\n';
    assert s[..n + 1] == line + "\n";
    assert s[n + 1..] == rest;
  }

  /** `read_tokens_from_file` over the lines: the tokens, or the first line's unpacking error. */
  function DecodeLines(lines: seq<string>): (r: Result<seq<Token>, DecodeError>)
    ensures r.Success? ==> |r.value| == |lines|
    ensures r.Success? ==> forall k :: 0 <= k < |lines| ==> DecodeLine(lines[k]) == Success(r.value[k])
  {
    if |lines| == 0 then Success([])
    else
      var t :- DecodeLine(lines[0]);
      var rest :- DecodeLines(lines[1..]);
      Success([t] + rest)
  }

  /** Reading stops with the error of the first line that does not unpack. */
  lemma {:induction false} DecodeLinesFirstFailure(lines: seq<string>, k: nat)
    requires k < |lines| && DecodeLine(lines[k]).Failure?
    requires forall j :: 0 <= j < k ==> DecodeLine(lines[j]).Success?
    ensures DecodeLines(lines) == Failure(DecodeLine(lines[k]).error)
    decreases k
  {
    if 0 < k {
      DecodeLinesFirstFailure(lines[1..], k - 1);
    }
  }

  /** `read_tokens_from_file` on the text of the token file. */
  function ReadTokens(content: string): Result<seq<Token>, DecodeError>
  {
    DecodeLines(Lines(UniversalNewlines(content)))
  }

  /** A file whose first line does not unpack is not read at all. */
  lemma ReadFailsOnFirstLine(line: string, rest: string)
    requires forall k :: 0 <= k < |line| ==> line[k] != '\n'
    requires NoReturn(line + "\n" + rest) && DecodeLine(line + "\n").Failure?
    ensures ReadTokens(line + "\n" + rest) == Failure(DecodeLine(line + "\n").error)
  {
    UniversalNewlinesKeep(line + "\n" + rest);
    LinesStep(line, rest);
    DecodeLinesFirstFailure(Lines(line + "\n" + rest), 0);
  }

  /** The parser's view of a lexer token: the lexeme with the category's name. */
  function AsParserToken(t: Lexer.LexToken): Token
  {
    Token(t.lexeme, Lexer.Name(t.category))
  }

  function AsParserTokens(ts: seq<Lexer.LexToken>): (r: seq<Token>)
    ensures |r| == |ts| && forall k :: 0 <= k < |ts| ==> r[k] == AsParserToken(ts[k])
  {
    if |ts| == 0 then [] else [AsParserToken(ts[0])] + AsParserTokens(ts[1..])
  }

  /** `tokenize_file`'s output: one line per token. */
  function WriteTokens(ts: seq<Lexer.LexToken>): string
  {
    if |ts| == 0 then [] else EncodeLine(ts[0].lexeme, Lexer.Name(ts[0].category)) + WriteTokens(ts[1..])
  }

  /** The file of a token sequence is the first token's line, then the file of the rest. */
  lemma WriteTokensCons(t: Lexer.LexToken, ts: seq<Lexer.LexToken>)
    ensures WriteTokens([t] + ts) == EncodeLine(t.lexeme, Lexer.Name(t.category)) + WriteTokens(ts)
  {
    assert ([t] + ts)[1..] == ts;
  }

  predicate IsUpper(c: char) {
    'A' <= c <= 'Z'
  }

  /** Every category name is a non-empty run of capital letters. */
  lemma NameIsCapitals(c: Lexer.Category)
    ensures 0 < |Lexer.Name(c)| && forall k :: 0 <= k < |Lexer.Name(c)| ==> IsUpper(Lexer.Name(c)[k])
  {
  }

  /** A string without `:` has no separator. */
  lemma NoColonNoSeparator(s: string)
    requires forall k :: 0 <= k < |s| ==> s[k] != ':'
    ensures !HasSeparator(s)
  {
  }

  /** Every category name decodes. */
  lemma NameDecodable(c: Lexer.Category)
    ensures DecodableType(Lexer.Name(c)) && NoLineBreak(Lexer.Name(c))
  {
    NameIsCapitals(c);
    NoColonNoSeparator(Lexer.Name(c));
  }

  /** A lexeme the token file carries faithfully. */
  predicate Encodable(lexeme: string) {
    DecodableLexeme(lexeme) && NoLineBreak(lexeme)
  }

  predicate NoReturn(s: string) {
    forall k :: 0 <= k < |s| ==> s[k] != '\r'
  }

  /** The text written for `ts` has no `\r` when no lexeme has one. */
  lemma {:induction false} WrittenHasNoReturn(ts: seq<Lexer.LexToken>)
    requires forall k :: 0 <= k < |ts| ==> NoReturn(ts[k].lexeme)
    ensures NoReturn(WriteTokens(ts))
  {
    if 0 < |ts| {
      NameDecodable(ts[0].category);
      WrittenHasNoReturn(ts[1..]);
    }
  }

  /** Each written line is read back as one line holding the token. */
  lemma {:induction false} DecodeWritten(ts: seq<Lexer.LexToken>)
    requires forall k :: 0 <= k < |ts| ==> Encodable(ts[k].lexeme)
    ensures DecodeLines(Lines(WriteTokens(ts))) == Success(AsParserTokens(ts))
  {
    if 0 < |ts| {
      var t := ts[0];
      var name := Lexer.Name(t.category);
      NameDecodable(t.category);
      LineRoundTrip(t.lexeme, name);
      var rest := WriteTokens(ts[1..]);
      assert EncodeLine(t.lexeme, name) + rest == (t.lexeme + Separator + name) + "\n" + rest;
      LinesStep(t.lexeme + Separator + name, rest);
      DecodeWritten(ts[1..]);
      var lines := [EncodeLine(t.lexeme, name)] + Lines(rest);
      assert lines[1..] == Lines(rest);
    }
  }

  /**
   * The token file round trip: the parser reads back, in order, exactly the tokens the lexer
   * wrote, when no lexeme has a separator, a line break, or leading whitespace.
   */
  lemma ReadWriteTokens(ts: seq<Lexer.LexToken>)
    requires forall k :: 0 <= k < |ts| ==> Encodable(ts[k].lexeme)
    ensures ReadTokens(WriteTokens(ts)) == Success(AsParserTokens(ts))
  {
    WrittenHasNoReturn(ts);
    UniversalNewlinesKeep(WriteTokens(ts));
    DecodeWritten(ts);
  }

  /** Lexemes of every category but STRING hold no separator. */
  lemma WellShapedNoSeparator(t: Lexer.LexToken)
    requires LexerProperties.WellShaped(t) && t.category != Lexer.String
    ensures !HasSeparator(t.lexeme)
  {
    if t.category == Lexer.Colon {
    } else if t.category == Lexer.Keyword {
      NoColonNoSeparator(t.lexeme);
    } else {
      NoColonNoSeparator(t.lexeme);
    }
  }

  /**
   * Every token the lexer produces is carried faithfully by the token file unless it is a
   * STRING or it spans a line break.
   */
  lemma LexedEncodable(text: string)
    ensures forall k :: 0 <= k < |Lexer.Tokenize(text)| &&
                        Lexer.Tokenize(text)[k].category != Lexer.String &&
                        NoLineBreak(Lexer.Tokenize(text)[k].lexeme)
                        ==> Encodable(Lexer.Tokenize(text)[k].lexeme)
  {
    LexerProperties.TokenizeWellShaped(text);
    forall k | 0 <= k < |Lexer.Tokenize(text)| && Lexer.Tokenize(text)[k].category != Lexer.String
      ensures !HasSeparator(Lexer.Tokenize(text)[k].lexeme)
    {
      WellShapedNoSeparator(Lexer.Tokenize(text)[k]);
    }
  }
}
