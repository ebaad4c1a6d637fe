/**
 * Properties of the parser: a declarative description of the token sequences each
 * procedure accepts, shown equivalent to the procedures in both directions, and the
 * consequences that follow: parentheses leave no trace, the parser reads nothing after the
 * program, and the `=` and `print` checks look at the lexeme alone.
 */
module ParserProperties {
  import opened Results
  import opened Parser

  /** A token `expression` takes as an opening parenthesis: lexeme `(` and not an atom type. */
  predicate IsOpen(t: Token) {
    !IsAtomToken(t) && t.lexeme == "("
  }

  /**
   * From `pos` on, `ts` holds an atom nested in `k` pairs of parentheses, `2k + 1` tokens
   * long: the atom is at `pos + k`, and unless `k` is 0 there is an opening parenthesis, an
   * atom nested in `k - 1` pairs, and a `)`.
   */
  predicate Wrapped(ts: seq<Token>, pos: nat, k: nat)
    decreases k
  {
    pos + 2 * k + 1 <= |ts| && IsAtomToken(ts[pos + k]) &&
    (0 < k ==> IsOpen(ts[pos]) && ts[pos + 2 * k].lexeme == ")" && Wrapped(ts, pos + 1, k - 1))
  }

  /** The same tokens described at once: `k` opening parentheses, an atom, `k` tokens with lexeme `)`. */
  predicate WrappedShape(ts: seq<Token>, pos: nat, k: nat) {
    pos + 2 * k + 1 <= |ts| &&
    (forall i :: pos <= i < pos + k ==> IsOpen(ts[i])) &&
    IsAtomToken(ts[pos + k]) &&
    (forall i :: pos + k < i <= pos + 2 * k ==> ts[i].lexeme == ")")
  }

  /** The nested description and the flat one agree. */
  lemma {:induction false} WrappedIsShape(ts: seq<Token>, pos: nat, k: nat)
    ensures Wrapped(ts, pos, k) <==> WrappedShape(ts, pos, k)
    decreases k
  {
    if 0 < k {
      WrappedIsShape(ts, pos + 1, k - 1);
    }
  }

  /** A wrapped expression stays wrapped when the tokens after it are cut off. */
  lemma {:induction false} WrappedPrefix(ts: seq<Token>, n: nat, pos: nat, k: nat)
    requires Wrapped(ts, pos, k) && pos + 2 * k + 1 <= n <= |ts|
    ensures Wrapped(ts[..n], pos, k)
    decreases k
  {
    if 0 < k {
      WrappedPrefix(ts, n, pos + 1, k - 1);
    }
  }

  /** An atom token is a whole expression. */
  lemma ExpressionAtom(ts: seq<Token>, pos: nat)
    requires pos < |ts| && IsAtomToken(ts[pos])
    ensures Expression(ts, pos) == Success(Parsed(AtomTree(ts[pos]), pos + 1))
  {
  }

  /** An opening parenthesis, an expression and a `)` make an expression with the same tree. */
  lemma ExpressionParenthesised(ts: seq<Token>, pos: nat, inner: Parsed)
    requires pos < |ts| && IsOpen(ts[pos]) && Expression(ts, pos + 1) == Success(inner)
    requires inner.next < |ts| && ts[inner.next].lexeme == ")"
    ensures Expression(ts, pos) == Success(Parsed(inner.tree, inner.next + 1))
  {
  }

  /** A successful expression that does not start with an atom is a parenthesised one. */
  lemma ExpressionInversion(ts: seq<Token>, pos: nat) returns (inner: Parsed)
    requires Expression(ts, pos).Success? && !IsAtomToken(ts[pos])
    ensures IsOpen(ts[pos]) && Expression(ts, pos + 1) == Success(inner)
    ensures inner.next < |ts| && ts[inner.next].lexeme == ")"
    ensures Expression(ts, pos) == Success(Parsed(inner.tree, inner.next + 1))
  {
    inner := Expression(ts, pos + 1).value;
  }

  /** Every wrapped expression parses to the tree of its atom and consumes exactly its tokens. */
  lemma {:induction false} ExpressionWrapped(ts: seq<Token>, pos: nat, k: nat)
    requires Wrapped(ts, pos, k)
    ensures Expression(ts, pos) == Success(Parsed(AtomTree(ts[pos + k]), pos + 2 * k + 1))
    decreases k
  {
    if k == 0 {
      ExpressionAtom(ts, pos);
    } else {
      ExpressionWrapped(ts, pos + 1, k - 1);
      ExpressionParenthesised(ts, pos, Parsed(AtomTree(ts[pos + k]), pos + 2 * k));
    }
  }

  /** Every successful expression is a wrapped one: `Wrapped` describes all of them. */
  lemma {:induction false} ExpressionSound(ts: seq<Token>, pos: nat) returns (k: nat)
    requires Expression(ts, pos).Success?
    ensures Wrapped(ts, pos, k)
    ensures Expression(ts, pos) == Success(Parsed(AtomTree(ts[pos + k]), pos + 2 * k + 1))
    decreases |ts| - pos
  {
    if IsAtomToken(ts[pos]) {
      k := 0;
    } else {
      var inner := ExpressionInversion(ts, pos);
      var j := ExpressionSound(ts, pos + 1);
      k := j + 1;
    }
  }

  /** Expression nested in `k` pairs of parentheses yields the tree of the bare expression. */
  lemma ParenthesesLeaveNoTrace(ts: seq<Token>, pos: nat, k: nat)
    requires Wrapped(ts, pos, k)
    ensures Expression(ts, pos).Success? && Expression(ts, pos + k).Success?
    ensures Expression(ts, pos).value.tree == Expression(ts, pos + k).value.tree
    ensures Expression(ts, pos).value.next == pos + 2 * k + 1
  {
    ExpressionWrapped(ts, pos, k);
    assert Wrapped(ts, pos + k, 0);
    ExpressionWrapped(ts, pos + k, 0);
  }

  /** `ts` and `us` have the same length and the same tokens from `pos` on. */
  predicate SameFrom(ts: seq<Token>, us: seq<Token>, pos: nat) {
    |ts| == |us| && forall i :: pos <= i < |ts| ==> ts[i] == us[i]
  }

  /** An expression never looks at the tokens before its start. */
  lemma {:induction false} ExpressionFrame(ts: seq<Token>, us: seq<Token>, pos: nat)
    requires SameFrom(ts, us, pos)
    ensures Expression(ts, pos) == Expression(us, pos)
    decreases |ts| - pos
  {
    if pos < |ts| && IsOpen(ts[pos]) {
      ExpressionFrame(ts, us, pos + 1);
    }
  }

  /**
   * An expression that does not run off the end of `ts` has the same outcome, success or
   * ParseError, however many tokens follow.
   */
  lemma {:induction false} ExpressionExtend(ts: seq<Token>, extra: seq<Token>, pos: nat)
    requires Expression(ts, pos) != Failure(IndexError)
    ensures Expression(ts + extra, pos) == Expression(ts, pos)
    decreases |ts| - pos
  {
    assert (ts + extra)[pos] == ts[pos];
    if IsOpen(ts[pos]) {
      ExpressionExtend(ts, extra, pos + 1);
      var inner := Expression(ts, pos + 1);
      if inner.Success? {
        assert (ts + extra)[inner.value.next] == ts[inner.value.next];
      }
    }
  }

  lemma AssignmentExtend(ts: seq<Token>, extra: seq<Token>, pos: nat)
    requires AssignmentStatement(ts, pos) != Failure(IndexError)
    ensures AssignmentStatement(ts + extra, pos) == AssignmentStatement(ts, pos)
  {
    assert (ts + extra)[pos] == ts[pos];
    if IsIdentifierToken(ts[pos]) {
      assert (ts + extra)[pos + 1] == ts[pos + 1];
      if ts[pos + 1].lexeme == "=" {
        ExpressionExtend(ts, extra, pos + 2);
      }
    }
  }

  lemma PrintExtend(ts: seq<Token>, extra: seq<Token>, pos: nat)
    requires PrintStatement(ts, pos) != Failure(IndexError)
    ensures PrintStatement(ts + extra, pos) == PrintStatement(ts, pos)
  {
    assert (ts + extra)[pos] == ts[pos];
    if ts[pos].lexeme == "print" {
      ExpressionExtend(ts, extra, pos + 1);
    }
  }

  /**
   * The parser never checks that the input ends after the print statement: appending
   * tokens changes neither a parsed program nor a ParseError.
   */
  lemma ParseExtend(ts: seq<Token>, extra: seq<Token>)
    requires Parse(ts) != Failure(IndexError)
    ensures Parse(ts + extra) == Parse(ts)
  {
    AssignmentExtend(ts, extra, 0);
    var a := AssignmentStatement(ts, 0);
    if a.Success? {
      PrintExtend(ts, extra, a.value.next);
    }
  }

  /**
   * The token sequences `program` accepts: an IDENTIFIER token, a token with lexeme `=`, a
   * wrapped expression of depth `k1`, a token with lexeme `print`, a wrapped expression of
   * depth `k2`; anything may follow.
   */
  predicate ProgramForm(ts: seq<Token>, k1: nat, k2: nat) {
    5 + 2 * k1 + 2 * k2 <= |ts| &&
    IsIdentifierToken(ts[0]) && ts[1].lexeme == "=" && Wrapped(ts, 2, k1) &&
    ts[3 + 2 * k1].lexeme == "print" && Wrapped(ts, 4 + 2 * k1, k2)
  }

  /** The tree of a program of that form. */
  function ProgramTree(ts: seq<Token>, k1: nat, k2: nat): Tree
    requires ProgramForm(ts, k1, k2)
  {
    Node("program", [
      Node("assignment", [Node("identifier", [Leaf(ts[0])]), AtomTree(ts[2 + k1])]),
      Node("print", [AtomTree(ts[4 + 2 * k1 + k2])])])
  }

  /** An identifier, a `=` and a wrapped expression make an assignment statement. */
  lemma AssignmentWrapped(ts: seq<Token>, pos: nat, k: nat)
    requires pos + 1 < |ts| && IsIdentifierToken(ts[pos]) && ts[pos + 1].lexeme == "="
    requires Wrapped(ts, pos + 2, k)
    ensures AssignmentStatement(ts, pos) ==
      Success(Parsed(Node("assignment", [Node("identifier", [Leaf(ts[pos])]), AtomTree(ts[pos + 2 + k])]),
                     pos + 2 * k + 3))
  {
    ExpressionWrapped(ts, pos + 2, k);
    AssignmentOf(ts, pos, Parsed(AtomTree(ts[pos + 2 + k]), pos + 2 * k + 3));
  }

  /** An identifier, a `=` and an expression make an assignment statement. */
  lemma AssignmentOf(ts: seq<Token>, pos: nat, e: Parsed)
    requires pos + 1 < |ts| && IsIdentifierToken(ts[pos]) && ts[pos + 1].lexeme == "="
    requires Expression(ts, pos + 2) == Success(e)
    ensures AssignmentStatement(ts, pos) ==
      Success(Parsed(Node("assignment", [Node("identifier", [Leaf(ts[pos])]), e.tree]), e.next))
  {
  }

  /** A `print` and a wrapped expression make a print statement. */
  lemma PrintWrapped(ts: seq<Token>, pos: nat, k: nat)
    requires pos < |ts| && ts[pos].lexeme == "print" && Wrapped(ts, pos + 1, k)
    ensures PrintStatement(ts, pos) == Success(Parsed(Node("print", [AtomTree(ts[pos + 1 + k])]), pos + 2 * k + 2))
  {
    ExpressionWrapped(ts, pos + 1, k);
    PrintOf(ts, pos, Parsed(AtomTree(ts[pos + 1 + k]), pos + 2 * k + 2));
  }

  /** A `print` and an expression make a print statement. */
  lemma PrintOf(ts: seq<Token>, pos: nat, e: Parsed)
    requires pos < |ts| && ts[pos].lexeme == "print" && Expression(ts, pos + 1) == Success(e)
    ensures PrintStatement(ts, pos) == Success(Parsed(Node("print", [e.tree]), e.next))
  {
  }

  /** An assignment statement followed by a print statement makes a program. */
  lemma ProgramOf(ts: seq<Token>, a: Parsed, p: Parsed)
    requires AssignmentStatement(ts, 0) == Success(a) && PrintStatement(ts, a.next) == Success(p)
    ensures Program(ts, 0) == Success(Parsed(Node("program", [a.tree, p.tree]), p.next))
    ensures Parse(ts) == Success(Node("program", [a.tree, p.tree]))
  {
  }

  /** Every token sequence of program form parses, consuming exactly the program. */
  lemma ParseComplete(ts: seq<Token>, k1: nat, k2: nat)
    requires ProgramForm(ts, k1, k2)
    ensures Program(ts, 0) == Success(Parsed(ProgramTree(ts, k1, k2), 5 + 2 * k1 + 2 * k2))
    ensures Parse(ts) == Success(ProgramTree(ts, k1, k2))
  {
    var a := AssignmentOfForm(ts, k1, k2);
    var p := PrintOfForm(ts, k1, k2);
    ProgramOf(ts, a, p);
  }

  /** The assignment statement of a program of form `k1`, `k2`. */
  lemma AssignmentOfForm(ts: seq<Token>, k1: nat, k2: nat) returns (a: Parsed)
    requires ProgramForm(ts, k1, k2)
    ensures AssignmentStatement(ts, 0) == Success(a) && a.next == 3 + 2 * k1
    ensures a.tree == ProgramTree(ts, k1, k2).children[0]
  {
    AssignmentWrapped(ts, 0, k1);
    a := AssignmentStatement(ts, 0).value;
  }

  /** The print statement of a program of form `k1`, `k2`. */
  lemma PrintOfForm(ts: seq<Token>, k1: nat, k2: nat) returns (p: Parsed)
    requires ProgramForm(ts, k1, k2)
    ensures PrintStatement(ts, 3 + 2 * k1) == Success(p) && p.next == 5 + 2 * k1 + 2 * k2
    ensures p.tree == ProgramTree(ts, k1, k2).children[1]
  {
    PrintWrapped(ts, 3 + 2 * k1, k2);
    p := PrintStatement(ts, 3 + 2 * k1).value;
  }

  /** A successful parse is an assignment statement at 0 followed by a print statement. */
  lemma ProgramInversion(ts: seq<Token>) returns (a: Parsed, p: Parsed)
    requires Parse(ts).Success?
    ensures AssignmentStatement(ts, 0) == Success(a) && PrintStatement(ts, a.next) == Success(p)
    ensures Program(ts, 0) == Success(Parsed(Node("program", [a.tree, p.tree]), p.next))
  {
    a := AssignmentStatement(ts, 0).value;
    p := PrintStatement(ts, a.next).value;
  }

  /** A successful assignment statement is an identifier, a `=` and an expression. */
  lemma AssignmentInversion(ts: seq<Token>, pos: nat) returns (e: Parsed)
    requires AssignmentStatement(ts, pos).Success?
    ensures pos + 1 < |ts| && IsIdentifierToken(ts[pos]) && ts[pos + 1].lexeme == "="
    ensures Expression(ts, pos + 2) == Success(e)
  {
    e := Expression(ts, pos + 2).value;
  }

  /** A successful print statement is a `print` and an expression. */
  lemma PrintInversion(ts: seq<Token>, pos: nat) returns (e: Parsed)
    requires PrintStatement(ts, pos).Success?
    ensures pos < |ts| && ts[pos].lexeme == "print"
    ensures Expression(ts, pos + 1) == Success(e)
    ensures PrintStatement(ts, pos) == Success(Parsed(Node("print", [e.tree]), e.next))
  {
    e := Expression(ts, pos + 1).value;
  }

  /** Every successful assignment statement is an identifier, a `=` and a wrapped expression. */
  lemma AssignmentSound(ts: seq<Token>, pos: nat) returns (k: nat)
    requires AssignmentStatement(ts, pos).Success?
    ensures pos + 1 < |ts| && IsIdentifierToken(ts[pos]) && ts[pos + 1].lexeme == "="
    ensures Wrapped(ts, pos + 2, k)
    ensures AssignmentStatement(ts, pos).value.next == pos + 2 * k + 3
  {
    var e := AssignmentInversion(ts, pos);
    k := ExpressionSound(ts, pos + 2);
    AssignmentWrapped(ts, pos, k);
  }

  /** Every successful print statement is a `print` and a wrapped expression. */
  lemma PrintSound(ts: seq<Token>, pos: nat) returns (k: nat)
    requires PrintStatement(ts, pos).Success?
    ensures pos < |ts| && ts[pos].lexeme == "print" && Wrapped(ts, pos + 1, k)
  {
    var e := PrintInversion(ts, pos);
    k := ExpressionSound(ts, pos + 1);
  }

  /** Every successful parse is of a program of that form. */
  lemma ParseSound(ts: seq<Token>) returns (k1: nat, k2: nat)
    requires Parse(ts).Success?
    ensures ProgramForm(ts, k1, k2)
    ensures Program(ts, 0) == Success(Parsed(ProgramTree(ts, k1, k2), 5 + 2 * k1 + 2 * k2))
  {
    var a, p := ProgramInversion(ts);
    k1 := AssignmentSound(ts, 0);
    k2 := PrintSound(ts, a.next);
    ParseComplete(ts, k1, k2);
  }

  /** A program form survives cutting off whatever follows the program. */
  lemma ProgramFormPrefix(ts: seq<Token>, k1: nat, k2: nat)
    requires ProgramForm(ts, k1, k2)
    ensures ProgramForm(ts[..5 + 2 * k1 + 2 * k2], k1, k2)
  {
    var n := 5 + 2 * k1 + 2 * k2;
    WrappedPrefix(ts, n, 2, k1);
    WrappedPrefix(ts, n, 4 + 2 * k1, k2);
  }

  /** A successful parse reads the tokens of the program and nothing after them. */
  lemma ParseReadsOnlyProgram(ts: seq<Token>)
    requires Parse(ts).Success?
    ensures Program(ts, 0).value.next <= |ts|
    ensures Parse(ts[..Program(ts, 0).value.next]) == Parse(ts)
  {
    var k1, k2 := ParseSound(ts);
    ProgramFormPrefix(ts, k1, k2);
    ParseComplete(ts[..5 + 2 * k1 + 2 * k2], k1, k2);
  }

  /** The `=` of an assignment is checked by lexeme: the type its token carries is never read. */
  lemma EqualsCheckedByLexeme(ts: seq<Token>, pos: nat, tokenType: string)
    requires pos + 1 < |ts| && ts[pos + 1].lexeme == "="
    ensures AssignmentStatement(ts[pos + 1 := Token("=", tokenType)], pos) == AssignmentStatement(ts, pos)
  {
    ExpressionFrame(ts, ts[pos + 1 := Token("=", tokenType)], pos + 2);
  }

  /** The `print` keyword is checked by lexeme: the type its token carries is never read. */
  lemma PrintCheckedByLexeme(ts: seq<Token>, pos: nat, tokenType: string)
    requires pos < |ts| && ts[pos].lexeme == "print"
    ensures PrintStatement(ts[pos := Token("print", tokenType)], pos) == PrintStatement(ts, pos)
  {
    ExpressionFrame(ts, ts[pos := Token("print", tokenType)], pos + 1);
  }

  /** An empty token sequence fails on the first read. */
  lemma ParseEmpty()
    ensures Parse([]) == Failure(IndexError)
  {
  }

  /** A program must open with an IDENTIFIER token. */
  lemma ParseNeedsIdentifierFirst(ts: seq<Token>)
    requires 0 < |ts| && !IsIdentifierToken(ts[0])
    ensures Parse(ts) == Failure(ParseError(ExpectedIdentifier))
  {
  }

  /** After an identifier, a token whose lexeme is not `=` is reported as a missing `=`. */
  lemma AssignmentNeedsEquals(ts: seq<Token>, pos: nat)
    requires pos + 1 < |ts| && IsIdentifierToken(ts[pos]) && ts[pos + 1].lexeme != "="
    ensures AssignmentStatement(ts, pos) == Failure(ParseError(ExpectedEquals))
  {
  }

  /** A print statement must open with a token whose lexeme is `print`. */
  lemma PrintNeedsKeyword(ts: seq<Token>, pos: nat)
    requires pos < |ts| && ts[pos].lexeme != "print"
    ensures PrintStatement(ts, pos) == Failure(ParseError(ExpectedPrint))
  {
  }

  /** A token that is neither an atom nor `(` cannot start an expression; the message carries its repr. */
  lemma ExpressionUnexpected(ts: seq<Token>, pos: nat)
    requires pos < |ts| && !IsAtomToken(ts[pos]) && ts[pos].lexeme != "("
    ensures Expression(ts, pos) == Failure(ParseError(UnexpectedToken(ts[pos])))
  {
  }

  /** A parenthesised expression followed by a token other than `)` is reported as a missing `)`. */
  lemma ExpressionNeedsClose(ts: seq<Token>, pos: nat, inner: Parsed)
    requires pos < |ts| && IsOpen(ts[pos]) && Expression(ts, pos + 1) == Success(inner)
    requires inner.next < |ts| && ts[inner.next].lexeme != ")"
    ensures Expression(ts, pos) == Failure(ParseError(ExpectedRParen))
  {
  }

  /** A parenthesised expression that ends the tokens runs off the end looking for `)`. */
  lemma ExpressionRunsOut(ts: seq<Token>, pos: nat, inner: Parsed)
    requires pos < |ts| && IsOpen(ts[pos]) && Expression(ts, pos + 1) == Success(inner)
    requires inner.next == |ts|
    ensures Expression(ts, pos) == Failure(IndexError)
  {
  }

  /** A program whose second token is not `=` fails with the missing `=`. */
  lemma ParseMissingEquals(ts: seq<Token>)
    requires 1 < |ts| && IsIdentifierToken(ts[0]) && ts[1].lexeme != "="
    ensures Parse(ts) == Failure(ParseError(ExpectedEquals))
  {
    AssignmentNeedsEquals(ts, 0);
  }

  /**
   * A complete assignment of depth `k` followed by a token other than `print` fails with the
   * missing `print`.
   */
  lemma ParseMissingPrint(ts: seq<Token>, k: nat)
    requires 1 < |ts| && IsIdentifierToken(ts[0]) && ts[1].lexeme == "=" && Wrapped(ts, 2, k)
    requires 3 + 2 * k < |ts| && ts[3 + 2 * k].lexeme != "print"
    ensures Parse(ts) == Failure(ParseError(ExpectedPrint))
  {
    AssignmentWrapped(ts, 0, k);
    PrintNeedsKeyword(ts, 3 + 2 * k);
  }

  /** The messages a ParseError of the parser can carry. */
  predicate IsParserMessage(ts: seq<Token>, m: string) {
    m == ExpectedIdentifier || m == ExpectedEquals || m == ExpectedPrint || m == ExpectedRParen ||
    exists j :: 0 <= j < |ts| && m == UnexpectedToken(ts[j])
  }

  /**
   * Every ParseError of a parse carries one of five messages: the three statement checks, the
   * missing `)`, or an unexpected token of the input with its repr. "Expected a number" never
   * occurs, because nothing calls `number`.
   */
  lemma ParseErrorMessages(ts: seq<Token>)
    requires Parse(ts).Failure? && Parse(ts).error.ParseError?
    ensures IsParserMessage(ts, Parse(ts).error.message)
  {
  }
}
