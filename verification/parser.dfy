/**
 * The recursive-descent parser of Parser.py for the grammar
 *
 *   program              -> assignment_statement print_statement
 *   assignment_statement -> identifier "=" expression
 *   print_statement      -> "print" expression
 *   expression           -> identifier | number | "(" expression ")"
 *
 * Each procedure of the `Parser` class becomes a function from the token sequence and the
 * cursor (`current_token_index`) to either the tree it builds together with the advanced
 * cursor, or the exception it raises. Reading a token past the end of the sequence is
 * Python's IndexError, which is not a ParseError and is kept apart from it.
 */
module Parser {
  import opened Results

  /** Parser.py's `Token`: a lexeme and its category name as read from the token file. */
  datatype Token = Token(lexeme: string, tokenType: string)

  /** `Token.__repr__`, used in error messages and in the printed tree. */
  function Repr(t: Token): string
  {
    t.lexeme + ": " + t.tokenType
  }

  /** `ParseTreeNode` (its `label` is `tag` here, `label` being a Dafny keyword) and its children; a token placed as a child is a leaf. */
  datatype Tree = Node(tag: string, children: seq<Tree>) | Leaf(token: Token)

  /** The exceptions a parse can end with. */
  datatype ParseFailure =
    | ParseError(message: string)
    | IndexError  // `self.tokens[self.current_token_index]` past the end

  const ExpectedEquals: string := "Expected '=' after identifier"
  const ExpectedPrint: string := "Expected 'print' keyword"
  const ExpectedRParen: string := "Expected ')' after expression"
  const ExpectedIdentifier: string := "Expected an identifier"
  const ExpectedNumber: string := "Expected a number"

  function UnexpectedToken(t: Token): string
  {
    "Unexpected token: " + Repr(t)
  }

  /** A procedure's result: the tree it built and the cursor after the tokens it consumed. */
  datatype Parsed = Parsed(tree: Tree, next: nat)

  /** The token under the cursor, or IndexError. */
  function At(ts: seq<Token>, pos: nat): (r: Result<Token, ParseFailure>)
    ensures r.Success? <==> pos < |ts|
    ensures r.Success? ==> r.value == ts[pos]
    ensures r.Failure? ==> r.error == IndexError
  {
    if pos < |ts| then Success(ts[pos]) else Failure(IndexError)
  }

  predicate IsIdentifierToken(t: Token) {
    t.tokenType == "IDENTIFIER"
  }

  predicate IsNumberToken(t: Token) {
    t.tokenType == "NUMBER"
  }

  /** A token the expression procedure accepts on its own. */
  predicate IsAtomToken(t: Token) {
    IsIdentifierToken(t) || IsNumberToken(t)
  }

  /** The node `expression` builds for an atom token. */
  function AtomTree(t: Token): Tree
    requires IsAtomToken(t)
  {
    Node(if IsIdentifierToken(t) then "identifier" else "number", [Leaf(t)])
  }

  /** A node for a single identifier or number token, as `expression` returns it. */
  predicate IsAtom(tree: Tree) {
    tree.Node? && |tree.children| == 1 && tree.children[0].Leaf? &&
    IsAtomToken(tree.children[0].token) && tree == AtomTree(tree.children[0].token)
  }

  /** `Parser.identifier`: one IDENTIFIER token. */
  function Identifier(ts: seq<Token>, pos: nat): (r: Result<Parsed, ParseFailure>)
    ensures r.Success? <==> pos < |ts| && IsIdentifierToken(ts[pos])
    ensures r.Success? ==> r.value == Parsed(Node("identifier", [Leaf(ts[pos])]), pos + 1)
    ensures r.Failure? ==> r.error == (if pos < |ts| then ParseError(ExpectedIdentifier) else IndexError)
  {
    var t :- At(ts, pos);
    if IsIdentifierToken(t) then Success(Parsed(Node("identifier", [Leaf(t)]), pos + 1))
    else Failure(ParseError(ExpectedIdentifier))
  }

  /** `Parser.number`: one NUMBER token. Nothing in the grammar calls it. */
  function Number(ts: seq<Token>, pos: nat): (r: Result<Parsed, ParseFailure>)
    ensures r.Success? <==> pos < |ts| && IsNumberToken(ts[pos])
    ensures r.Success? ==> r.value == Parsed(Node("number", [Leaf(ts[pos])]), pos + 1)
    ensures r.Failure? ==> r.error == (if pos < |ts| then ParseError(ExpectedNumber) else IndexError)
  {
    var t :- At(ts, pos);
    if IsNumberToken(t) then Success(Parsed(Node("number", [Leaf(t)]), pos + 1))
    else Failure(ParseError(ExpectedNumber))
  }

  /**
   * `Parser.expression`: an identifier, a number, or a parenthesised expression whose
   * parentheses leave no trace in the tree. The type of a token decides atoms; the lexeme
   * alone decides parentheses.
   */
  function Expression(ts: seq<Token>, pos: nat): (r: Result<Parsed, ParseFailure>)
    ensures r.Success? ==> pos < r.value.next <= |ts| && IsAtom(r.value.tree)
    ensures r.Failure? && r.error.ParseError? ==>
      r.error.message == ExpectedRParen ||
      exists j :: pos <= j < |ts| && r.error.message == UnexpectedToken(ts[j])
    decreases |ts| - pos
  {
    var t :- At(ts, pos);
    if IsIdentifierToken(t) then Success(Parsed(Node("identifier", [Leaf(t)]), pos + 1))
    else if IsNumberToken(t) then Success(Parsed(Node("number", [Leaf(t)]), pos + 1))
    else if t.lexeme == "(" then
      var inner :- Expression(ts, pos + 1);
      var close :- At(ts, inner.next);
      if close.lexeme != ")" then Failure(ParseError(ExpectedRParen))
      else Success(Parsed(inner.tree, inner.next + 1))
    else Failure(ParseError(UnexpectedToken(t)))
  }

  /** `Parser.assignment_statement`: identifier, a token whose lexeme is `=`, expression. */
  function AssignmentStatement(ts: seq<Token>, pos: nat): (r: Result<Parsed, ParseFailure>)
    ensures r.Success? ==>
      pos + 2 < r.value.next <= |ts| && ts[pos + 1].lexeme == "=" &&
      r.value.tree.Node? && r.value.tree.tag == "assignment" && |r.value.tree.children| == 2 &&
      r.value.tree.children[0] == Node("identifier", [Leaf(ts[pos])]) && IsAtom(r.value.tree.children[1])
  {
    var id :- Identifier(ts, pos);
    var eq :- At(ts, id.next);
    if eq.lexeme != "=" then Failure(ParseError(ExpectedEquals))
    else
      var e :- Expression(ts, id.next + 1);
      Success(Parsed(Node("assignment", [id.tree, e.tree]), e.next))
  }

  /** `Parser.print_statement`: a token whose lexeme is `print`, expression. */
  function PrintStatement(ts: seq<Token>, pos: nat): (r: Result<Parsed, ParseFailure>)
    ensures r.Success? ==>
      pos + 1 < r.value.next <= |ts| && ts[pos].lexeme == "print" &&
      r.value.tree.Node? && r.value.tree.tag == "print" && |r.value.tree.children| == 1 &&
      IsAtom(r.value.tree.children[0])
  {
    var kw :- At(ts, pos);
    if kw.lexeme != "print" then Failure(ParseError(ExpectedPrint))
    else
      var e :- Expression(ts, pos + 1);
      Success(Parsed(Node("print", [e.tree]), e.next))
  }

  /** The shape of every tree `program` returns. */
  predicate IsProgramTree(tree: Tree) {
    tree.Node? && tree.tag == "program" && |tree.children| == 2 &&
    var a := tree.children[0];
    var p := tree.children[1];
    a.Node? && a.tag == "assignment" && |a.children| == 2 &&
    a.children[0].Node? && a.children[0].tag == "identifier" && |a.children[0].children| == 1 &&
    a.children[0].children[0].Leaf? && IsIdentifierToken(a.children[0].children[0].token) &&
    IsAtom(a.children[1]) &&
    p.Node? && p.tag == "print" && |p.children| == 1 && IsAtom(p.children[0])
  }

  /** `Parser.program`: an assignment statement followed by a print statement. */
  function Program(ts: seq<Token>, pos: nat): (r: Result<Parsed, ParseFailure>)
    ensures r.Success? ==> pos + 5 <= r.value.next <= |ts| && IsProgramTree(r.value.tree)
  {
    var a :- AssignmentStatement(ts, pos);
    var p :- PrintStatement(ts, a.next);
    Success(Parsed(Node("program", [a.tree, p.tree]), p.next))
  }

  /** `Parser.parse`, starting with the cursor at 0; tokens after the program are never read. */
  function Parse(ts: seq<Token>): (r: Result<Tree, ParseFailure>)
    ensures r.Success? ==> 5 <= |ts| && IsProgramTree(r.value)
  {
    var p :- Program(ts, 0);
    Success(p.tree)
  }
}
