/**
 * Parser.py's `print_tree`, modelled as the sequence of lines it prints: a node prints its
 * label and then its children two spaces further in, a token prints its repr.
 */
module TreePrinter {
  import opened Parser

  /** The extra indentation of each level. */
  const Step: string := "  "

  /** `str(node)`: a node's label, or a token's repr. */
  function Display(t: Tree): string
  {
    match t
    case Node(tag, _) => tag
    case Leaf(token) => Repr(token)
  }

  /** The number of nodes and tokens in a tree. */
  function Size(t: Tree): nat
    decreases t, 1
  {
    match t
    case Leaf(_) => 1
    case Node(_, children) => 1 + ForestSize(children)
  }

  function ForestSize(ts: seq<Tree>): nat
    decreases ts, 0
  {
    if |ts| == 0 then 0 else Size(ts[0]) + ForestSize(ts[1..])
  }

  /** `print_tree(t, indent)`: the lines printed, without their line terminators. */
  function TreeLines(t: Tree, indent: string): (lines: seq<string>)
    ensures 0 < |lines| && lines[0] == indent + Display(t)
    ensures forall k :: 0 <= k < |lines| ==> indent <= lines[k]
    decreases t, 1
  {
    match t
    case Leaf(token) => [indent + Repr(token)]
    case Node(tag, children) => [indent + tag] + ForestLines(children, indent + Step)
  }

  /** The `for child in node.children` loop: each child printed in turn at `indent`. */
  function ForestLines(ts: seq<Tree>, indent: string): (lines: seq<string>)
    ensures forall k :: 0 <= k < |lines| ==> indent <= lines[k]
    decreases ts, 0
  {
    if |ts| == 0 then [] else TreeLines(ts[0], indent) + ForestLines(ts[1..], indent)
  }

  /** Every line of `lines` with `indent` in front. */
  function Indented(indent: string, lines: seq<string>): (r: seq<string>)
    ensures |r| == |lines|
    ensures forall k :: 0 <= k < |r| ==> r[k] == indent + lines[k]
  {
    if |lines| == 0 then [] else [indent + lines[0]] + Indented(indent, lines[1..])
  }

  lemma {:induction false} IndentedAppend(indent: string, a: seq<string>, b: seq<string>)
    ensures Indented(indent, a + b) == Indented(indent, a) + Indented(indent, b)
  {
    forall k | 0 <= k < |a + b|
      ensures Indented(indent, a + b)[k] == (Indented(indent, a) + Indented(indent, b))[k]
    {
      if k < |a| {
        assert (a + b)[k] == a[k];
      } else {
        assert (a + b)[k] == b[k - |a|];
      }
    }
  }

  lemma {:induction false} IndentedTwice(outer: string, inner: string, lines: seq<string>)
    ensures Indented(outer, Indented(inner, lines)) == Indented(outer + inner, lines)
  {
    forall k | 0 <= k < |lines|
      ensures Indented(outer, Indented(inner, lines))[k] == Indented(outer + inner, lines)[k]
    {
      assert outer + (inner + lines[k]) == outer + inner + lines[k];
    }
  }

  /** One line per node and token: the printout has exactly `Size(t)` lines. */
  lemma {:induction false} TreeLinesCount(t: Tree, indent: string)
    ensures |TreeLines(t, indent)| == Size(t)
    decreases t, 1
  {
    match t
    case Leaf(_) =>
    case Node(_, children) => ForestLinesCount(children, indent + Step);
  }

  lemma {:induction false} ForestLinesCount(ts: seq<Tree>, indent: string)
    ensures |ForestLines(ts, indent)| == ForestSize(ts)
    decreases ts, 0
  {
    if 0 < |ts| {
      TreeLinesCount(ts[0], indent);
      ForestLinesCount(ts[1..], indent);
    }
  }

  /**
   * Printing at an indentation is printing at none and putting the indentation in front of
   * every line: the indentation changes no line's content or order.
   */
  lemma {:induction false} TreeLinesShift(t: Tree, indent: string)
    ensures TreeLines(t, indent) == Indented(indent, TreeLines(t, ""))
    decreases t, 1
  {
    match t
    case Leaf(token) =>
      assert "" + Repr(token) == Repr(token);
    case Node(tag, children) =>
      assert "" + tag == tag && "" + Step == Step;
      ForestLinesShift(children, indent + Step);
      ForestLinesShift(children, Step);
      IndentedTwice(indent, Step, ForestLines(children, ""));
      IndentedAppend(indent, [tag], ForestLines(children, Step));
      assert Indented(indent, [tag]) == [indent + tag];
  }

  lemma {:induction false} ForestLinesShift(ts: seq<Tree>, indent: string)
    ensures ForestLines(ts, indent) == Indented(indent, ForestLines(ts, ""))
    decreases ts, 0
  {
    if 0 < |ts| {
      TreeLinesShift(ts[0], indent);
      ForestLinesShift(ts[1..], indent);
      IndentedAppend(indent, TreeLines(ts[0], ""), ForestLines(ts[1..], ""));
    }
  }

  /** The lines of a node: its label, then its children one level further in. */
  lemma NodeLines(tag: string, children: seq<Tree>, indent: string)
    ensures TreeLines(Node(tag, children), indent) == [indent + tag] + ForestLines(children, indent + Step)
  {
  }

  /** The two lines of a node holding a single token. */
  lemma AtomLines(tag: string, token: Token, indent: string)
    ensures TreeLines(Node(tag, [Leaf(token)]), indent) == [indent + tag, indent + Step + Repr(token)]
  {
    assert ForestLines([Leaf(token)], indent + Step) == [indent + Step + Repr(token)];
  }

  /** The same two lines, given as the caller has them already computed. */
  lemma AtomLinesAre(tag: string, token: Token, indent: string, head: string, line: string)
    requires head == indent + tag && line == indent + Step + Repr(token)
    ensures TreeLines(Node(tag, [Leaf(token)]), indent) == [head, line]
  {
    AtomLines(tag, token, indent);
  }

  lemma ForestLinesOne(t: Tree, indent: string)
    ensures ForestLines([t], indent) == TreeLines(t, indent)
  {
    assert ForestLines([t], indent) == TreeLines(t, indent) + ForestLines([], indent);
  }

  lemma ForestLinesTwo(t: Tree, u: Tree, indent: string)
    ensures ForestLines([t, u], indent) == TreeLines(t, indent) + TreeLines(u, indent)
  {
    assert [t, u][1..] == [u];
    ForestLinesOne(u, indent);
  }
}
