/** The printout of the tree of `x = 5 print x`, built up from the printouts of its parts. */
module TreePrinterExamples {
  import opened Parser
  import opened TreePrinter
  import opened ParserExamples

  lemma AssignedNameLines()
    ensures TreeLines(AssignedName, "    ") == ["    identifier", "      x : IDENTIFIER"]
  {
    AssignedNameTokenLine();
    AtomLinesAre("identifier", Token("x ", "IDENTIFIER"), "    ", "    identifier", "      x : IDENTIFIER");
  }

  lemma AssignedNameTokenLine()
    ensures "    " + Step + Repr(Token("x ", "IDENTIFIER")) == "      x : IDENTIFIER"
  {
    assert "    " + Step == "      " && Repr(Token("x ", "IDENTIFIER")) == "x : IDENTIFIER";
    assert "      " + "x : IDENTIFIER" == "      x : IDENTIFIER";
  }

  lemma AssignedValueLines()
    ensures TreeLines(AssignedValue, "    ") == ["    number", "      5: NUMBER"]
  {
    AssignedValueTokenLine();
    AtomLinesAre("number", Token("5", "NUMBER"), "    ", "    number", "      5: NUMBER");
  }

  lemma AssignedValueTokenLine()
    ensures "    " + Step + Repr(Token("5", "NUMBER")) == "      5: NUMBER"
  {
    assert "    " + Step == "      " && Repr(Token("5", "NUMBER")) == "5: NUMBER";
    assert "      " + "5: NUMBER" == "      5: NUMBER";
  }

  lemma PrintedNameLines()
    ensures TreeLines(PrintedName, "    ") == ["    identifier", "      x: IDENTIFIER"]
  {
    PrintedNameTokenLine();
    AtomLinesAre("identifier", Token("x", "IDENTIFIER"), "    ", "    identifier", "      x: IDENTIFIER");
  }

  lemma PrintedNameTokenLine()
    ensures "    " + Step + Repr(Token("x", "IDENTIFIER")) == "      x: IDENTIFIER"
  {
    assert "    " + Step == "      " && Repr(Token("x", "IDENTIFIER")) == "x: IDENTIFIER";
    assert "      " + "x: IDENTIFIER" == "      x: IDENTIFIER";
  }

  lemma AssignmentChildren()
    ensures ForestLines([AssignedName, AssignedValue], "    ") ==
      ["    identifier", "      x : IDENTIFIER", "    number", "      5: NUMBER"]
  {
    ForestLinesTwo(AssignedName, AssignedValue, "    ");
    AssignedNameLines();
    AssignedValueLines();
  }

  lemma AssignmentLines()
    ensures TreeLines(AssignmentTree, "  ") ==
      ["  assignment", "    identifier", "      x : IDENTIFIER", "    number", "      5: NUMBER"]
  {
    NodeLines("assignment", [AssignedName, AssignedValue], "  ");
    assert "  " + Step == "    ";
    assert "  " + "assignment" == "  assignment";
    AssignmentChildren();
  }

  lemma PrintLines()
    ensures TreeLines(PrintTree, "  ") == ["  print", "    identifier", "      x: IDENTIFIER"]
  {
    NodeLines("print", [PrintedName], "  ");
    assert "  " + Step == "    ";
    assert "  " + "print" == "  print";
    ForestLinesOne(PrintedName, "    ");
    PrintedNameLines();
  }

  lemma ProgramChildren()
    ensures ForestLines([AssignmentTree, PrintTree], "  ") ==
      ["  assignment", "    identifier", "      x : IDENTIFIER", "    number", "      5: NUMBER",
       "  print", "    identifier", "      x: IDENTIFIER"]
  {
    ForestLinesTwo(AssignmentTree, PrintTree, "  ");
    AssignmentLines();
    PrintLines();
  }

  /**
   * `print_tree` on the tree of `x = 5 print x`: one line per node and token, each child two
   * spaces further in than its parent, tokens shown as `lexeme: TYPE`.
   */
  lemma ProgramPrinted()
    ensures TreeLines(SimpleTree, "") ==
      ["program",
       "  assignment", "    identifier", "      x : IDENTIFIER", "    number", "      5: NUMBER",
       "  print", "    identifier", "      x: IDENTIFIER"]
  {
    NodeLines("program", [AssignmentTree, PrintTree], "");
    assert "" + Step == "  ";
    assert "" + "program" == "program";
    ProgramChildren();
  }
}
