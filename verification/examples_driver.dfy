/** How the two programs number the lines of a concrete source text. */
module DriverExamples {
  import opened Common
  import opened Text
  import opened Tables
  import opened Driver

  lemma LetterIsNotSpace()
    ensures !IsSpace('B') && IsSpace('\n')
  {
  }

  lemma TrimLetter()
    ensures TrimStart("B") == "B" && TrimEnd("B") == "B"
  {
    LetterIsNotSpace();
  }

  lemma TrimLeadingBreak()
    ensures TrimStart("\nB") == "B"
  {
    LetterIsNotSpace();
    assert "\nB"[1..] == "B";
    TrimLetter();
  }

  lemma StripLeadingBreak()
    ensures Strip("\nB") == "B"
  {
    TrimLeadingBreak();
    TrimLetter();
  }

  lemma SplitOneLine()
    ensures SplitLines("B") == ["B"]
  {
    assert LineEnd("B", 0) == 1;
  }

  lemma SplitBlankThenLine()
    ensures SplitLines("\nB") == ["", "B"]
  {
    assert LineEnd("\nB", 0) == 0;
    assert "\nB"[..0] == "" && "\nB"[1..] == "B";
    SplitOneLine();
    assert [""] + ["B"] == ["", "B"];
  }

  lemma CleanLetterAndBlank()
    ensures Clean("B") == "B" && Clean("") == ""
  {
    assert BeforeComment("B") == "B" && BeforeComment("") == "";
    TrimLetter();
  }

  lemma NumberOneLine()
    ensures NonEmptyLines(["B"], 1) == [Line(1, "B")]
  {
    assert ["B"][1..] == [];
    assert [Line(1, "B")] + [] == [Line(1, "B")];
  }

  lemma NumberBlankThenLine()
    ensures NonEmptyLines(["", "B"], 1) == [Line(2, "B")]
  {
    assert ["", "B"][1..] == ["B"];
    assert ["B"][1..] == [];
    assert NonEmptyLines(["B"], 2) == [Line(2, "B")] + [];
    assert [Line(2, "B")] + [] == [Line(2, "B")];
  }

  lemma AsmV2SplitsStripped()
    ensures RawLines(AsmV2, "\nB") == ["B"]
  {
    StripLeadingBreak();
    SplitOneLine();
  }

  lemma ScPythonSplitsRaw()
    ensures RawLines(ScPython, "\nB") == ["", "B"]
  {
    SplitBlankThenLine();
  }

  lemma CleanOneLine()
    ensures CleanAll(["B"]) == ["B"]
  {
    CleanLetterAndBlank();
  }

  lemma CleanBlankThenLine()
    ensures CleanAll(["", "B"]) == ["", "B"]
  {
    CleanLetterAndBlank();
  }

  /** ASM_v2 strips the whole program before splitting it, so a leading blank line is not
      counted and `B` is line 1. */
  lemma AsmV2NumbersFromFirstText()
    ensures SourceLines(AsmV2, "\nB") == [Line(1, "B")]
  {
    AsmV2SplitsStripped();
    CleanOneLine();
    NumberOneLine();
  }

  /** scpython splits the program as it is, so the same `B` is line 2. */
  lemma ScPythonNumbersRawLines()
    ensures SourceLines(ScPython, "\nB") == [Line(2, "B")]
  {
    ScPythonSplitsRaw();
    CleanBlankThenLine();
    NumberBlankThenLine();
  }
}
