/** tokenize_instruction on a concrete line. */
module TokenizerExample {
  import opened Common
  import opened Text
  import opened Mnemonic
  import opened Tables
  import opened Lexer
  import opened Tokenizer
  import opened EncoderExamples

  lemma BranchLineFirstWord()
    ensures MatchAt("B LOOP", 0) == Match(Pointer, 1)
  {
    assert RunEnd("B LOOP", 1, IdentClass) == 1;
    assert RunEnd("B LOOP", 0, IdentClass) == 1;
  }

  lemma BranchLineSpace()
    ensures MatchAt("B LOOP", 1) == Match(Space, 2)
  {
    assert IsSpace(' ') && !IsSpace('L');
    assert RunEnd("B LOOP", 2, SpaceClass) == 2;
  }

  lemma BranchLineTarget()
    ensures MatchAt("B LOOP", 2) == Match(Pointer, 6)
  {
    var s := "B LOOP";
    assert RunEnd(s, 6, IdentClass) == 6;
    assert RunEnd(s, 5, IdentClass) == 6;
    assert RunEnd(s, 4, IdentClass) == 6;
    assert RunEnd(s, 3, IdentClass) == 6;
    assert RunEnd(s, 2, IdentClass) == 6;
  }

  /** The raw matches of `B LOOP`: an identifier, a space and an identifier. */
  lemma BranchLineMatches()
    ensures Matches("B LOOP", 0) == [Token(Pointer, "B"), Token(Space, " "), Token(Pointer, "LOOP")]
  {
    var s := "B LOOP";
    BranchLineFirstWord();
    BranchLineSpace();
    BranchLineTarget();
    assert s[0..1] == "B" && s[1..2] == " " && s[2..6] == "LOOP";
    assert Matches(s, 6) == [];
    assert Matches(s, 2) == [Token(Pointer, "LOOP")] + [];
    assert Matches(s, 1) == [Token(Space, " ")] + [Token(Pointer, "LOOP")];
    assert Matches(s, 0) == [Token(Pointer, "B")] + [Token(Space, " "), Token(Pointer, "LOOP")];
  }

  lemma DecodeLoop()
    ensures Decode("LOOP") == Decoded("LOOP", "AL", false)
  {
    assert Upper("LOOP") == "LOOP";
    forall k | 0 <= k < |CondOrder| ensures !EndsWith("LOOP", CondOrder[k]) {
      CondOrderIsTable();
      assert "LOOP"[2..] == "OP";
    }
    DecodePlain("LOOP");
  }

  lemma LoopNotInTables(v: Variant)
    ensures "LOOP" !in ValidOps(v)
  {
    if v == AsmV2 {
      assert "LOOP" !in DpTable(AsmV2) && "LOOP" !in SpecialTable(AsmV2) && "LOOP" !in MulLongTable(AsmV2);
    } else {
      assert "LOOP" !in DpTable(ScPython) && "LOOP" !in SpecialTable(ScPython) && "LOOP" !in MulLongTable(ScPython);
    }
  }

  /** B is promoted to OP; LOOP, which is no mnemonic, stays a Pointer. */
  lemma BranchLinePromotions(v: Variant)
    ensures Promote(v, Token(Pointer, "B")) == Token(Op, "B")
    ensures Promote(v, Token(Pointer, "LOOP")) == Token(Pointer, "LOOP")
  {
    DecodeB();
    DecodeLoop();
    LoopNotInTables(v);
  }

  /** Three matches of which the middle one is whitespace: the outer two are kept, each
      promoted. */
  lemma TokensOfAroundSpace(v: Variant, a: Token, sp: Token, b: Token)
    requires WellFormedLexeme(a) && WellFormedLexeme(sp) && WellFormedLexeme(b)
    requires !Dropped(a) && Dropped(sp) && !Dropped(b)
    ensures TokensOf(v, [a, sp, b]) == [Promote(v, a), Promote(v, b)]
  {
    var ms := [a, sp, b];
    assert ms[1..] == [sp, b] && ms[1..][1..] == [b] && ms[1..][1..][1..] == [];
    assert TokensOf(v, [b]) == [Promote(v, b)] + [];
    assert TokensOf(v, [sp, b]) == TokensOf(v, [b]);
  }

  /** `B LOOP` tokenizes to an OP and a Pointer: B is promoted, the space is dropped and
      LOOP stays a label reference. */
  lemma BranchLineTokens(v: Variant)
    ensures Tokens(v, "B LOOP") == [Token(Op, "B"), Token(Pointer, "LOOP")]
  {
    var ms := [Token(Pointer, "B"), Token(Space, " "), Token(Pointer, "LOOP")];
    BranchLineMatches();
    TokensFromMatches(v, "B LOOP", ms);
    BranchLinePromotions(v);
    TokensOfAroundSpace(v, ms[0], ms[1], ms[2]);
  }

  /** Tokenizing a line whose raw matches are known. */
  lemma TokensFromMatches(v: Variant, line: string, ms: seq<Token>)
    requires Matches(line, 0) == ms
    ensures forall m | m in ms :: WellFormedLexeme(m)
    ensures Tokens(v, line) == TokensOf(v, ms)
  {
  }
}
