/** The four-line LOOP program through both passes, from its tokenized lines:

      MOV R0, #5
      ADD R1, R0, #3
      LOOP: ADD R1, R1, #1
      B LOOP
*/
module ProgramExample {
  import opened Common
  import opened Lexer
  import opened Tables
  import opened Layout
  import opened Encoder
  import opened Driver
  import opened EncoderExamples

  const MovTokens: seq<Token> := [Token(Op, "MOV"), Token(Reg, "R0"), Token(Comma, ","), Token(Imm, "#5")]
  const AddTokens: seq<Token> := [Token(Op, "ADD"), Token(Reg, "R1"), Token(Comma, ","), Token(Reg, "R0"),
                                  Token(Comma, ","), Token(Imm, "#3")]
  const IncTokens: seq<Token> := [Token(Op, "ADD"), Token(Reg, "R1"), Token(Comma, ","), Token(Reg, "R1"),
                                  Token(Comma, ","), Token(Imm, "#1")]
  const BranchTokens: seq<Token> := [Token(Op, "B"), Token(Pointer, "LOOP")]

  const LoopLines: seq<TokenLine> := [
    TokenLine(1, "MOV R0, #5", MovTokens),
    TokenLine(2, "ADD R1, R0, #3", AddTokens),
    TokenLine(3, "LOOP: ADD R1, R1, #1", [Token(Label, "LOOP:")] + IncTokens),
    TokenLine(4, "B LOOP", BranchTokens)
  ]

  const LoopRetained: seq<Retained> :=
    [Retained(1, 0, MovTokens), Retained(2, 1, AddTokens), Retained(3, 2, IncTokens), Retained(4, 3, BranchTokens)]

  const LoopExtract: seq<string> := ["MOV R0, #5", "ADD R1, R0, #3", "LOOP: ADD R1, R1, #1", "B LOOP"]

  lemma LoopLabel()
    ensures DefinedLabel([Token(Label, "LOOP:")] + IncTokens) == Some("LOOP")
    ensures Instruction([Token(Label, "LOOP:")] + IncTokens) == IncTokens
  {
    assert LabelName("LOOP:") == "LOOP";
    assert ([Token(Label, "LOOP:")] + IncTokens)[1..] == IncTokens;
  }

  lemma LoopFirstTwo()
    ensures Pass1(map[], LoopLines[..2]) == Pass1State(map[], LoopRetained[..2], LoopExtract[..2])
  {
    Pass1Single(map[], LoopLines[0]);
    assert LoopLines[..1] == [LoopLines[0]];
    Pass1Last(map[], LoopLines, 2);
    assert [Retained(1, 0, MovTokens)] + [Retained(2, 1, AddTokens)] == LoopRetained[..2];
    assert ["MOV R0, #5"] + ["ADD R1, R0, #3"] == LoopExtract[..2];
  }

  lemma LoopFirstThree()
    ensures Pass1(map[], LoopLines[..3]) == Pass1State(map["LOOP" := 2], LoopRetained[..3], LoopExtract[..3])
  {
    LoopFirstTwo();
    LoopLabel();
    Pass1Last(map[], LoopLines, 3);
    assert LoopRetained[..2] + [Retained(3, 2, IncTokens)] == LoopRetained[..3];
    assert LoopExtract[..2] + ["LOOP: ADD R1, R1, #1"] == LoopExtract[..3];
  }

  /** Pass 1 binds LOOP to PC 2 and gives the four lines PCs 0 to 3. */
  lemma LoopPass1()
    ensures Pass1(map[], LoopLines) == Pass1State(map["LOOP" := 2], LoopRetained, LoopExtract)
  {
    LoopFirstThree();
    Pass1Last(map[], LoopLines, 4);
    assert LoopRetained[..3] + [Retained(4, 3, BranchTokens)] == LoopRetained;
    assert LoopExtract[..3] + ["B LOOP"] == LoopExtract;
    assert LoopLines[..4] == LoopLines;
  }

  /** None of the four instructions holds an UNKNOWN token, so ASM_v2 encodes each one. */
  lemma LoopLineResults(k: nat)
    requires k < 4
    ensures LineResult(AsmV2, map["LOOP" := 2], LoopRetained[k]) == Word([0xE3A00005, 0xE2801003, 0xE2811001, 0xEAFFFFFD][k])
  {
    var r := LoopRetained[k];
    assert forall j | 0 <= j < |r.tokens| :: r.tokens[j].kind != Unknown;
    if k == 0 {
      MovImmediateExample(map["LOOP" := 2], 0);
    } else if k == 1 {
      AddImmediateExample(map["LOOP" := 2], 1);
    } else if k == 2 {
      AddIncrementExample(map["LOOP" := 2], 2);
    } else {
      BranchExample();
    }
  }

  /** The LOOP program assembles to four words, the last a branch back by three words. */
  lemma LoopProgramWords()
    ensures var st := Pass1(map[], LoopLines);
            Pass2(LineResults(AsmV2, st.labels, st.retained), st.retained, st.extract)
            == Ok([0xE3A00005, 0xE2801003, 0xE2811001, 0xEAFFFFFD])
  {
    var words := [0xE3A00005, 0xE2801003, 0xE2811001, 0xEAFFFFFD];
    LoopPass1();
    forall k | 0 <= k < 4 ensures LineResult(AsmV2, map["LOOP" := 2], LoopRetained[k]) == Word(words[k]) {
      LoopLineResults(k);
    }
    EveryLineAssembles(AsmV2, map[], LoopLines, Pass1State(map["LOOP" := 2], LoopRetained, LoopExtract), words);
  }

  /** When pass 1 ends in `st` and every retained line encodes to the matching word, both
      passes give exactly those words. */
  lemma EveryLineAssembles(v: Variant, labels0: map<string, nat>, lines: seq<TokenLine>, st: Pass1State, words: seq<nat>)
    requires Pass1(labels0, lines) == st
    requires |st.retained| == |words|
    requires forall k | 0 <= k < |words| :: LineResult(v, st.labels, st.retained[k]) == Word(words[k])
    ensures var s := Pass1(labels0, lines);
            Pass2(LineResults(v, s.labels, s.retained), s.retained, s.extract) == Ok(words)
  {
    var es := LineResults(v, st.labels, st.retained);
    Pass2AllWords(es, st.retained, st.extract);
    assert Pass2(es, st.retained, st.extract).value == words;
  }

  /** pass 1 over a single line that holds an instruction and no label. */
  lemma Pass1Single(labels0: map<string, nat>, line: TokenLine)
    requires line.tokens != [] && DefinedLabel(line.tokens).None?
    ensures Pass1(labels0, [line]) == Pass1State(labels0, [Retained(line.number, 0, line.tokens)], [line.text])
  {
    Pass1Last(labels0, [line], 1);
    assert [line][..0] == [] && [line][..1] == [line];
  }

  /** pass 2 over a single line. */
  lemma Pass2Single(e: Encoded, r: Retained, text: string)
    ensures Pass2([e], [r], [text]) == if e.Error? then Err(Failure(e.error, r.number, text))
                                       else if e.Word? then Ok([e.word])
                                       else Ok([])
  {
    assert [e][..0] == [] && [r][..0] == [] && [text][..0] == [];
    match e {
      case Word(w) => assert [] + [w] == [w];
      case _ =>
    }
  }

  lemma BranchFromZero()
    ensures Branch(AsmV2, 14, Some("LOOP"), map["LOOP" := 0], 0) == Word(0xEAFFFFFE)
  {
    assert BranchOffset(0, 0) == 0xFFFFFE;
    assert BranchWord(14, 0xFFFFFE) == 0xEAFFFFFE;
  }

  /** Both passes over a program of one unlabelled instruction line. */
  lemma LoneLine(v: Variant, labels0: map<string, nat>, line: TokenLine)
    requires line.tokens != [] && DefinedLabel(line.tokens).None?
    ensures var st := Pass1(labels0, [line]);
            Pass2(LineResults(v, st.labels, st.retained), st.retained, st.extract)
            == var e := LineResult(v, labels0, Retained(line.number, 0, line.tokens));
               if e.Error? then Err(Failure(e.error, line.number, line.text))
               else if e.Word? then Ok([e.word])
               else Ok([])
  {
    var r := Retained(line.number, 0, line.tokens);
    Pass1Single(labels0, line);
    assert LineResults(v, labels0, [r]) == [LineResult(v, labels0, r)];
    Pass2Single(LineResult(v, labels0, r), r, line.text);
  }

  /** Pass 1 and pass 2 over the single line `B LOOP`, from the labels the assembler holds. */
  lemma LoneBranch(labels0: map<string, nat>)
    ensures var st := Pass1(labels0, [TokenLine(1, "B LOOP", BranchTokens)]);
            Pass2(LineResults(AsmV2, st.labels, st.retained), st.retained, st.extract)
            == var e := Branch(AsmV2, 14, Some("LOOP"), labels0, 0);
               if e.Error? then Err(Failure(e.error, 1, "B LOOP"))
               else if e.Word? then Ok([e.word])
               else Ok([])
  {
    BranchLineResult(labels0);
    LoneLine(AsmV2, labels0, TokenLine(1, "B LOOP", BranchTokens));
  }

  lemma BranchLineResult(labels: map<string, nat>)
    ensures LineResult(AsmV2, labels, Retained(1, 0, BranchTokens)) == Branch(AsmV2, 14, Some("LOOP"), labels, 0)
  {
    assert forall j | 0 <= j < |BranchTokens| :: BranchTokens[j].kind != Unknown;
    BranchLine(labels, 0);
  }

  /** The label table outlives a call of assemble_program: `B LOOP` alone fails on a fresh
      assembler, but assembles when an earlier program left LOOP bound (here to PC 0). */
  lemma StaleLabelResolves()
    ensures var line := TokenLine(1, "B LOOP", BranchTokens);
            var initial := Pass1(map[], [line]);
            var stale := Pass1(map["LOOP" := 0], [line]);
            && Pass2(LineResults(AsmV2, initial.labels, initial.retained), initial.retained, initial.extract)
               == Err(Failure(UndefinedLabel(Some("LOOP")), 1, "B LOOP"))
            && Pass2(LineResults(AsmV2, stale.labels, stale.retained), stale.retained, stale.extract)
               == Ok([0xEAFFFFFE])
  {
    LoneBranch(map[]);
    LoneBranch(map["LOOP" := 0]);
    BranchFromZero();
  }
}
