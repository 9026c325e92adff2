/** Instruction words for concrete lines. */
module EncoderExamples {
  import opened Common
  import opened Text
  import opened Mnemonic
  import opened Tables
  import opened Lexer
  import opened Values
  import opened Bits
  import opened Layout
  import opened Encoder
  import opened EncoderRoutes

  lemma DecodeMov()
    ensures Decode("MOV") == Decoded("MOV", "AL", false)
  {
    assert Upper("MOV") == "MOV";
    assert !EndsWith("MOV", "S");
    assert Unflagged("MOV") == "MOV";
    forall k | 0 <= k < |CondOrder| ensures !EndsWith("MOV", CondOrder[k]) {
      CondOrderIsTable();
      assert "MOV"[1..] == "OV";
    }
    assert FirstCondSuffix("MOV", 0).None?;
  }

  /** The texts of one kind in a token list: the first token's text when it has that kind,
      then those of the rest. */
  lemma TextsOfCons(t: Token, rest: seq<Token>, kind: Kind)
    ensures TextsOf([t] + rest, kind) == (if t.kind == kind then [t.text] else []) + TextsOf(rest, kind)
  {
    assert ([t] + rest)[1..] == rest;
    assert [] + TextsOf(rest, kind) == TextsOf(rest, kind);
  }

  /** The operands of `MOV R0, #5` as the comprehensions read them. */
  lemma MovOperands(ts: seq<Token>)
    requires ts == [Token(Op, "MOV"), Token(Reg, "R0"), Token(Comma, ","), Token(Imm, "#5")]
    ensures FirstOfKind(ts, Op) == Some("MOV") && FirstOfKind(ts, Pointer) == None
    ensures RegValues(ts) == Ok([0]) && ImmValues(ts, ImmMax) == Ok([5])
  {
    assert ts[0].kind == Op;
    assert FirstOfKind(ts, Pointer) == None by {
      forall k | 0 <= k < |ts| ensures ts[k].kind != Pointer { }
    }
    OpRegCommaImm(ts, "MOV", "R0", "#5");
    assert RegVal("R0") == Ok(0) by { assert AfterPrefix("R0") == "0"; assert Value("0", 10) == 0; }
    assert ImmVal("#5", ImmMax) == Ok(5) by { assert AfterPrefix("#5") == "5"; assert Value("5", 10) == 5; }
    ParseOne("R0", RegVal, 0);
    ParseOne("#5", t => ImmVal(t, ImmMax), 5);
  }

  /** The register and immediate texts of a line `op a, c`. */
  lemma OpRegCommaImm(ts: seq<Token>, op: string, a: string, c: string)
    requires ts == [Token(Op, op), Token(Reg, a), Token(Comma, ","), Token(Imm, c)]
    ensures TextsOf(ts, Reg) == [a] && TextsOf(ts, Imm) == [c]
  {
    var t3 := [Token(Imm, c)];
    TextsOfCons(Token(Imm, c), [], Reg);
    TextsOfCons(Token(Imm, c), [], Imm);
    assert [Token(Imm, c)] + [] == t3;
    var t2 := [Token(Comma, ",")] + t3;
    TextsOfCons(Token(Comma, ","), t3, Reg);
    TextsOfCons(Token(Comma, ","), t3, Imm);
    var t1 := [Token(Reg, a)] + t2;
    TextsOfCons(Token(Reg, a), t2, Reg);
    TextsOfCons(Token(Reg, a), t2, Imm);
    assert ts == [Token(Op, op)] + t1;
    TextsOfCons(Token(Op, op), t1, Reg);
    TextsOfCons(Token(Op, op), t1, Imm);
  }

  /** Table entries the MOV examples look up. */
  lemma MovTables()
    ensures "AL" in Conds && Conds["AL"] == 14
    ensures "MOV" !in MulLongTable(AsmV2) && "MOV" in DpTable(AsmV2) && DpTable(AsmV2)["MOV"] == 13
  {
  }

  lemma MovWord()
    ensures Mov(AsmV2, 14, 13, [0], [5]) == Word(0xE3A00005)
  {
    assert DpWord(14, 1, 13, 0, 0, 0, 5) == 0xE3A00005;
  }

  /** MOV with condition AL, Rd = 0 and immediate 5. */
  lemma MovDispatch(labels: map<string, nat>, pc: nat)
    ensures Dispatch(AsmV2, Decoded("MOV", "AL", false), [0], [5], None, labels, pc) == Word(0xE3A00005)
  {
    MovTables();
    MovWord();
  }

  /** `MOV R0, #5` assembles to E3A00005 in ASM_v2, at any PC and whatever the labels. */
  lemma MovImmediateExample(labels: map<string, nat>, pc: nat)
    ensures Encode(AsmV2, labels, [Token(Op, "MOV"), Token(Reg, "R0"), Token(Comma, ","), Token(Imm, "#5")], pc)
            == Word(0xE3A00005)
  {
    var ts := [Token(Op, "MOV"), Token(Reg, "R0"), Token(Comma, ","), Token(Imm, "#5")];
    DecodeMov();
    MovOperands(ts);
    MovDispatch(labels, pc);
  }

  /** A mnemonic with no flags 'S' and no condition suffix decodes to itself with AL. */
  lemma DecodePlain(name: string)
    requires Upper(name) == name && !EndsWith(name, "S")
    requires forall k | 0 <= k < |CondOrder| :: !EndsWith(name, CondOrder[k])
    ensures Decode(name) == Decoded(name, "AL", false)
  {
    assert Unflagged(name) == name;
    assert FirstCondSuffix(name, 0).None?;
  }

  lemma DecodeAdd()
    ensures Decode("ADD") == Decoded("ADD", "AL", false)
  {
    assert Upper("ADD") == "ADD";
    forall k | 0 <= k < |CondOrder| ensures !EndsWith("ADD", CondOrder[k]) {
      CondOrderIsTable();
      assert "ADD"[1..] == "DD";
    }
    DecodePlain("ADD");
  }

  /** The operands of a line `op a, b, c` with two registers and an immediate. */
  lemma TwoRegImmOperands(ts: seq<Token>, op: string, a: string, b: string, c: string)
    requires ts == [Token(Op, op), Token(Reg, a), Token(Comma, ","), Token(Reg, b),
                    Token(Comma, ","), Token(Imm, c)]
    ensures FirstOfKind(ts, Op) == Some(op) && FirstOfKind(ts, Pointer) == None
    ensures TextsOf(ts, Reg) == [a, b] && TextsOf(ts, Imm) == [c]
  {
    assert ts[0].kind == Op;
    assert FirstOfKind(ts, Pointer) == None by {
      forall k | 0 <= k < |ts| ensures ts[k].kind != Pointer { }
    }
    TwoRegImmTexts(ts, op, a, b, c);
  }

  lemma TwoRegImmTexts(ts: seq<Token>, op: string, a: string, b: string, c: string)
    requires ts == [Token(Op, op), Token(Reg, a), Token(Comma, ","), Token(Reg, b),
                    Token(Comma, ","), Token(Imm, c)]
    ensures TextsOf(ts, Reg) == [a, b] && TextsOf(ts, Imm) == [c]
  {
    var t3 := [Token(Reg, b), Token(Comma, ","), Token(Imm, c)];
    OpRegCommaImm([Token(Op, op)] + t3, op, b, c);
    assert ([Token(Op, op)] + t3)[1..] == t3;
    assert TextsOf(t3, Reg) == [b] && TextsOf(t3, Imm) == [c];
    var t2 := [Token(Comma, ",")] + t3;
    TextsOfCons(Token(Comma, ","), t3, Reg);
    TextsOfCons(Token(Comma, ","), t3, Imm);
    var t1 := [Token(Reg, a)] + t2;
    TextsOfCons(Token(Reg, a), t2, Reg);
    TextsOfCons(Token(Reg, a), t2, Imm);
    assert ts == [Token(Op, op)] + t1;
    TextsOfCons(Token(Op, op), t1, Reg);
    TextsOfCons(Token(Op, op), t1, Imm);
  }

  lemma ParseOne(c: string, f: string -> Result<nat, AsmError>, z: nat)
    requires f(c) == Ok(z)
    ensures ParseAll([c], f) == Ok([z])
  {
    assert [c][1..] == [];
    assert ParseAll([c], f) == Ok([z] + []);
    assert [z] + [] == [z];
  }

  lemma ParseTwo(a: string, b: string, f: string -> Result<nat, AsmError>, x: nat, y: nat)
    requires f(a) == Ok(x) && f(b) == Ok(y)
    ensures ParseAll([a, b], f) == Ok([x, y])
  {
    assert [a, b][1..] == [b];
    ParseOne(b, f, y);
    assert ParseAll([a, b], f) == Ok([x] + [y]);
    assert [x] + [y] == [x, y];
  }

  lemma RegLiterals()
    ensures RegVal("R0") == Ok(0) && RegVal("R1") == Ok(1)
  {
    assert AfterPrefix("R0") == "0" && Value("0", 10) == 0;
    assert AfterPrefix("R1") == "1" && Value("1", 10) == 1;
  }

  lemma ImmLiterals()
    ensures ImmVal("#1", ImmMax) == Ok(1) && ImmVal("#3", ImmMax) == Ok(3)
  {
    assert AfterPrefix("#1") == "1" && Value("1", 10) == 1;
    assert AfterPrefix("#3") == "3" && Value("3", 10) == 3;
  }

  /** Table entries the ADD examples look up. */
  lemma AddTables()
    ensures "AL" in Conds && Conds["AL"] == 14
    ensures "ADD" !in MulLongTable(AsmV2) && "ADD" in DpTable(AsmV2) && DpTable(AsmV2)["ADD"] == 4
    ensures "ADD" !in MulGroup(AsmV2)
  {
  }

  /** The immediate form of a data-processing mnemonic with two registers. */
  lemma DataProcImmediate(cond: nat, cmd: nat, s: nat, name: string, rd: nat, rn: nat, imm: nat)
    requires cond < 16 && cmd < 16 && s < 2 && rd < 16 && rn < 16 && imm <= ImmMax
    ensures DataProc(cond, cmd, s, name, [rd, rn], [imm]) == Word(DpWord(cond, 1, cmd, s, rn, rd, imm))
  {
  }

  /** The register and immediate values of a line `op a, b, c`. */
  lemma TwoRegImmValues(ts: seq<Token>, op: string, a: string, b: string, c: string, rd: nat, rn: nat, imm: nat)
    requires ts == [Token(Op, op), Token(Reg, a), Token(Comma, ","), Token(Reg, b),
                    Token(Comma, ","), Token(Imm, c)]
    requires RegVal(a) == Ok(rd) && RegVal(b) == Ok(rn) && ImmVal(c, ImmMax) == Ok(imm)
    ensures FirstOfKind(ts, Op) == Some(op) && FirstOfKind(ts, Pointer) == None
    ensures RegValues(ts) == Ok([rd, rn]) && ImmValues(ts, ImmMax) == Ok([imm])
  {
    TwoRegImmOperands(ts, op, a, b, c);
    ParseTwo(a, b, RegVal, rd, rn);
    ParseOne(c, t => ImmVal(t, ImmMax), imm);
  }

  /** A line `op Rd, Rn, #imm` of a plain data-processing mnemonic with no suffix: I = 1,
      S = 0, condition AL, at any PC and whatever the labels. */
  lemma DataProcImmediateLine(labels: map<string, nat>, pc: nat, ts: seq<Token>, op: string,
                              a: string, b: string, c: string, rd: nat, rn: nat, imm: nat)
    requires ts == [Token(Op, op), Token(Reg, a), Token(Comma, ","), Token(Reg, b),
                    Token(Comma, ","), Token(Imm, c)]
    requires Decode(op) == Decoded(op, "AL", false) && "AL" in Conds && Conds["AL"] == 14
    requires op !in MulLongTable(AsmV2) && op in DpTable(AsmV2) && op !in MulGroup(AsmV2)
    requires op != "MOV" && op != "LSL" && op != "LSR"
    requires RegVal(a) == Ok(rd) && RegVal(b) == Ok(rn) && ImmVal(c, ImmMax) == Ok(imm)
    ensures Encode(AsmV2, labels, ts, pc) == Word(DpWord(14, 1, DpTable(AsmV2)[op], 0, rn, rd, imm))
  {
    TwoRegImmValues(ts, op, a, b, c, rd, rn, imm);
    Routed(AsmV2, labels, ts, pc, op, [rd, rn], [imm]);
    DispatchDataProc(AsmV2, Decoded(op, "AL", false), [rd, rn], [imm], None, labels, pc);
    DataProcImmediate(14, DpTable(AsmV2)[op], 0, op, rd, rn, imm);
  }

  lemma AddDpWords()
    ensures DpWord(14, 1, 4, 0, 0, 1, 3) == 0xE2801003
    ensures DpWord(14, 1, 4, 0, 1, 1, 1) == 0xE2811001
  {
  }

  /** `ADD R1, R0, #3` assembles to E2801003 in ASM_v2, at any PC and whatever the labels. */
  lemma AddImmediateExample(labels: map<string, nat>, pc: nat)
    ensures Encode(AsmV2, labels, [Token(Op, "ADD"), Token(Reg, "R1"), Token(Comma, ","), Token(Reg, "R0"),
                                   Token(Comma, ","), Token(Imm, "#3")], pc)
            == Word(0xE2801003)
  {
    DecodeAdd();
    AddTables();
    RegLiterals();
    ImmLiterals();
    DataProcImmediateLine(labels, pc, [Token(Op, "ADD"), Token(Reg, "R1"), Token(Comma, ","), Token(Reg, "R0"),
                                       Token(Comma, ","), Token(Imm, "#3")], "ADD", "R1", "R0", "#3", 1, 0, 3);
    AddDpWords();
  }

  /** `ADD R1, R1, #1` assembles to E2811001 in ASM_v2. */
  lemma AddIncrementExample(labels: map<string, nat>, pc: nat)
    ensures Encode(AsmV2, labels, [Token(Op, "ADD"), Token(Reg, "R1"), Token(Comma, ","), Token(Reg, "R1"),
                                   Token(Comma, ","), Token(Imm, "#1")], pc)
            == Word(0xE2811001)
  {
    DecodeAdd();
    AddTables();
    RegLiterals();
    ImmLiterals();
    DataProcImmediateLine(labels, pc, [Token(Op, "ADD"), Token(Reg, "R1"), Token(Comma, ","), Token(Reg, "R1"),
                                       Token(Comma, ","), Token(Imm, "#1")], "ADD", "R1", "R1", "#1", 1, 1, 1);
    AddDpWords();
  }

  lemma DecodeB()
    ensures Decode("B") == Decoded("B", "AL", false)
  {
    assert Upper("B") == "B";
    forall k | 0 <= k < |CondOrder| ensures !EndsWith("B", CondOrder[k]) {
      CondOrderIsTable();
    }
    DecodePlain("B");
  }

  /** Table entries the branch example looks up. */
  lemma BranchTables()
    ensures "AL" in Conds && Conds["AL"] == 14
    ensures "B" !in MulLongTable(AsmV2) && "B" !in DpTable(AsmV2) && "B" !in MemTable && "B" in BranchTable
  {
  }

  /** A branch at PC 3 back to a label at PC 2: offset 2 - (3 + 2) = -3, as 24 bits. */
  lemma BranchWordExample()
    ensures Branch(AsmV2, 14, Some("LOOP"), map["LOOP" := 2], 3) == Word(0xEAFFFFFD)
  {
    assert BranchOffset(2, 3) == 0xFFFFFD;
    assert BranchWord(14, 0xFFFFFD) == 0xEAFFFFFD;
  }

  /** The operands of `B LOOP`: a mnemonic, a target and no registers or immediates. */
  lemma BranchOperands(ts: seq<Token>)
    requires ts == [Token(Op, "B"), Token(Pointer, "LOOP")]
    ensures FirstOfKind(ts, Op) == Some("B") && FirstOfKind(ts, Pointer) == Some("LOOP")
    ensures RegValues(ts) == Ok([]) && ImmValues(ts, ImmMax) == Ok([])
  {
    assert FirstOfKind(ts, Pointer) == Some("LOOP") by {
      assert ts[1..][0].kind == Pointer;
    }
    assert TextsOf(ts[1..], Reg) == [] && TextsOf(ts[1..], Imm) == [];
    assert TextsOf(ts, Reg) == [] && TextsOf(ts, Imm) == [];
  }

  lemma BranchDispatch()
    ensures Dispatch(AsmV2, Decoded("B", "AL", false), [], [], Some("LOOP"), map["LOOP" := 2], 3) == Word(0xEAFFFFFD)
  {
    BranchTables();
    BranchWordExample();
  }

  /** `B LOOP` is a branch with condition AL to LOOP, whatever the labels and the PC. */
  lemma BranchLine(labels: map<string, nat>, pc: nat)
    ensures Encode(AsmV2, labels, [Token(Op, "B"), Token(Pointer, "LOOP")], pc)
            == Branch(AsmV2, 14, Some("LOOP"), labels, pc)
  {
    DecodeB();
    BranchTables();
    BranchOperands([Token(Op, "B"), Token(Pointer, "LOOP")]);
    Routed(AsmV2, labels, [Token(Op, "B"), Token(Pointer, "LOOP")], pc, "B", [], []);
  }

  /** `B LOOP` at PC 3 with LOOP bound to PC 2 assembles to EAFFFFFD. */
  lemma BranchExample()
    ensures Encode(AsmV2, map["LOOP" := 2], [Token(Op, "B"), Token(Pointer, "LOOP")], 3) == Word(0xEAFFFFFD)
  {
    DecodeB();
    BranchOperands([Token(Op, "B"), Token(Pointer, "LOOP")]);
    BranchDispatch();
  }

  /** LSL takes any immediate up to 4095 and masks nothing, so a shift amount of 32 or more
      spills into the Rd field: `LSL R0, R1, #32` gives the same word as `LSL R1, R1, #0`. */
  lemma ShiftAmountSpillsIntoRd()
    ensures Shift(14, 13, 0, 0, "LSL", [0, 1], [32]) == Shift(14, 13, 0, 0, "LSL", [1, 1], [0])
  {
    ShiftSpillLeft();
    ShiftSpillRight();
  }

  lemma ShiftSpillLeft()
    ensures Shift(14, 13, 0, 0, "LSL", [0, 1], [32]) == Word(ShiftFrameWord(14, 13, 0, 0x1001))
  {
    ShiftImmediate(14, 13, 0, 0, "LSL", 0, 1, 32);
    ShiftCollisionLeft();
  }

  lemma ShiftSpillRight()
    ensures Shift(14, 13, 0, 0, "LSL", [1, 1], [0]) == Word(ShiftFrameWord(14, 13, 0, 0x1001))
  {
    ShiftImmediate(14, 13, 0, 0, "LSL", 1, 1, 0);
    ShiftCollisionRight();
  }

  /** The word of a shift with two registers and one immediate. */
  lemma ShiftImmediate(cond: nat, cmd: nat, s: nat, kind: nat, name: string, rd: nat, rm: nat, amount: nat)
    requires cond < 16 && cmd < 16 && s < 2 && kind < 4 && rd < 16 && rm < 16 && amount <= ImmMax
    ensures Shift(cond, cmd, s, kind, name, [rd, rm], [amount]) == Word(ShiftWord(cond, cmd, s, rd, amount, kind, rm))
  {
  }

  lemma ShiftCollisionLeft()
    ensures ShiftWord(14, 13, 0, 0, 32, 0, 1) == ShiftFrameWord(14, 13, 0, 0x1001)
  {
    ShiftOperand(32, 0x1001);
  }

  lemma ShiftCollisionRight()
    ensures ShiftWord(14, 13, 0, 1, 0, 0, 1) == ShiftFrameWord(14, 13, 0, 0x1001)
  {
    ShiftOperand(0, 1);
    RdOrOne();
  }

  lemma ShiftOperand(amount: nat, w: nat)
    requires (amount == 32 && w == 0x1001) || (amount == 0 && w == 1)
    ensures ShiftOperandWord(amount, 0, 1) == w
  {
  }

  lemma RdOrOne()
    ensures BitOr(0x1000, 1) == 0x1001
  {
  }
}
