/** Which encoder assemble_instruction sends a line to, stated for every line whose
    operands read: from the tokens of the line to the fields of its word. */
module EncoderRoutes {
  import opened Common
  import opened Mnemonic
  import opened Tables
  import opened Lexer
  import opened Values
  import opened Bits
  import opened Layout
  import opened Encoder

  /** The line's first Op token is `op`, and its register and immediate texts read as
      `regs` and `imms`. */
  predicate ReadsAs(ts: seq<Token>, op: string, regs: seq<nat>, imms: seq<nat>)
  {
    FirstOfKind(ts, Op) == Some(op) && RegValues(ts) == Ok(regs) && ImmValues(ts, ImmMax) == Ok(imms)
  }

  lemma Routed(v: Variant, labels: map<string, nat>, ts: seq<Token>, pc: nat, op: string,
               regs: seq<nat>, imms: seq<nat>)
    requires ReadsAs(ts, op, regs, imms)
    ensures RegsInRange(regs) && ImmsInRange(imms) && Decode(op).cond in Conds
    ensures Encode(v, labels, ts, pc) == Dispatch(v, Decode(op), regs, imms, FirstOfKind(ts, Pointer), labels, pc)
  {
  }

  /** Where each group of mnemonics sits in the tables Dispatch consults in order. */
  lemma MulGroupEntries(v: Variant, b: string)
    requires b in MulGroup(v)
    ensures b !in MulLongTable(v) && b in DpTable(v) && b != "MOV" && b != "LSL" && b != "LSR"
  {
  }

  lemma ShiftEntries(v: Variant, b: string)
    requires b in {"LSL", "LSR"}
    ensures b !in MulLongTable(v) && b in DpTable(v) && DpTable(v)[b] == 0xD && b !in MulGroup(v)
  {
  }

  lemma DataProcEntries(v: Variant, b: string)
    requires b in {"AND", "SUB", "ADD", "ORR"}
    ensures b !in MulLongTable(v) && b in DpTable(v) && b !in MulGroup(v) && b != "MOV" && b != "LSL" && b != "LSR"
  {
  }

  lemma MemEntries(v: Variant, b: string)
    requires b in MemTable
    ensures b !in MulLongTable(v) && b !in DpTable(v) && MemTable[b] < 4
  {
  }

  lemma BranchEntries(v: Variant)
    ensures "B" !in MulLongTable(v) && "B" !in DpTable(v) && "B" !in MemTable && "B" in BranchTable
  {
  }

  /** A mnemonic of the data-processing table with no form of its own goes to DataProc. */
  lemma DispatchDataProc(v: Variant, d: Decoded, regs: seq<nat>, imms: seq<nat>, target: Option<string>,
                         labels: map<string, nat>, pc: nat)
    requires d.cond in Conds && RegsInRange(regs) && ImmsInRange(imms)
    requires d.base !in MulLongTable(v) && d.base in DpTable(v) && d.base !in MulGroup(v)
    requires d.base != "MOV" && d.base != "LSL" && d.base != "LSR"
    ensures Dispatch(v, d, regs, imms, target, labels, pc)
            == DataProc(Conds[d.cond], DpTable(v)[d.base], Bit(d.flags), d.base, regs, imms)
  {
  }

  /** LSL and LSR go to Shift with shift type 0 and 1. */
  lemma DispatchShift(v: Variant, d: Decoded, regs: seq<nat>, imms: seq<nat>, target: Option<string>,
                      labels: map<string, nat>, pc: nat)
    requires d.cond in Conds && RegsInRange(regs) && ImmsInRange(imms)
    requires d.base !in MulLongTable(v) && d.base in DpTable(v) && DpTable(v)[d.base] == 0xD && d.base !in MulGroup(v)
    requires d.base == "LSL" || d.base == "LSR"
    ensures Dispatch(v, d, regs, imms, target, labels, pc)
            == Shift(Conds[d.cond], 0xD, Bit(d.flags), if d.base == "LSL" then 0 else 1, d.base, regs, imms)
  {
  }

  /** ADDLNG in ASM_v2 goes to Special with its table code 0. */
  lemma DispatchAddLong(d: Decoded, regs: seq<nat>, imms: seq<nat>, target: Option<string>,
                        labels: map<string, nat>, pc: nat)
    requires d.cond in Conds && RegsInRange(regs) && ImmsInRange(imms) && d.base == "ADDLNG"
    ensures Dispatch(AsmV2, d, regs, imms, target, labels, pc) == Special(Conds[d.cond], 0, "ADDLNG", regs)
  {
    assert "ADDLNG" !in MulLongTable(AsmV2) && "ADDLNG" !in DpTable(AsmV2);
    assert "ADDLNG" !in MemTable && "ADDLNG" !in BranchTable && SpecialTable(AsmV2)["ADDLNG"] == 0;
  }

  /** MOV goes to Mov with opcode 0xD. */
  lemma DispatchMov(v: Variant, d: Decoded, regs: seq<nat>, imms: seq<nat>, target: Option<string>,
                    labels: map<string, nat>, pc: nat)
    requires d.cond in Conds && RegsInRange(regs) && ImmsInRange(imms) && d.base == "MOV"
    ensures Dispatch(v, d, regs, imms, target, labels, pc) == Mov(v, Conds[d.cond], 0xD, regs, imms)
  {
    assert "MOV" !in MulLongTable(v) && "MOV" in DpTable(v) && DpTable(v)["MOV"] == 0xD;
  }

  /** The multiply group goes to MulDiv with its table opcode. */
  lemma DispatchMulDiv(v: Variant, d: Decoded, regs: seq<nat>, imms: seq<nat>, target: Option<string>,
                       labels: map<string, nat>, pc: nat)
    requires d.cond in Conds && RegsInRange(regs) && ImmsInRange(imms) && d.base in MulGroup(v)
    ensures d.base in DpTable(v)
    ensures Dispatch(v, d, regs, imms, target, labels, pc)
            == MulDiv(Conds[d.cond], DpTable(v)[d.base], Bit(d.flags), d.base, regs)
  {
    MulGroupEntries(v, d.base);
  }

  /** A memory mnemonic goes to Mem with its table code. */
  lemma DispatchMem(v: Variant, d: Decoded, regs: seq<nat>, imms: seq<nat>, target: Option<string>,
                    labels: map<string, nat>, pc: nat)
    requires d.cond in Conds && RegsInRange(regs) && ImmsInRange(imms) && d.base in MemTable
    ensures Dispatch(v, d, regs, imms, target, labels, pc) == Mem(v, Conds[d.cond], MemTable[d.base], d.base, regs, imms)
  {
    MemEntries(v, d.base);
  }

  /** B goes to Branch with the line's target. */
  lemma DispatchBranch(v: Variant, d: Decoded, regs: seq<nat>, imms: seq<nat>, target: Option<string>,
                       labels: map<string, nat>, pc: nat)
    requires d.cond in Conds && RegsInRange(regs) && ImmsInRange(imms) && d.base == "B"
    ensures Dispatch(v, d, regs, imms, target, labels, pc) == Branch(v, Conds[d.cond], target, labels, pc)
  {
    BranchEntries(v);
  }

  /** In scpython, SMUL and UMUL go to MulLong with their table code. */
  lemma DispatchMulLong(d: Decoded, regs: seq<nat>, imms: seq<nat>, target: Option<string>,
                        labels: map<string, nat>, pc: nat)
    requires d.cond in Conds && RegsInRange(regs) && ImmsInRange(imms) && d.base in MulLongTable(ScPython)
    ensures Dispatch(ScPython, d, regs, imms, target, labels, pc)
            == MulLong(Conds[d.cond], MulLongTable(ScPython)[d.base], Bit(d.flags), d.base, regs)
  {
  }

  /** MOV: `Rd, #imm` with I = 1, or (ASM_v2 only) `Rd, Rm` with I = 0; opcode 0xD, Rn = 0,
      and the S bit is never set. */
  lemma RouteMov(v: Variant, labels: map<string, nat>, ts: seq<Token>, pc: nat, op: string,
                 regs: seq<nat>, imms: seq<nat>)
    requires ReadsAs(ts, op, regs, imms) && Decode(op).base == "MOV"
    ensures var e := Encode(v, labels, ts, pc);
            && (e.Word? <==> (|regs| == 1 && |imms| == 1) || (v == AsmV2 && |regs| == 2 && |imms| == 0))
            && (e.Error? <==> !e.Word?)
            && (e.Error? ==> e.error == (if |regs| == 2 && |imms| == 0 then UnpackMismatch else BadFormat("MOV")))
    ensures var e := Encode(v, labels, ts, pc); var cond := Conds[Decode(op).cond];
            && (e.Word? && |regs| == 1 ==> DpLayout(e.word, cond, 1, 0xD, 0, 0, regs[0], imms[0]))
            && (e.Word? && |regs| == 2 ==> DpLayout(e.word, cond, 0, 0xD, 0, 0, regs[0], regs[1]))
  {
    Routed(v, labels, ts, pc, op, regs, imms);
    DispatchMov(v, Decode(op), regs, imms, FirstOfKind(ts, Pointer), labels, pc);
  }

  /** MUL, DIV (and in ASM_v2 SMUL, UMUL): `Rd, Rm, Rs` in the data-processing layout with
      the table's opcode, Rm in Rn and Rs as operand2. */
  lemma RouteMulDiv(v: Variant, labels: map<string, nat>, ts: seq<Token>, pc: nat, op: string,
                    regs: seq<nat>, imms: seq<nat>)
    requires ReadsAs(ts, op, regs, imms) && Decode(op).base in MulGroup(v)
    ensures Decode(op).base in DpTable(v)
    ensures var d := Decode(op); var e := Encode(v, labels, ts, pc);
            && (e.Word? <==> |regs| == 3)
            && (e.Error? <==> !e.Word?)
            && (e.Error? ==> e.error == BadFormat(d.base))
            && (e.Word? ==> DpLayout(e.word, Conds[d.cond], 0, DpTable(v)[d.base], Bit(d.flags), regs[1], regs[0], regs[2]))
  {
    Routed(v, labels, ts, pc, op, regs, imms);
    DispatchMulDiv(v, Decode(op), regs, imms, FirstOfKind(ts, Pointer), labels, pc);
  }

  /** LSL, LSR: `Rd, Rm, #amount`, opcode 0xD, shift type 0 for LSL and 1 for LSR. */
  lemma RouteShift(v: Variant, labels: map<string, nat>, ts: seq<Token>, pc: nat, op: string,
                   regs: seq<nat>, imms: seq<nat>)
    requires ReadsAs(ts, op, regs, imms) && Decode(op).base in {"LSL", "LSR"}
    ensures var d := Decode(op); var e := Encode(v, labels, ts, pc);
            && (e.Word? <==> |regs| == 2 && |imms| >= 1)
            && (e.Error? <==> !e.Word?)
            && (e.Error? ==> e.error == BadFormat(d.base))
    ensures var d := Decode(op); var e := Encode(v, labels, ts, pc);
            var kind := if d.base == "LSL" then 0 else 1;
            && (e.Word? ==> ShiftFrameLayout(e.word, Conds[d.cond], 0xD, Bit(d.flags),
                                             BitOr(regs[0] * 0x1000, ShiftOperandWord(imms[0], kind, regs[1]))))
            && (e.Word? && imms[0] < 32 ==>
                  NarrowShiftLayout(e.word, Conds[d.cond], 0xD, Bit(d.flags), regs[0], imms[0], kind, regs[1]))
  {
    var d := Decode(op);
    ShiftEntries(v, d.base);
    Routed(v, labels, ts, pc, op, regs, imms);
    DispatchShift(v, d, regs, imms, FirstOfKind(ts, Pointer), labels, pc);
  }

  /** AND, SUB, ADD, ORR: `Rd, Rn, Rm` with I = 0 or `Rd, Rn, #imm` with I = 1. */
  lemma RouteDataProc(v: Variant, labels: map<string, nat>, ts: seq<Token>, pc: nat, op: string,
                      regs: seq<nat>, imms: seq<nat>)
    requires ReadsAs(ts, op, regs, imms) && Decode(op).base in {"AND", "SUB", "ADD", "ORR"}
    ensures Decode(op).base in DpTable(v)
    ensures var d := Decode(op); var e := Encode(v, labels, ts, pc);
            && (e.Word? <==> |regs| == 3 || (|regs| == 2 && |imms| >= 1))
            && (e.Error? <==> !e.Word?)
            && (e.Error? ==> e.error == BadFormat(d.base))
    ensures var d := Decode(op); var e := Encode(v, labels, ts, pc);
            var cond, cmd, s := Conds[d.cond], DpTable(v)[d.base], Bit(d.flags);
            && (e.Word? && |regs| == 3 ==> DpLayout(e.word, cond, 0, cmd, s, regs[1], regs[0], regs[2]))
            && (e.Word? && |regs| == 2 ==> DpLayout(e.word, cond, 1, cmd, s, regs[1], regs[0], imms[0]))
  {
    var d := Decode(op);
    DataProcEntries(v, d.base);
    Routed(v, labels, ts, pc, op, regs, imms);
    DispatchDataProc(v, d, regs, imms, FirstOfKind(ts, Pointer), labels, pc);
  }

  /** LDR, STR, LDRB, STRB: B and L come from the table code; I = 1 for a register offset
      and 0 for an immediate one. */
  lemma RouteMem(v: Variant, labels: map<string, nat>, ts: seq<Token>, pc: nat, op: string,
                 regs: seq<nat>, imms: seq<nat>)
    requires ReadsAs(ts, op, regs, imms) && Decode(op).base in MemTable
    ensures var d := Decode(op); var e := Encode(v, labels, ts, pc);
            && (e.Word? <==> |regs| == 3 || (|regs| == 2 && MemImmediates(v, |imms|)))
            && (e.Error? <==> !e.Word?)
            && (e.Error? ==> e.error == BadFormat(d.base))
    ensures var d := Decode(op); var e := Encode(v, labels, ts, pc);
            var cond, code := Conds[d.cond], MemTable[d.base];
            && (e.Word? && |regs| == 3 ==> MemLayout(e.word, cond, 1, code / 2, code % 2, regs[1], regs[0], regs[2]))
            && (e.Word? && |regs| == 2 ==> MemLayout(e.word, cond, 0, code / 2, code % 2, regs[1], regs[0], imms[0]))
  {
    Routed(v, labels, ts, pc, op, regs, imms);
    DispatchMem(v, Decode(op), regs, imms, FirstOfKind(ts, Pointer), labels, pc);
  }

  /** B: the first Pointer token names the target, which must be a known label; the word
      holds its distance from pc + 2. */
  lemma RouteBranch(v: Variant, labels: map<string, nat>, ts: seq<Token>, pc: nat, op: string,
                    regs: seq<nat>, imms: seq<nat>)
    requires ReadsAs(ts, op, regs, imms) && Decode(op).base == "B"
    ensures var target := FirstOfKind(ts, Pointer); var e := Encode(v, labels, ts, pc);
            && (e.Word? <==> target.Some? && target.value in labels)
            && (e.Error? <==> !e.Word?)
            && (e.Error? && target.None? ==> e.error == (if v == AsmV2 then MissingLabel else UndefinedLabel(None)))
            && (e.Error? && target.Some? ==> e.error == UndefinedLabel(target))
            && (e.Word? ==> BranchLayout(e.word, Conds[Decode(op).cond], BranchOffset(labels[target.value], pc)))
  {
    Routed(v, labels, ts, pc, op, regs, imms);
    DispatchBranch(v, Decode(op), regs, imms, FirstOfKind(ts, Pointer), labels, pc);
  }

  /** SMUL, UMUL in scpython: `Rd, Rn, Rm, Ra` in the multiply-long layout with the table's
      3-bit code. */
  lemma RouteMulLong(labels: map<string, nat>, ts: seq<Token>, pc: nat, op: string,
                     regs: seq<nat>, imms: seq<nat>)
    requires ReadsAs(ts, op, regs, imms) && Decode(op).base in MulLongTable(ScPython)
    ensures var d := Decode(op); var e := Encode(ScPython, labels, ts, pc);
            && (e.Word? <==> |regs| == 4)
            && (e.Error? <==> !e.Word?)
            && (e.Error? ==> e.error == BadFormat(d.base))
            && (e.Word? ==> MulLongLayout(e.word, Conds[d.cond], MulLongTable(ScPython)[d.base], Bit(d.flags),
                                          regs[0], regs[3], regs[2], regs[1]))
  {
    Routed(ScPython, labels, ts, pc, op, regs, imms);
    DispatchMulLong(Decode(op), regs, imms, FirstOfKind(ts, Pointer), labels, pc);
  }

  /** ADDLNG in ASM_v2: four registers in the special layout with code 0. */
  lemma RouteAddLong(labels: map<string, nat>, ts: seq<Token>, pc: nat, op: string,
                     regs: seq<nat>, imms: seq<nat>)
    requires ReadsAs(ts, op, regs, imms) && Decode(op).base == "ADDLNG"
    ensures var d := Decode(op); var e := Encode(AsmV2, labels, ts, pc);
            && (e.Word? <==> |regs| == 4)
            && (e.Error? <==> !e.Word?)
            && (e.Error? ==> e.error == BadFormat("ADDLNG"))
            && (e.Word? ==> SpecialLayout(e.word, Conds[d.cond], 0, regs[0], regs[1], regs[2], regs[3]))
  {
    Routed(AsmV2, labels, ts, pc, op, regs, imms);
    DispatchAddLong(Decode(op), regs, imms, FirstOfKind(ts, Pointer), labels, pc);
  }
}
