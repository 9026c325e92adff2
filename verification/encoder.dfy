/** assemble_instruction: one tokenized line to one instruction word, per category. */
module Encoder {
  import opened Common
  import opened Bits
  import opened Mnemonic
  import opened Tables
  import opened Lexer
  import opened Values
  import opened Tokenizer
  import opened Layout

  /** What assemble_instruction produces: a word, -1 for a line with no instruction, or an
      exception. */
  datatype Encoded = Word(word: nat) | NoInstruction | Error(error: AsmError)

  /** Every immediate is read with `imm_val(v, 4095)`. */
  const ImmMax: nat := 4095

  predicate RegsInRange(regs: seq<nat>) { forall k | 0 <= k < |regs| :: regs[k] < 16 }

  predicate ImmsInRange(imms: seq<nat>) { forall k | 0 <= k < |imms| :: imms[k] <= ImmMax }

  function Bit(b: bool): (n: nat)
    ensures n < 2 && (n == 1 <==> b)
  {
    if b then 1 else 0
  }

  /** MOV: `MOV Rd, #imm` or `MOV Rd, Rm`, always with S = 0 and Rn = 0.  scpython unpacks the
      two registers into four names, so its register form always fails. */
  function Mov(v: Variant, cond: nat, cmd: nat, regs: seq<nat>, imms: seq<nat>): (e: Encoded)
    requires cond < 16 && cmd < 16 && RegsInRange(regs) && ImmsInRange(imms)
    ensures e.Word? <==> (|regs| == 1 && |imms| == 1) || (v == AsmV2 && |regs| == 2 && |imms| == 0)
    ensures e.Error? <==> !e.Word?
    ensures e.Error? ==> e.error == (if |regs| == 2 && |imms| == 0 then UnpackMismatch else BadFormat("MOV"))
    ensures e.Word? ==> e.word < 0x1_0000_0000
    ensures e.Word? && |regs| == 1 ==> DpLayout(e.word, cond, 1, cmd, 0, 0, regs[0], imms[0])
    ensures e.Word? && |regs| == 2 ==> DpLayout(e.word, cond, 0, cmd, 0, 0, regs[0], regs[1])
  {
    if |regs| == 1 && |imms| == 1 then Word(DpWord(cond, 1, cmd, 0, 0, regs[0], imms[0]))
    else if |regs| == 2 && |imms| == 0 then
      if v == AsmV2 then Word(DpWord(cond, 0, cmd, 0, 0, regs[0], regs[1])) else Error(UnpackMismatch)
    else Error(BadFormat("MOV"))
  }

  /** MUL, DIV (and in ASM_v2 SMUL, UMUL): `Rd, Rm, Rs` with Rm in the Rn field and Rs as
      operand2. */
  function MulDiv(cond: nat, cmd: nat, s: nat, name: string, regs: seq<nat>): (e: Encoded)
    requires cond < 16 && cmd < 16 && s < 2 && RegsInRange(regs)
    ensures e.Word? <==> |regs| == 3
    ensures e.Error? <==> !e.Word?
    ensures e.Error? ==> e.error == BadFormat(name)
    ensures e.Word? ==> e.word < 0x1_0000_0000 && DpLayout(e.word, cond, 0, cmd, s, regs[1], regs[0], regs[2])
  {
    if |regs| == 3 then Word(DpWord(cond, 0, cmd, s, regs[1], regs[0], regs[2])) else Error(BadFormat(name))
  }

  /** LSL, LSR: `Rd, Rm, #imm` (extra immediates are ignored); the shift type is 0 for LSL and
      1 for LSR. */
  function Shift(cond: nat, cmd: nat, s: nat, kind: nat, name: string, regs: seq<nat>, imms: seq<nat>): (e: Encoded)
    requires cond < 16 && cmd < 16 && s < 2 && kind < 4 && RegsInRange(regs) && ImmsInRange(imms)
    ensures e.Word? <==> |regs| == 2 && |imms| >= 1
    ensures e.Error? <==> !e.Word?
    ensures e.Error? ==> e.error == BadFormat(name)
    ensures e.Word? ==> e.word < 0x1_0000_0000
    ensures e.Word? ==> ShiftFrameLayout(e.word, cond, cmd, s, BitOr(regs[0] * 0x1000, ShiftOperandWord(imms[0], kind, regs[1])))
    ensures e.Word? && imms[0] < 32 ==> NarrowShiftLayout(e.word, cond, cmd, s, regs[0], imms[0], kind, regs[1])
  {
    if |regs| == 2 && |imms| >= 1 then Word(ShiftWord(cond, cmd, s, regs[0], imms[0], kind, regs[1]))
    else Error(BadFormat(name))
  }

  /** The remaining data-processing mnemonics: `Rd, Rn, Rm` (I = 0), or `Rd, Rn, #imm`
      (I = 1, the first immediate). */
  function DataProc(cond: nat, cmd: nat, s: nat, name: string, regs: seq<nat>, imms: seq<nat>): (e: Encoded)
    requires cond < 16 && cmd < 16 && s < 2 && RegsInRange(regs) && ImmsInRange(imms)
    ensures e.Word? <==> |regs| == 3 || (|regs| == 2 && |imms| >= 1)
    ensures e.Error? <==> !e.Word?
    ensures e.Error? ==> e.error == BadFormat(name)
    ensures e.Word? ==> e.word < 0x1_0000_0000
    ensures e.Word? && |regs| == 3 ==> DpLayout(e.word, cond, 0, cmd, s, regs[1], regs[0], regs[2])
    ensures e.Word? && |regs| == 2 ==> DpLayout(e.word, cond, 1, cmd, s, regs[1], regs[0], imms[0])
  {
    if |regs| == 3 then Word(DpWord(cond, 0, cmd, s, regs[1], regs[0], regs[2]))
    else if |regs| == 2 && |imms| >= 1 then Word(DpWord(cond, 1, cmd, s, regs[1], regs[0], imms[0]))
    else Error(BadFormat(name))
  }

  /** How many immediates a two-register memory instruction accepts: exactly one in ASM_v2,
      at least one in scpython. */
  predicate MemImmediates(v: Variant, n: nat)
  {
    if v == AsmV2 then n == 1 else n >= 1
  }

  /** LDR, STR, LDRB, STRB: `Rd, Rn, Rm` (I = 1) or `Rd, Rn, #imm` (I = 0), always with
      offset addressing; L is bit 0 of the table code and B is bit 1. */
  function Mem(v: Variant, cond: nat, code: nat, name: string, regs: seq<nat>, imms: seq<nat>): (e: Encoded)
    requires cond < 16 && code < 4 && RegsInRange(regs) && ImmsInRange(imms)
    ensures e.Word? <==> |regs| == 3 || (|regs| == 2 && MemImmediates(v, |imms|))
    ensures e.Error? <==> !e.Word?
    ensures e.Error? ==> e.error == BadFormat(name)
    ensures e.Word? ==> e.word < 0x1_0000_0000
    ensures e.Word? && |regs| == 3 ==> MemLayout(e.word, cond, 1, code / 2, code % 2, regs[1], regs[0], regs[2])
    ensures e.Word? && |regs| == 2 ==> MemLayout(e.word, cond, 0, code / 2, code % 2, regs[1], regs[0], imms[0])
  {
    if |regs| < 2 then Error(BadFormat(name))
    else
      var l, b := code % 2, (code / 2) % 2;
      assert b == code / 2;
      if |regs| == 3 then Word(MemWord(cond, 1, b, l, regs[1], regs[0], regs[2]))
      else if |regs| == 2 && MemImmediates(v, |imms|) then Word(MemWord(cond, 0, b, l, regs[1], regs[0], imms[0]))
      else Error(BadFormat(name))
  }

  /** The branch offset: the distance from pc + 2 to the target, as its low 24 bits. */
  function BranchOffset(target: nat, pc: nat): (off: nat)
    ensures off < 0x100_0000
    ensures (off - (target - (pc + 2))) % 0x100_0000 == 0
  {
    (target - (pc + 2)) % 0x100_0000
  }

  /** B: the target is the first Pointer of the line, which must name a known label.  A line
      without one fails as a missing label in ASM_v2 and as the undefined label None in
      scpython. */
  function Branch(v: Variant, cond: nat, target: Option<string>, labels: map<string, nat>, pc: nat): (e: Encoded)
    requires cond < 16
    ensures e.Word? <==> target.Some? && target.value in labels
    ensures e.Error? <==> !e.Word?
    ensures e.Error? && target.None? ==> e.error == (if v == AsmV2 then MissingLabel else UndefinedLabel(None))
    ensures e.Error? && target.Some? ==> e.error == UndefinedLabel(target)
    ensures e.Word? ==> e.word < 0x1_0000_0000
    ensures e.Word? ==> BranchLayout(e.word, cond, BranchOffset(labels[target.value], pc))
  {
    match target
    case None => if v == AsmV2 then Error(MissingLabel) else Error(UndefinedLabel(None))
    case Some(name) =>
      if name !in labels then Error(UndefinedLabel(target))
      else Word(BranchWord(cond, BranchOffset(labels[name], pc)))
  }

  /** ADDLNG (ASM_v2's special instruction): four registers at bits 19:16, 15:12, 11:8 and
      7:4 and the table code at bits 25:20. */
  function Special(cond: nat, code: nat, name: string, regs: seq<nat>): (e: Encoded)
    requires cond < 16 && code < 64 && RegsInRange(regs)
    ensures e.Word? <==> |regs| == 4
    ensures e.Error? <==> !e.Word?
    ensures e.Error? ==> e.error == BadFormat(name)
    ensures e.Word? ==> e.word < 0x1_0000_0000 && SpecialLayout(e.word, cond, code, regs[0], regs[1], regs[2], regs[3])
  {
    if |regs| == 4 then Word(SpecialWord(cond, code, regs[0], regs[1], regs[2], regs[3]))
    else Error(BadFormat(name))
  }

  /** SMUL, UMUL in scpython: `Rd, Rn, Rm, Ra`, laid out as Rd, Ra, Rm, 1001, Rn. */
  function MulLong(cond: nat, cmd: nat, s: nat, name: string, regs: seq<nat>): (e: Encoded)
    requires cond < 16 && cmd < 8 && s < 2 && RegsInRange(regs)
    ensures e.Word? <==> |regs| == 4
    ensures e.Error? <==> !e.Word?
    ensures e.Error? ==> e.error == BadFormat(name)
    ensures e.Word? ==> e.word < 0x1_0000_0000 && MulLongLayout(e.word, cond, cmd, s, regs[0], regs[3], regs[2], regs[1])
  {
    if |regs| == 4 then Word(MulLongWord(cond, cmd, s, regs[0], regs[3], regs[2], regs[1]))
    else Error(BadFormat(name))
  }

  /** The category tests of assemble_instruction, in the source's order: multiply-long
      (scpython), data processing, memory, branch, special, and otherwise not implemented. */
  function Dispatch(v: Variant, d: Decoded, regs: seq<nat>, imms: seq<nat>, target: Option<string>,
                    labels: map<string, nat>, pc: nat): (e: Encoded)
    requires d.cond in Conds && RegsInRange(regs) && ImmsInRange(imms)
    ensures !e.NoInstruction?
    ensures e.Word? ==> e.word < 0x1_0000_0000
    ensures e.Error? && e.error.NotImplemented? <==> d.base !in ValidOps(v)
    ensures e.Error? ==> e.error.BadFormat? || e.error.UndefinedLabel? || e.error.NotImplemented?
                         || e.error == UnpackMismatch || e.error == MissingLabel
  {
    CondOrderIsTable();
    var cond := Conds[d.cond];
    var s := Bit(d.flags);
    if d.base in MulLongTable(v) then MulLong(cond, MulLongTable(v)[d.base], s, d.base, regs)
    else if d.base in DpTable(v) then
      var cmd := DpTable(v)[d.base];
      if d.base == "MOV" then Mov(v, cond, cmd, regs, imms)
      else if d.base in MulGroup(v) then MulDiv(cond, cmd, s, d.base, regs)
      else if d.base == "LSL" || d.base == "LSR" then
        Shift(cond, cmd, s, if d.base == "LSL" then 0 else 1, d.base, regs, imms)
      else DataProc(cond, cmd, s, d.base, regs, imms)
    else if d.base in MemTable then Mem(v, cond, MemTable[d.base], d.base, regs, imms)
    else if d.base in BranchTable then Branch(v, cond, target, labels, pc)
    else if d.base in SpecialTable(v) then
      if v == AsmV2 then Special(cond, SpecialTable(v)[d.base], d.base, regs)
      else Error(SpecialUnimplemented)  // scpython declares no special mnemonic, so this is never reached
    else Error(NotImplemented(d.base))
  }

  /** The text of the first token of the given kind (`next(..., None)`). */
  function FirstOfKind(tokens: seq<Token>, kind: Kind): (r: Option<string>)
    ensures r.None? <==> forall k | 0 <= k < |tokens| :: tokens[k].kind != kind
    ensures r.Some? ==> exists k | 0 <= k < |tokens| ::
              tokens[k].kind == kind && tokens[k].text == r.value
              && forall j | 0 <= j < k :: tokens[j].kind != kind
  {
    if tokens == [] then None
    else if tokens[0].kind == kind then Some(tokens[0].text)
    else
      var r := FirstOfKind(tokens[1..], kind);
      assert forall k | 1 <= k < |tokens| :: tokens[k] == tokens[1..][k - 1];
      if r.Some? then
        var k :| 0 <= k < |tokens[1..]| && tokens[1..][k].kind == kind && tokens[1..][k].text == r.value
                 && forall j | 0 <= j < k :: tokens[1..][j].kind != kind;
        assert tokens[k + 1].kind == kind && tokens[k + 1].text == r.value;
        r
      else r
  }

  /** assemble_instruction(tokens, pc) */
  function Encode(v: Variant, labels: map<string, nat>, tokens: seq<Token>, pc: nat): (e: Encoded)
    ensures e.NoInstruction? <==> forall k | 0 <= k < |tokens| :: tokens[k].kind != Op
    ensures e.Word? ==> e.word < 0x1_0000_0000
    ensures FirstOfKind(tokens, Op).Some? && RegValues(tokens).Err? ==> e == Error(RegValues(tokens).error)
    ensures FirstOfKind(tokens, Op).Some? && RegValues(tokens).Ok? && ImmValues(tokens, ImmMax).Err? ==>
              e == Error(ImmValues(tokens, ImmMax).error)
  {
    match FirstOfKind(tokens, Op)
    case None => NoInstruction
    case Some(op) =>
      match RegValues(tokens)
      case Err(err) => Error(err)
      case Ok(regs) =>
        match ImmValues(tokens, ImmMax)
        case Err(err) => Error(err)
        case Ok(imms) => Dispatch(v, Decode(op), regs, imms, FirstOfKind(tokens, Pointer), labels, pc)
  }
}
