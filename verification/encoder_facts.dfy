/** Properties of assemble_instruction that relate several encoders or hold for every
    tokenized line. */
module EncoderFacts {
  import opened Common
  import opened Bits
  import opened Mnemonic
  import opened Tables
  import opened Lexer
  import opened Values
  import opened Tokenizer
  import opened Layout
  import opened Encoder

  /** The first OP token of a tokenized line names a known mnemonic. */
  lemma FirstOpIsKnown(v: Variant, tokens: seq<Token>)
    requires forall t | t in tokens :: Lexed(v, t)
    ensures FirstOfKind(tokens, Op).Some? ==> Decode(FirstOfKind(tokens, Op).value).base in ValidOps(v)
  {
    var op := FirstOfKind(tokens, Op);
    if op.Some? {
      var k :| 0 <= k < |tokens| && tokens[k].kind == Op && tokens[k].text == op.value
               && forall j | 0 <= j < k :: tokens[j].kind != Op;
      assert tokens[k] in tokens;
    }
  }

  /** On a tokenized line the register range check, the special-instruction error and the
      "not implemented" error cannot be reached: what is left is a bad immediate, an operand
      shape the category refuses, a missing or undefined label, or scpython's MOV unpack. */
  lemma TokenizedLineErrors(v: Variant, labels: map<string, nat>, tokens: seq<Token>, pc: nat)
    requires forall t | t in tokens :: Lexed(v, t)
    ensures var e := Encode(v, labels, tokens, pc);
            e.Error? ==> !e.error.NotImplemented? && e.error != SpecialUnimplemented
                         && e.error != BadRegister && e.error != RegisterOutOfRange
  {
    FirstOpIsKnown(v, tokens);
    LexedRegsParse(tokens);
    KnownOpErrors(v, labels, tokens, pc);
  }

  lemma KnownOpErrors(v: Variant, labels: map<string, nat>, tokens: seq<Token>, pc: nat)
    requires FirstOfKind(tokens, Op).Some? ==> Decode(FirstOfKind(tokens, Op).value).base in ValidOps(v)
    requires RegValues(tokens).Ok?
    ensures var e := Encode(v, labels, tokens, pc);
            e.Error? ==> !e.error.NotImplemented? && e.error != SpecialUnimplemented
                         && e.error != BadRegister && e.error != RegisterOutOfRange
  {
    var e := Encode(v, labels, tokens, pc);
    match FirstOfKind(tokens, Op)
    case None =>
    case Some(op) =>
      var d := Decode(op);
      var imms := ImmValues(tokens, ImmMax);
      if imms.Ok? {
        var regs := RegValues(tokens).value;
        assert e == Dispatch(v, d, regs, imms.value, FirstOfKind(tokens, Pointer), labels, pc);
        DispatchErrors(v, d, regs, imms.value, FirstOfKind(tokens, Pointer), labels, pc);
      }
  }

  /** The errors the encoders can give for a known mnemonic. */
  lemma DispatchErrors(v: Variant, d: Decoded, regs: seq<nat>, imms: seq<nat>, target: Option<string>,
                       labels: map<string, nat>, pc: nat)
    requires d.cond in Conds && RegsInRange(regs) && ImmsInRange(imms) && d.base in ValidOps(v)
    ensures var e := Dispatch(v, d, regs, imms, target, labels, pc);
            e.Error? ==> !e.error.NotImplemented? && e.error != SpecialUnimplemented
                         && e.error != BadRegister && e.error != RegisterOutOfRange
  {
  }

  /** The L bit of a memory code is set exactly for the loads and the B bit exactly for the
      byte transfers. */
  lemma MemCodeBits(m: string)
    requires m in MemTable
    ensures MemTable[m] % 2 == 1 <==> m == "LDR" || m == "LDRB"
    ensures MemTable[m] / 2 == 1 <==> m == "STRB" || m == "LDRB"
  {
  }

  /** The 24-bit offset field read as a two's-complement number. */
  function SignExtend24(field: nat): (x: int)
    requires field < 0x100_0000
    ensures -0x80_0000 <= x < 0x80_0000
    ensures (x - field) % 0x100_0000 == 0
  {
    if field < 0x80_0000 then field else field - 0x100_0000
  }

  /** A branch whose target lies within the 24-bit signed range of pc + 2 can be undone: the
      sign-extended offset field added to pc + 2 gives back the label's PC. */
  lemma BranchTargetRecovered(target: nat, pc: nat)
    requires -0x80_0000 <= target - (pc + 2) < 0x80_0000
    ensures pc + 2 + SignExtend24(BranchOffset(target, pc)) == target
  {
    var d := target - (pc + 2);
    var off := BranchOffset(target, pc);
    if d >= 0 {
      DivModUnique(d, 0x100_0000, 0, d);
    } else {
      DivModUnique(d, 0x100_0000, -1, d + 0x100_0000);
    }
  }

  /** The tokens of a line other than those of one kind. */
  function Without(tokens: seq<Token>, kind: Kind): (r: seq<Token>)
    ensures forall t | t in r :: t in tokens && t.kind != kind
  {
    if tokens == [] then []
    else if tokens[0].kind == kind then Without(tokens[1..], kind)
    else [tokens[0]] + Without(tokens[1..], kind)
  }

  lemma {:induction false} WithoutKeepsFirst(tokens: seq<Token>, kind: Kind, other: Kind)
    requires kind != other
    ensures FirstOfKind(Without(tokens, kind), other) == FirstOfKind(tokens, other)
    ensures TextsOf(Without(tokens, kind), other) == TextsOf(tokens, other)
  {
    if tokens != [] {
      WithoutKeepsFirst(tokens[1..], kind, other);
      if tokens[0].kind != kind {
        var r := Without(tokens, kind);
        assert r[0] == tokens[0] && r[1..] == Without(tokens[1..], kind);
      }
    }
  }

  /** The encoder never looks at UNKNOWN tokens: a line encodes the same with them removed.
      (ASM_v2 rejects such a line before encoding; scpython does not.) */
  lemma EncodeIgnoresUnknown(v: Variant, labels: map<string, nat>, tokens: seq<Token>, pc: nat)
    ensures Encode(v, labels, Without(tokens, Unknown), pc) == Encode(v, labels, tokens, pc)
  {
    var w := Without(tokens, Unknown);
    WithoutKeepsFirst(tokens, Unknown, Op);
    WithoutKeepsFirst(tokens, Unknown, Pointer);
    WithoutKeepsFirst(tokens, Unknown, Reg);
    WithoutKeepsFirst(tokens, Unknown, Imm);
    EncodeReadsOperands(v, labels, w, tokens, pc);
  }

  /** assemble_instruction reads a line only through its first OP, its first Pointer and the
      texts of its REG and IMM tokens: two lines that agree on these encode alike. */
  lemma EncodeReadsOperands(v: Variant, labels: map<string, nat>, a: seq<Token>, b: seq<Token>, pc: nat)
    requires FirstOfKind(a, Op) == FirstOfKind(b, Op) && FirstOfKind(a, Pointer) == FirstOfKind(b, Pointer)
    requires TextsOf(a, Reg) == TextsOf(b, Reg) && TextsOf(a, Imm) == TextsOf(b, Imm)
    ensures Encode(v, labels, a, pc) == Encode(v, labels, b, pc)
  {
    assert RegValues(a) == RegValues(b);
    assert ImmValues(a, ImmMax) == ImmValues(b, ImmMax);
  }
}
