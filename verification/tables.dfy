/** The opcode tables of the two assembler variants (the `__init__` dictionaries). */
module Tables {

  /** ASM_v2.py or scpython.py. */
  datatype Variant = AsmV2 | ScPython

  /** dp_instr: data-processing mnemonic -> 4-bit cmd field. ASM_v2 also lists SMUL and UMUL
      here; scpython moves them to the multiply-long table. */
  function DpTable(v: Variant): (t: map<string, nat>)
    ensures forall m | m in t :: t[m] < 16
  {
    match v
    case AsmV2 =>
      map["AND" := 0x0, "SUB" := 0x2, "ADD" := 0x4, "ORR" := 0xC, "MOV" := 0xD, "LSL" := 0xD,
          "LSR" := 0xD, "MUL" := 0x9, "SMUL" := 0xD, "UMUL" := 0xF, "DIV" := 0x1]
    case ScPython =>
      map["AND" := 0x0, "SUB" := 0x2, "ADD" := 0x4, "ORR" := 0xC, "MOV" := 0xD, "LSL" := 0xD,
          "LSR" := 0xD, "MUL" := 0x9, "DIV" := 0x1]
  }

  /** mul_long_cmd (scpython only): multiply-long mnemonic -> 3-bit cmd field. */
  function MulLongTable(v: Variant): (t: map<string, nat>)
    ensures forall m | m in t :: t[m] < 8
  {
    match v
    case AsmV2 => map[]
    case ScPython => map["SMUL" := 0x6, "UMUL" := 0x5]
  }

  /** mem_instr: bit 0 of the code is L (load), bit 1 is B (byte). */
  const MemTable: map<string, nat> := map["STR" := 0x0, "LDR" := 0x1, "STRB" := 0x2, "LDRB" := 0x3]

  /** b_instr */
  const BranchTable: map<string, nat> := map["B" := 0x0]

  /** spc_instr: ASM_v2 declares ADDLNG, scpython declares nothing. */
  function SpecialTable(v: Variant): (t: map<string, nat>)
    ensures forall m | m in t :: t[m] < 64
  {
    match v
    case AsmV2 => map["ADDLNG" := 0x0]
    case ScPython => map[]
  }

  /** The data-processing mnemonics encoded with the Rd, Rm, Rs multiply layout. */
  function MulGroup(v: Variant): set<string>
  {
    match v
    case AsmV2 => {"MUL", "SMUL", "UMUL", "DIV"}
    case ScPython => {"MUL", "DIV"}
  }

  /** valid_ops: every mnemonic of every table. */
  function ValidOps(v: Variant): set<string>
  {
    DpTable(v).Keys + MemTable.Keys + BranchTable.Keys + MulLongTable(v).Keys + SpecialTable(v).Keys
  }
}
