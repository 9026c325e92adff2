/** Result and option wrappers, and the error kinds the assembler raises. */
module Common {

  datatype Option<+T> = None | Some(value: T)

  datatype Result<+T, +E> = Ok(value: T) | Err(error: E)

  /** Why one step of an assembly run failed (the exceptions raised in the source). */
  datatype AsmError =
    | BadRegister                          // reg_val: int() rejects the digits after 'R'
    | RegisterOutOfRange                   // reg_val: value outside 0..15
    | BadImmediate                         // imm_val: base-0 int() rejects the literal
    | ImmediateOutOfRange                  // imm_val: value above the bound
    | BadFormat(mnemonic: string)          // operand shape not accepted by the mnemonic
    | MissingLabel                         // ASM_v2: B without an identifier operand
    | UndefinedLabel(name: Option<string>) // branch target not in the label table
    | UnpackMismatch                       // scpython: MOV Rd, Rm unpacks 2 values into 4 names
    | SpecialUnimplemented                 // scpython: a special mnemonic with no encoder; its table is empty, so never raised
    | NotImplemented(mnemonic: string)     // base mnemonic in no table
    | BadFormation                         // ASM_v2: a retained line holds an UNKNOWN token
}
