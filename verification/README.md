# A verified model of a two-pass assembler for a small ARM-like instruction set

The modelled system is an assembler object, `ARM_Assembler`, that comes in two variants:
`ASM_v2.py` and `scpython.py`. Both variants turn assembly text into 32-bit instruction
words in two passes.

- **Cleaning.** Each source line loses its `//` comment and its surrounding whitespace, and
  blank lines are dropped. ASM_v2 strips the whole program before splitting it into lines,
  so its line numbers count from the first non-blank line. scpython numbers the raw lines.
- **Tokenizing.** A line is cut into lexemes of the kinds Label, Reg, Pointer (a bare
  identifier), Imm, Comma, SColon, LBracket, RBracket, Space, Comment and Unknown. At each
  position the first of these patterns that matches wins, and it takes as much text as it
  can. Whitespace and comments are dropped. An
  identifier becomes an Op token when `decode_mnemonic` reduces it to a known mnemonic.
- **Decoding a mnemonic.** `decode_mnemonic` upper-cases the name and strips a trailing `S`
  (set flags). It then strips the first condition suffix found in table order. The default
  condition is AL.
- **Pass 1.** Labels are bound to the PC, the index of the next instruction line, in the
  object's `labels` dictionary. That dictionary is never cleared between calls. Pass 1
  keeps each line that has tokens left after its label.
- **Pass 2.** `assemble_instruction` is called on each kept line. It reads the registers
  (`reg_val`, 0..15) and the immediates (`imm_val`, 0..4095, with base prefixes). It then
  dispatches on the mnemonic's category:
  - multiply-long (scpython only);
  - data processing: MOV, MUL/DIV and the LSL/LSR shifts, each with its own form;
  - memory;
  - branch;
  - special.
- **Stopping.** Pass 2 stops at the first line that fails and reports the error, the line
  number and the line's text.
- **The UNKNOWN check.** ASM_v2 also refuses, before encoding, any line that still holds an
  UNKNOWN token.

The two variants differ in a few places:

- their opcode tables;
- the operand shapes MOV and the memory instructions accept;
- how a missing branch label is reported;
- the UNKNOWN check;
- line numbering.

All of these are modelled through one switch, `Tables.Variant = AsmV2 | ScPython`.

Modules:

- `Text`: stripping, line splitting, comment removal, upper-casing, `int(s, 0)`.
- `Lexer`: the token regular expression, as a scanner.
- `Values`: `reg_val`, `imm_val` and the comprehensions.
- `Mnemonic`: `decode_mnemonic`.
- `Tables`: the opcode dictionaries.
- `Tokenizer`: `tokenize_instruction`.
- `Layout`: the bit layout of each instruction format.
- `Encoder`: `assemble_instruction`.
- `EncoderRoutes`: for each group of mnemonics, which encoder a line reaches and the fields
  of the word it gets.
- `Driver`: the two passes as functions.
- `AssemblerClass`: the object itself.
  - Its `labels` field persists across calls.
  - Its methods run the loops of the source and are proved equal to the functional
    specification.
- `EncoderFacts` and `DriverFacts`: properties that relate several operations.
- `EncoderExamples`, `TokenizerExample`, `DriverExamples` and `ProgramExample`: concrete
  lines and programs with their exact words.

Words are natural numbers. Each field is read back with `BitsAt(w, lo, width)`, so every
layout contract says which bits hold which operand. The source ORs shifted fields without
masking them. Where those fields can overlap (the LSL/LSR operand), the model uses a
bitwise OR on naturals, so the overlap is kept.

## Model

| member | source | states |
|---|---|---|
| Text.TrimStart | ASM_v2.py:323 | removes exactly the leading whitespace: what is removed is all whitespace and the result does not start with whitespace |
| Text.TrimEnd | ASM_v2.py:323 | removes exactly the trailing whitespace, symmetric to TrimStart |
| Text.StripSpec | ASM_v2.py:325 | `strip()` is empty iff the line is all whitespace; otherwise neither end is whitespace |
| Text.LineEnd | ASM_v2.py:323 | the end of the current line is the first line-break character at or after the start |
| Text.SplitLines | scpython.py:250 | `splitlines()` yields lines that contain no line-break character (where it cuts is stated by the two lemmas below) |
| Text.SplitLinesRejoin | scpython.py:250 | each line put back in front of its terminator gives the original text again, with one terminator per line |
| Text.SplitLinesBoundaries | ASM_v2.py:323 | every line but the last ends on a boundary, a single break character or `\r\n` taken as one; a lone `\r` is never followed by a `\n` line; only a non-empty last line has no terminator, so no empty line is added after a final break |
| Text.BeforeComment | ASM_v2.py:325 | `split('//', 1)[0]` is a prefix holding no `//` and is either the whole line or stops exactly at the first `//` |
| Text.Upper | ASM_v2.py:116 | `upper()` keeps the length and upper-cases each character |
| Text.Digits | ASM_v2.py:27 | the digit string of a number in a base is non-empty, uses only digits of that base, and is decimal in base 10 |
| Text.DigitsRoundTrip | ASM_v2.py:27 | reading back the digits of n gives n, and the first digit is 0 only for n = 0 |
| Text.ParseBase0RoundTrip | ASM_v2.py:27 | `int(s, 0)` reads decimal and `0x` hexadecimal back to n and refuses a decimal with a redundant leading zero |
| Mnemonic.CondOrderIsTable | ASM_v2.py:62-80 | the suffix search order is exactly the condition dictionary, every suffix has two letters and every code fits 4 bits |
| Mnemonic.FirstCondSuffix | ASM_v2.py:121-124 | finds the first condition, in table order, that the mnemonic ends with, and no earlier one matches |
| Mnemonic.Decode | ASM_v2.py:115-126 | the condition is always a key of the table; flags is set iff the upper-cased name ends in S; the name is base + condition suffix + S, and the condition is AL when no suffix matched |
| Mnemonic.SFlagShadowsCondition | scpython.py:104-115 | a name ending in a condition with S last (e.g. `BCS`) is read as flags set, so the condition is not the one written: `BCS` becomes base `BC` with AL |
| Tables.DpTable | ASM_v2.py:42-54 | every data-processing code fits the 4-bit cmd field, with SMUL/UMUL present only in ASM_v2; scpython's table (scpython.py:46-56) has the same codes without SMUL/UMUL |
| Tables.MulLongTable | scpython.py:59-62 | every multiply-long code fits the 3-bit cmd field, and the table is empty in ASM_v2 |
| Tables.SpecialTable | ASM_v2.py:85-87 | every special code fits its 6-bit field: ADDLNG in ASM_v2, none in scpython |
| Lexer.RunEnd | ASM_v2.py:5-17 | a character-class run ends at the first character outside the class |
| Lexer.PointerShape | ASM_v2.py:8 | the identifier run at an identifier start is Pointer text, and no longer text is |
| Lexer.LabelShape | ASM_v2.py:6 | an identifier run followed by `:` is LABEL text |
| Lexer.LabelEnd | ASM_v2.py:6 | a LABEL match ends on the `:` right after the identifier run, so LABEL matches iff that run is followed by `:` |
| Lexer.NoMatchWithoutStart | ASM_v2.py:5-17 | a pattern whose leading characters are not at i matches no text there |
| Lexer.MatchWord | ASM_v2.py:6-8 | at an identifier start, LABEL wins when it matches; otherwise REG when `R` or `r` and a digit follow, and otherwise Pointer. No earlier pattern in TOKEN_SPEC matches at i, and no longer text has the winning kind's shape |
| Lexer.RegLongest | ASM_v2.py:7 | REG takes R10..R15 when the third character allows it, with no word boundary required, and otherwise two characters; no longer REG text exists |
| Lexer.HexImmMaximal | ASM_v2.py:9 | past the end of its hex digits, `#0x...` is no longer IMM text |
| Lexer.DecimalImmMaximal | ASM_v2.py:9 | where the hex form does not apply, IMM text ends with its decimal digits |
| Lexer.MatchImm | ASM_v2.py:9 | `#` and digits is an IMM: the `0x` hex form when it applies, else the decimal digits, as far as the digits go; no longer IMM text exists |
| Lexer.SpaceMaximal | ASM_v2.py:14 | SPACE text ends where the whitespace run ends |
| Lexer.CommentMaximal | ASM_v2.py:15 | COMMENT text stops at the first newline |
| Lexer.MatchOther | ASM_v2.py:9-17 | where no identifier starts, the first of IMM, COMMA, S_COLON, L_BRACKET, R_BRACKET, SPACE, COMMENT that can start at i wins, with the longest text of its kind; UNKNOWN takes one character when none can |
| Lexer.MatchAt | ASM_v2.py:5-17 | the alternation picks the first pattern in TOKEN_SPEC order that matches at i, and takes the longest text that pattern allows |
| Lexer.UnknownOnlyWhenNothingElse | ASM_v2.py:16 | UNKNOWN is taken iff no other pattern matches at i |
| Lexer.Matches | ASM_v2.py:104 | `finditer` over the line gives only well-formed lexemes |
| Lexer.MatchesCover | ASM_v2.py:104 | the lexemes concatenate back to the whole line, so no character is lost or read twice |
| Values.RegVal | ASM_v2.py:19-23 | `reg_val` succeeds iff the text after the prefix is a decimal of at most 15; otherwise it is a bad register or one out of range; scpython's copy (scpython.py:23-27) behaves the same |
| Values.ImmVal | ASM_v2.py:25-29 | `imm_val` succeeds iff `int(s, 0)` parses and the value is within the limit; otherwise it is a bad immediate or one out of range |
| Values.ParseAll | ASM_v2.py:149-150 | the comprehension either gives one value per text, each the function's result, or the failure of the first text that fails |
| Values.FirstFailureShifts | ASM_v2.py:149-150 | a first failure in the tail is the first failure of the whole list when the head succeeds |
| Values.TextsOfMembers | ASM_v2.py:149 | a text is kept by the filter iff some token of the line has the given kind and that text |
| Values.RegValues | ASM_v2.py:149 | `regs` holds one value below 16 per REG token, or a register error |
| Values.ImmValues | ASM_v2.py:150 | `imms` holds one value within the limit per IMM token, or an immediate error |
| Values.RegLexemeInRange | ASM_v2.py:7 | a lexed register R0..R15 always parses, to the number it spells |
| Values.LexedRegsParse | ASM_v2.py:149 | on a lexed line, `regs` never fails |
| Values.ParseAllOk | ASM_v2.py:149 | the comprehension succeeds when every element does |
| Values.RegValRoundTrip | ASM_v2.py:19-23 | `R` + decimal n reads back n when n <= 15 and is out of range otherwise |
| Values.ImmValDecimal | ASM_v2.py:25-29 | `#` + decimal n is accepted exactly up to the limit, and gives n |
| Values.ImmValHex | ASM_v2.py:25-29 | `#0x` + hex n is accepted exactly up to the limit, and gives n |
| Values.ImmValLeadingZero | ASM_v2.py:25-29 | `#0` followed by a positive decimal is always a bad immediate |
| Values.LexedImmediate | ASM_v2.py:25-29 | on a lexed IMM, the malformed-number error happens iff the digits have a redundant leading zero |
| Tokenizer.Promote | ASM_v2.py:108-111 | a Pointer becomes OP iff its decoded base is a valid mnemonic; the condition test never fails; the text is kept |
| Tokenizer.TokensOf | ASM_v2.py:103-113 | dropping SPACE/COMMENT and promoting gives tokens each of which is a lexed, non-dropped lexeme |
| Tokenizer.PromoteLexed | ASM_v2.py:108-111 | promoting a well-formed kept lexeme gives a lexed token |
| Tokenizer.Tokens | ASM_v2.py:98-113 | every token of a line is lexed: REG texts are R0..R15, IMM texts are immediates, OP texts name known mnemonics |
| Tokenizer.TokensOfStep | ASM_v2.py:104-112 | one iteration of the match loop: the first match is dropped or promoted, then the rest follow |
| Tokenizer.TokensOfMembers | ASM_v2.py:103-113 | a token is in the output iff it is the promotion of a kept match |
| Tokenizer.TokensOfAppend | ASM_v2.py:103-113 | tokenizing distributes over concatenated match lists |
| Tokenizer.TokenizedRegsParse | ASM_v2.py:149 | the registers of a tokenized line always parse |
| Layout.DpWord | ASM_v2.py:175-184 | the data-processing word fits 32 bits with cond at 28, I at 25, cmd at 21, S at 20, Rn at 16, Rd at 12 and the 12-bit operand at 0 |
| Layout.MemWord | ASM_v2.py:274-286 | the memory word fits 32 bits with cond, 01, I, B, L, Rn, Rd and the 12-bit offset in their fields |
| Layout.BranchWord | ASM_v2.py:295-296 | the branch word is cond in bits 31:28, 101 in bits 27:25, a clear bit 24 and the 24-bit offset in bits 23:0 |
| Layout.SpecialWord | ASM_v2.py:310-318 | the special word is cond, 11, code and four registers in 4-bit fields |
| Layout.MulLongWord | scpython.py:140-149 | the multiply-long word fits 32 bits with cond, cmd, S, Rd, Ra, Rm, 1001 and Rn in their fields |
| Layout.ShiftOperandWord | ASM_v2.py:222-227 | the shift operand is amount at 7, type at 5 and Rm at 0, and is below 2^19 for amounts up to 4095 |
| Layout.NarrowShiftWord | ASM_v2.py:218-227 | an amount below 32 gives the regular shift layout, with Rd and the amount in disjoint fields |
| Layout.ShiftFrameWord | ASM_v2.py:218-227 | the cond/cmd/S frame above the 20 low bits of the shift form |
| Layout.ShiftWord | ASM_v2.py:218-227 | the shift word ORs Rd << 12 with the unmasked operand, and is the regular layout when the amount is below 32 |
| Encoder.Bit | ASM_v2.py:147 | the S bit is 1 exactly when the flags are set |
| Encoder.Mov | ASM_v2.py:155-184 | MOV Rd,#imm encodes with I = 1; MOV Rd,Rm encodes with I = 0 in ASM_v2 only; any other shape is a format error; in scpython (scpython.py:156-169), MOV with two registers fails in the tuple unpack and only Rd,#imm encodes |
| Encoder.MulDiv | ASM_v2.py:186-206 | MUL/DIV (and ASM_v2's SMUL/UMUL) encode iff there are exactly three registers `Rd, Rm, Rs`: Rd in bits 15:12, Rm in the Rn field (19:16) and Rs as operand2 (3:0) |
| Encoder.Shift | ASM_v2.py:208-227 | LSL/LSR encode iff there are two registers and an immediate; the amount is not masked, and the word is the regular layout when the amount is below 32 |
| Encoder.DataProc | ASM_v2.py:229-251 | the other data-processing mnemonics take Rd,Rn,Rm (I = 0) or Rd,Rn,#imm (I = 1), and any other shape is a format error |
| Encoder.Mem | ASM_v2.py:253-286 | loads and stores take Rd,Rn,Rm or Rd,Rn plus an immediate (exactly one in ASM_v2, any number with the first used in scpython); L and B come from the code's two bits (scpython's shapes are at scpython.py:213-232) |
| Encoder.BranchOffset | ASM_v2.py:295-296 | the offset field is target - (pc + 2) reduced to 24 bits |
| Encoder.Branch | ASM_v2.py:288-296 | B encodes iff its first Pointer names a known label; no Pointer is a missing-label error in ASM_v2; in scpython (scpython.py:235-240), no Pointer is the undefined label None |
| Encoder.Special | ASM_v2.py:301-318 | ADDLNG encodes iff there are four registers, each in its 4-bit field |
| Encoder.MulLong | scpython.py:131-149 | SMUL/UMUL encode iff there are four registers, Rd, Rn, Rm and Ra, in the multiply-long layout |
| Encoder.Dispatch | ASM_v2.py:152-320 | a decoded mnemonic always gives a word or an error; "not implemented" happens iff the base is in no table, and other errors are format, label or unpack errors (which encoder each mnemonic reaches is stated by the EncoderRoutes lemmas) |
| Encoder.FirstOfKind | ASM_v2.py:139-145 | `next(...)` returns the text of the first token of that kind, or None iff there is none |
| Encoder.Encode | ASM_v2.py:131-150 | a line yields -1 iff it holds no OP token, and any word fits 32 bits; a line with an OP whose registers fail to read fails with that register error, and one whose registers read but immediates do not fails with that immediate error, whatever the mnemonic's category (scpython.py:123-129 reads both lists the same way) |
| EncoderRoutes.Routed | ASM_v2.py:131-150 | a line whose OP, registers and immediates read is encoded by dispatching its decoded mnemonic, with registers below 16 and immediates at most 4095 |
| EncoderRoutes.MulGroupEntries | ASM_v2.py:186-187 | MUL, DIV (and in ASM_v2 SMUL, UMUL) are data-processing entries with no multiply-long, MOV or shift form |
| EncoderRoutes.ShiftEntries | ASM_v2.py:42-54 | LSL and LSR are data-processing entries with opcode 0xD |
| EncoderRoutes.DataProcEntries | ASM_v2.py:42-54 | AND, SUB, ADD and ORR are data-processing entries with no form of their own |
| EncoderRoutes.MemEntries | ASM_v2.py:55-60 | the memory mnemonics are in no earlier table and their codes fit two bits |
| EncoderRoutes.BranchEntries | ASM_v2.py:61 | B is only in the branch table |
| EncoderRoutes.DispatchDataProc | ASM_v2.py:229-251 | a data-processing mnemonic with no form of its own is encoded by DataProc with its table opcode |
| EncoderRoutes.DispatchShift | ASM_v2.py:208-227 | LSL and LSR are encoded by Shift with opcode 0xD and shift type 0 for LSL, 1 for LSR |
| EncoderRoutes.DispatchAddLong | ASM_v2.py:301-318 | in ASM_v2, ADDLNG is encoded by Special with code 0 |
| EncoderRoutes.DispatchMov | ASM_v2.py:155-184 | MOV is encoded by Mov with opcode 0xD |
| EncoderRoutes.DispatchMulDiv | ASM_v2.py:186-206 | MUL, DIV (and in ASM_v2 SMUL, UMUL) are encoded by MulDiv with their table opcode |
| EncoderRoutes.DispatchMem | ASM_v2.py:253-286 | loads and stores are encoded by Mem with their table code |
| EncoderRoutes.DispatchBranch | ASM_v2.py:288-296 | B is encoded by Branch with the line's first Pointer |
| EncoderRoutes.DispatchMulLong | scpython.py:131-149 | in scpython, SMUL and UMUL are encoded by MulLong with their table code |
| EncoderRoutes.RouteMov | ASM_v2.py:155-184 | a MOV line encodes iff it is `Rd, #imm` or (ASM_v2) `Rd, Rm`, with opcode 0xD, the line's condition and S clear; otherwise a format or unpack error |
| EncoderRoutes.RouteMulDiv | ASM_v2.py:186-206 | a MUL or DIV line (also SMUL, UMUL in ASM_v2) encodes iff it has three registers, in the data-processing layout with the table opcode and the S bit of the suffix |
| EncoderRoutes.RouteShift | ASM_v2.py:208-227 | an LSL or LSR line encodes iff it has two registers and an immediate, with opcode 0xD and shift type 0 or 1; amounts below 32 sit in their own field |
| EncoderRoutes.RouteDataProc | ASM_v2.py:229-251 | an AND, SUB, ADD or ORR line encodes iff it is `Rd, Rn, Rm` (I = 0) or `Rd, Rn, #imm` (I = 1), with the table opcode |
| EncoderRoutes.RouteMem | ASM_v2.py:253-286 | a load or store line encodes iff it has three registers or two and the variant's immediates, with B and L from the table code |
| EncoderRoutes.RouteBranch | ASM_v2.py:288-296 | a B line encodes iff its first Pointer is a known label, in the branch layout with that label's offset; otherwise a label error |
| EncoderRoutes.RouteMulLong | scpython.py:131-149 | in scpython an SMUL or UMUL line encodes iff it has four registers, in the multiply-long layout with the table's code |
| EncoderRoutes.RouteAddLong | ASM_v2.py:301-318 | in ASM_v2 an ADDLNG line encodes iff it has four registers, in the special layout with code 0 |
| EncoderFacts.FirstOpIsKnown | ASM_v2.py:108-111 | the first OP of a tokenized line always decodes to a valid mnemonic |
| EncoderFacts.TokenizedLineErrors | ASM_v2.py:320 | on a tokenized line, assemble_instruction never reaches "not implemented", the unimplemented special, or a register error |
| EncoderFacts.KnownOpErrors | ASM_v2.py:147-320 | with a known mnemonic and registers that parse, the only errors left are immediate, format, label and unpack errors |
| EncoderFacts.MemCodeBits | ASM_v2.py:55-60 | the L bit is set exactly for LDR/LDRB and the B bit exactly for STRB/LDRB |
| EncoderFacts.SignExtend24 | ASM_v2.py:292-296 | reading a 24-bit field as two's complement gives a value in range that agrees with the field modulo 2^24 |
| EncoderFacts.BranchTargetRecovered | ASM_v2.py:292-296 | for targets within ±2^23 of pc + 2, the encoded offset decodes back to the label's PC |
| EncoderFacts.Without | scpython.py:88-101 | removing a kind keeps only tokens of the input of other kinds |
| EncoderFacts.WithoutKeepsFirst | ASM_v2.py:139-150 | removing another kind changes neither the first token of a kind nor the texts of a kind |
| EncoderFacts.EncodeReadsOperands | ASM_v2.py:131-150 | assemble_instruction reads a line only through its first OP, its first Pointer and the texts of its REG and IMM tokens |
| EncoderFacts.EncodeIgnoresUnknown | scpython.py:118-129 | assemble_instruction gives the same result with or without UNKNOWN tokens |
| Driver.CleanAll | ASM_v2.py:325 | cleaning keeps one line per raw line, in order, each the raw line without its comment and surrounding whitespace |
| Driver.NonEmptyLines | ASM_v2.py:324-326 | the kept lines are non-empty and numbered within the range of their positions |
| Driver.NonEmptyLinesIncreasing | ASM_v2.py:324-326 | the kept lines are in strictly increasing order of line number |
| Driver.NonEmptyLinesText | ASM_v2.py:324-326 | each kept line's text is the cleaned line at its number |
| Driver.NonEmptyLinesComplete | ASM_v2.py:326 | every non-empty cleaned line is kept |
| Driver.SourceLines | ASM_v2.py:323-326 | the program's lines are non-empty, numbered from 1 and increasing; scpython (scpython.py:250-251) numbers the raw lines without stripping the program first |
| Driver.Instruction | ASM_v2.py:337-349 | a leading LABEL is removed and the rest kept; a line without one is kept whole |
| Driver.TokenizeLines | ASM_v2.py:332-333 | each line is tokenized, keeping its number and text |
| Driver.Pass1 | ASM_v2.py:328-349 | `token_lines` and `extract` have equal length; the k-th retained line has PC k and a non-empty token list |
| Driver.Pass1Last | ASM_v2.py:332-349 | pass 1 over one more line is one more step of the loop on the state before it |
| Driver.Pass1Extend | ASM_v2.py:332-349 | one more line leaves the label table as the line's label binding makes it, and retains the line at the current PC exactly when instruction tokens are left |
| Driver.Pass1Origin | ASM_v2.py:328-349 | every retained line comes from a source line with the same number and text, minus its label |
| Driver.LineResult | ASM_v2.py:355-359 | in ASM_v2 a line holding an UNKNOWN token fails with the bad-formation error before any encoder error can arise; scpython hands every line to the encoder (scpython.py:268-272); any word fits 32 bits |
| Driver.LineResults | ASM_v2.py:351-359 | one result per retained line, each that line's result |
| Driver.Pass2 | ASM_v2.py:351-369 | pass 2 completes iff no line fails, with at most one word per line |
| Driver.Pass2FirstFailure | ASM_v2.py:363-367 | a failure reports the first failing line: its error, its number and its text from `extract` |
| Driver.Pass2Next | ASM_v2.py:352-362 | one more line either stops with its failure, is skipped (-1) or appends its word |
| Driver.Pass2Advance | ASM_v2.py:352-367 | a failing line decides the whole pass 2 with its error, number and text; any other line extends the words so far by its word or by nothing |
| Driver.Pass2StopsAtFailure | ASM_v2.py:367 | after a failure, later lines change nothing |
| Driver.Pass2WordsFromLines | ASM_v2.py:362 | every output word is the word of some retained line |
| Driver.Pass2AllWords | ASM_v2.py:351-369 | when every line gives a word, the output is exactly those words in order |
| Driver.Assemble | ASM_v2.py:322-369 | a completed run gives no more words than extract lines, each below 2^32 |
| DriverFacts.Pass1Prefix | ASM_v2.py:328-349 | pass 1 only appends, so earlier PCs are never reassigned |
| DriverFacts.Pass1Advance | ASM_v2.py:341-349 | the PC moves past a line exactly when it holds an instruction, and the line is retained at the current PC |
| DriverFacts.Pass1LabelUntouched | ASM_v2.py:89 | a label no line defines keeps the value it had before the call, so labels persist across calls |
| DriverFacts.Pass1LabelLastDefinition | ASM_v2.py:337-339 | a label is bound to the PC at its last definition, the number of lines retained before it |
| DriverFacts.Skipped | ASM_v2.py:360-361 | the skipped lines are at most all lines |
| DriverFacts.Pass2WordCount | ASM_v2.py:360-362 | words + skipped lines = retained lines, so a skipped line still took a PC |
| DriverFacts.AsmV2RejectsUnknown | ASM_v2.py:355-357 | a completed ASM_v2 pass 2 had no UNKNOWN token on any retained line |
| DriverFacts.ScPythonIgnoresUnknown | scpython.py:267-275 | scpython encodes a line as if its UNKNOWN tokens were absent |
| DriverFacts.LineResultReachable | ASM_v2.py:320 | a tokenized retained line never fails with an unreachable error |
| DriverFacts.Pass2ErrorFromLine | ASM_v2.py:363-367 | the error pass 2 reports is one of the line errors |
| DriverFacts.Pass1RetainsLexed | ASM_v2.py:328-349 | pass 1 keeps only tokens the tokenizer produced |
| DriverFacts.AssembleAbortReasons | ASM_v2.py:320 | assemble_program never stops for a register error, an unknown mnemonic or the unimplemented special |
| AssemblerClass.Assembler.constructor | ASM_v2.py:89 | a new assembler starts with an empty label table |
| AssemblerClass.Assembler.DecodeMnemonic | ASM_v2.py:115-126 | the loop over the condition table computes Decode |
| AssemblerClass.Assembler.StripCondition | ASM_v2.py:121-125 | the suffix loop strips the first condition in table order that the name ends with, and leaves the name with AL when none does |
| AssemblerClass.Assembler.PromoteToken | ASM_v2.py:108-112 | the promotion step computes Promote |
| AssemblerClass.Assembler.TokenizeInstruction | ASM_v2.py:98-113 | the match loop computes Tokens for the object's variant |
| AssemblerClass.Assembler.AssembleProgram | ASM_v2.py:322-369 | returns Assemble from the labels held before the call, and leaves the labels pass 1 produced |
| AssemblerClass.Assembler.LabelPass | ASM_v2.py:328-349 | the first loop updates `labels` and builds `token_lines` and `extract` exactly as Pass1 does; scpython's first loop (scpython.py:253-264) has the same effect |
| AssemblerClass.Assembler.LabelLine | ASM_v2.py:333-349 | one iteration of the first loop binds a leading label to the current PC and gives back the instruction tokens left on the line |
| AssemblerClass.Assembler.AssembleLine | ASM_v2.py:353-359 | the loop body computes LineResult with the current labels |
| AssemblerClass.Assembler.EncodePass | ASM_v2.py:351-369 | the second loop returns the words and extract, or the first failure, as Pass2 does; scpython's second loop (scpython.py:267-277) does the same |
| EncoderExamples.DecodePlain | ASM_v2.py:115-126 | a mnemonic with no S and no condition suffix decodes to itself with AL |
| EncoderExamples.MovImmediateExample | ASM_v2.py:155-184 | `MOV R0, #5` is E3A00005 |
| EncoderExamples.AddImmediateExample | ASM_v2.py:229-251 | `ADD R1, R0, #3` is E2801003 |
| EncoderExamples.AddIncrementExample | ASM_v2.py:229-251 | `ADD R1, R1, #1` is E2811001 |
| EncoderExamples.DataProcImmediateLine | ASM_v2.py:229-251 | any line `op Rd, Rn, #imm` of a plain data-processing mnemonic is the I = 1 layout |
| EncoderExamples.BranchLine | ASM_v2.py:288-296 | `B LOOP` is a branch with condition AL to LOOP |
| EncoderExamples.BranchExample | ASM_v2.py:288-296 | `B LOOP` at PC 3 with LOOP at PC 2 is EAFFFFFD, a branch back by three |
| EncoderExamples.ShiftAmountSpillsIntoRd | ASM_v2.py:218-227 | `LSL R0, R1, #32` and `LSL R1, R1, #0` give the same word, because the unmasked amount reaches the Rd field |
| TokenizerExample.BranchLineMatches | ASM_v2.py:104 | `B LOOP` matches as an identifier, a space and an identifier |
| TokenizerExample.LoopNotInTables | ASM_v2.py:90-95 | LOOP is no mnemonic in either variant |
| TokenizerExample.BranchLineTokens | ASM_v2.py:98-113 | `B LOOP` tokenizes to OP `B` and Pointer `LOOP` |
| DriverExamples.AsmV2NumbersFromFirstText | ASM_v2.py:323-324 | in ASM_v2, a program starting with a blank line numbers its first instruction as line 1 |
| DriverExamples.ScPythonNumbersRawLines | scpython.py:250 | in scpython the same instruction is line 2 |
| ProgramExample.LoopPass1 | ASM_v2.py:328-349 | for the four-line LOOP program, pass 1 binds LOOP to PC 2 and gives the four lines PCs 0 to 3 |
| ProgramExample.LoopProgramWords | ASM_v2.py:351-369 | for the LOOP program, pass 2 gives E3A00005, E2801003, E2811001 and EAFFFFFD |
| ProgramExample.LoneLine | ASM_v2.py:328-369 | both passes over a single unlabelled line give that line's result |
| ProgramExample.StaleLabelResolves | ASM_v2.py:89 | `B LOOP` alone fails with a fresh table but assembles when an earlier call left LOOP bound |

## Left out

- Reading the program from a file, the command line and the `__main__` block are not modelled. The program text is a parameter.
- Printing the error and `sys.exit(1)` are modelled as the outcome `Aborted(Failure(error, line, text))`. The wording of the messages is not kept, only the kind of error.
- The `re` module is replaced by a hand-written scanner for the one token pattern, with ASCII identifier classes. Under IGNORECASE, Python's `[A-Za-z]` also matches a few non-ASCII letters such as the Kelvin sign and the long s. Identifiers using them are not modelled.
- Text.Upper: upper-cases ASCII letters only. Only lexed identifiers reach it, and those are ASCII.
- Values.RegVal: reads only plain decimal digits after the prefix. `int()` also accepts signs, underscores, spaces and non-ASCII digits, but the REG pattern never lets those through.
- Values.ImmVal: reads only the decimal and `0x` forms of `int(s, 0)`. The IMM pattern admits no other form, such as a sign, `0o`, `0b` or underscores.
- The compiled regex field of the object is not a field of the class. It is the constant scanner in `Lexer`.
- The opcode dictionaries and `valid_ops` are constants of `Tables`, since no method updates them.
- AssemblerClass.Assembler.AssembleProgram: its two loops are the methods LabelPass and EncodePass. The pass-2 loop body is AssembleLine.
- AssemblerClass.Assembler.LabelPass: written in ASM_v2's form for both variants. scpython drops the label and then tests whether tokens are left, which has the same effect.
- ProgramExample.LoopProgramWords: starts from the tokenized lines of the LOOP program rather than its source text. Tokenizing from text is shown for the line `B LOOP` (TokenizerExample.BranchLineTokens).
- `ram.py`, `abpython.py` and `ieee.py` (memory image output and floating-point helpers) are not part of this model.
- Python integers are unbounded, like the model's words. Every word is proved to fit 32 bits, so no truncation is modelled.
