/** The instruction word layouts, each with its fields read back by BitsAt. */
module Layout {
  import opened Bits

  /** Fields of a data-processing word, read back from the word itself. */
  predicate DpLayout(w: nat, cond: nat, i: nat, cmd: nat, s: nat, rn: nat, rd: nat, op2: nat)
  {
    BitsAt(w, 28, 4) == cond
    && BitsAt(w, 26, 2) == 0
    && BitsAt(w, 25, 1) == i
    && BitsAt(w, 21, 4) == cmd
    && BitsAt(w, 20, 1) == s
    && BitsAt(w, 16, 4) == rn
    && BitsAt(w, 12, 4) == rd
    && BitsAt(w, 0, 12) == op2
  }

  /** The data-processing word: cond, op 00, I, cmd, S, Rn, Rd and a 12-bit operand2. */
  function DpWord(cond: nat, i: nat, cmd: nat, s: nat, rn: nat, rd: nat, op2: nat): (w: nat)
    requires cond < 0x10 && i < 2 && cmd < 0x10 && s < 2 && rn < 0x10 && rd < 0x10 && op2 < 0x1000
    ensures w < 0x1_0000_0000
    ensures DpLayout(w, cond, i, cmd, s, rn, rd, op2)
  {
    var w := cond * 0x10000000 + i * 0x2000000 + cmd * 0x200000 + s * 0x100000 + rn * 0x10000 + rd * 0x1000 + op2;
    Pow2Values();
    FieldOf(w, 0, cond, 28, 4, i * 0x2000000 + cmd * 0x200000 + s * 0x100000 + rn * 0x10000 + rd * 0x1000 + op2);
    FieldOf(w, cond, 0, 26, 2, i * 0x2000000 + cmd * 0x200000 + s * 0x100000 + rn * 0x10000 + rd * 0x1000 + op2);
    FieldOf(w, cond * 4, i, 25, 1, cmd * 0x200000 + s * 0x100000 + rn * 0x10000 + rd * 0x1000 + op2);
    FieldOf(w, cond * 8 + i, cmd, 21, 4, s * 0x100000 + rn * 0x10000 + rd * 0x1000 + op2);
    FieldOf(w, cond * 0x80 + i * 0x10 + cmd, s, 20, 1, rn * 0x10000 + rd * 0x1000 + op2);
    FieldOf(w, cond * 0x100 + i * 0x20 + cmd * 2 + s, rn, 16, 4, rd * 0x1000 + op2);
    FieldOf(w, cond * 0x1000 + i * 0x200 + cmd * 0x20 + s * 0x10 + rn, rd, 12, 4, op2);
    FieldOf(w, cond * 0x10000 + i * 0x2000 + cmd * 0x200 + s * 0x100 + rn * 0x10 + rd, op2, 0, 12, 0);
    w
  }

  /** Fields of a memory word. */
  predicate MemLayout(w: nat, cond: nat, i: nat, b: nat, l: nat, rn: nat, rd: nat, op2: nat)
  {
    BitsAt(w, 28, 4) == cond
    && BitsAt(w, 26, 2) == 1
    && BitsAt(w, 25, 1) == i
    && BitsAt(w, 24, 1) == 1
    && BitsAt(w, 23, 1) == 1
    && BitsAt(w, 22, 1) == b
    && BitsAt(w, 21, 1) == 0
    && BitsAt(w, 20, 1) == l
    && BitsAt(w, 16, 4) == rn
    && BitsAt(w, 12, 4) == rd
    && BitsAt(w, 0, 12) == op2
  }

  /** The memory word: cond, op 01, I, P=1, U=1, B, W=0, L, Rn, Rd and a 12-bit operand2. */
  function MemWord(cond: nat, i: nat, b: nat, l: nat, rn: nat, rd: nat, op2: nat): (w: nat)
    requires cond < 0x10 && i < 2 && b < 2 && l < 2 && rn < 0x10 && rd < 0x10 && op2 < 0x1000
    ensures w < 0x1_0000_0000
    ensures MemLayout(w, cond, i, b, l, rn, rd, op2)
  {
    var w := cond * 0x10000000 + 0x4000000 + i * 0x2000000 + 0x1000000 + 0x800000 + b * 0x400000 + l * 0x100000 + rn * 0x10000 + rd * 0x1000 + op2;
    Pow2Values();
    FieldOf(w, 0, cond, 28, 4, 0x4000000 + i * 0x2000000 + 0x1000000 + 0x800000 + b * 0x400000 + l * 0x100000 + rn * 0x10000 + rd * 0x1000 + op2);
    FieldOf(w, cond, 1, 26, 2, i * 0x2000000 + 0x1000000 + 0x800000 + b * 0x400000 + l * 0x100000 + rn * 0x10000 + rd * 0x1000 + op2);
    FieldOf(w, cond * 4 + 1, i, 25, 1, 0x1000000 + 0x800000 + b * 0x400000 + l * 0x100000 + rn * 0x10000 + rd * 0x1000 + op2);
    FieldOf(w, cond * 8 + 2 + i, 1, 24, 1, 0x800000 + b * 0x400000 + l * 0x100000 + rn * 0x10000 + rd * 0x1000 + op2);
    FieldOf(w, cond * 0x10 + 4 + i * 2 + 1, 1, 23, 1, b * 0x400000 + l * 0x100000 + rn * 0x10000 + rd * 0x1000 + op2);
    FieldOf(w, cond * 0x20 + 8 + i * 4 + 2 + 1, b, 22, 1, l * 0x100000 + rn * 0x10000 + rd * 0x1000 + op2);
    FieldOf(w, cond * 0x40 + 0x10 + i * 8 + 4 + 2 + b, 0, 21, 1, l * 0x100000 + rn * 0x10000 + rd * 0x1000 + op2);
    FieldOf(w, cond * 0x80 + 0x20 + i * 0x10 + 8 + 4 + b * 2, l, 20, 1, rn * 0x10000 + rd * 0x1000 + op2);
    FieldOf(w, cond * 0x100 + 0x40 + i * 0x20 + 0x10 + 8 + b * 4 + l, rn, 16, 4, rd * 0x1000 + op2);
    FieldOf(w, cond * 0x1000 + 0x400 + i * 0x200 + 0x100 + 0x80 + b * 0x40 + l * 0x10 + rn, rd, 12, 4, op2);
    FieldOf(w, cond * 0x10000 + 0x4000 + i * 0x2000 + 0x1000 + 0x800 + b * 0x400 + l * 0x100 + rn * 0x10 + rd, op2, 0, 12, 0);
    w
  }

  /** Fields of a branch word. */
  predicate BranchLayout(w: nat, cond: nat, offset: nat)
  {
    BitsAt(w, 28, 4) == cond
    && BitsAt(w, 25, 3) == 5
    && BitsAt(w, 24, 1) == 0
    && BitsAt(w, 0, 24) == offset
  }

  /** The branch word: cond, the fixed bits 101, a clear bit 24 and a 24-bit offset. */
  function BranchWord(cond: nat, offset: nat): (w: nat)
    requires cond < 0x10 && offset < 0x1000000
    ensures w < 0x1_0000_0000
    ensures BranchLayout(w, cond, offset)
  {
    var w := cond * 0x10000000 + 0xa000000 + offset;
    Pow2Values();
    FieldOf(w, 0, cond, 28, 4, 0xa000000 + offset);
    FieldOf(w, cond, 5, 25, 3, offset);
    FieldOf(w, cond * 8 + 5, 0, 24, 1, offset);
    FieldOf(w, cond * 0x10 + 10, offset, 0, 24, 0);
    w
  }

  /** Fields of a special-instruction word. */
  predicate SpecialLayout(w: nat, cond: nat, code: nat, r0: nat, r1: nat, r2: nat, r3: nat)
  {
    BitsAt(w, 28, 4) == cond
    && BitsAt(w, 26, 2) == 3
    && BitsAt(w, 20, 6) == code
    && BitsAt(w, 16, 4) == r0
    && BitsAt(w, 12, 4) == r1
    && BitsAt(w, 8, 4) == r2
    && BitsAt(w, 4, 4) == r3
    && BitsAt(w, 0, 4) == 0
  }

  /** The special-instruction word: cond, op 11, a 6-bit code and four registers from bit 19 down to bit 4. */
  function SpecialWord(cond: nat, code: nat, r0: nat, r1: nat, r2: nat, r3: nat): (w: nat)
    requires cond < 0x10 && code < 0x40 && r0 < 0x10 && r1 < 0x10 && r2 < 0x10 && r3 < 0x10
    ensures w < 0x1_0000_0000
    ensures SpecialLayout(w, cond, code, r0, r1, r2, r3)
  {
    var w := cond * 0x10000000 + 0xc000000 + code * 0x100000 + r0 * 0x10000 + r1 * 0x1000 + r2 * 0x100 + r3 * 0x10;
    Pow2Values();
    FieldOf(w, 0, cond, 28, 4, 0xc000000 + code * 0x100000 + r0 * 0x10000 + r1 * 0x1000 + r2 * 0x100 + r3 * 0x10);
    FieldOf(w, cond, 3, 26, 2, code * 0x100000 + r0 * 0x10000 + r1 * 0x1000 + r2 * 0x100 + r3 * 0x10);
    FieldOf(w, cond * 4 + 3, code, 20, 6, r0 * 0x10000 + r1 * 0x1000 + r2 * 0x100 + r3 * 0x10);
    FieldOf(w, cond * 0x100 + 0xc0 + code, r0, 16, 4, r1 * 0x1000 + r2 * 0x100 + r3 * 0x10);
    FieldOf(w, cond * 0x1000 + 0xc00 + code * 0x10 + r0, r1, 12, 4, r2 * 0x100 + r3 * 0x10);
    FieldOf(w, cond * 0x10000 + 0xc000 + code * 0x100 + r0 * 0x10 + r1, r2, 8, 4, r3 * 0x10);
    FieldOf(w, cond * 0x100000 + 0xc0000 + code * 0x1000 + r0 * 0x100 + r1 * 0x10 + r2, r3, 4, 4, 0);
    FieldOf(w, cond * 0x1000000 + 0xc00000 + code * 0x10000 + r0 * 0x1000 + r1 * 0x100 + r2 * 0x10 + r3, 0, 0, 4, 0);
    w
  }

  /** Fields of a multiply-long word. */
  predicate MulLongLayout(w: nat, cond: nat, cmd: nat, s: nat, rd: nat, ra: nat, rm: nat, rn: nat)
  {
    BitsAt(w, 28, 4) == cond
    && BitsAt(w, 24, 4) == 0
    && BitsAt(w, 21, 3) == cmd
    && BitsAt(w, 20, 1) == s
    && BitsAt(w, 16, 4) == rd
    && BitsAt(w, 12, 4) == ra
    && BitsAt(w, 8, 4) == rm
    && BitsAt(w, 4, 4) == 9
    && BitsAt(w, 0, 4) == rn
  }

  /** The multiply-long word: cond, zeros, a 3-bit cmd, S, Rd, Ra, Rm, the pattern 1001 and Rn. */
  function MulLongWord(cond: nat, cmd: nat, s: nat, rd: nat, ra: nat, rm: nat, rn: nat): (w: nat)
    requires cond < 0x10 && cmd < 8 && s < 2 && rd < 0x10 && ra < 0x10 && rm < 0x10 && rn < 0x10
    ensures w < 0x1_0000_0000
    ensures MulLongLayout(w, cond, cmd, s, rd, ra, rm, rn)
  {
    var w := cond * 0x10000000 + cmd * 0x200000 + s * 0x100000 + rd * 0x10000 + ra * 0x1000 + rm * 0x100 + 0x90 + rn;
    Pow2Values();
    FieldOf(w, 0, cond, 28, 4, cmd * 0x200000 + s * 0x100000 + rd * 0x10000 + ra * 0x1000 + rm * 0x100 + 0x90 + rn);
    FieldOf(w, cond, 0, 24, 4, cmd * 0x200000 + s * 0x100000 + rd * 0x10000 + ra * 0x1000 + rm * 0x100 + 0x90 + rn);
    FieldOf(w, cond * 0x10, cmd, 21, 3, s * 0x100000 + rd * 0x10000 + ra * 0x1000 + rm * 0x100 + 0x90 + rn);
    FieldOf(w, cond * 0x80 + cmd, s, 20, 1, rd * 0x10000 + ra * 0x1000 + rm * 0x100 + 0x90 + rn);
    FieldOf(w, cond * 0x100 + cmd * 2 + s, rd, 16, 4, ra * 0x1000 + rm * 0x100 + 0x90 + rn);
    FieldOf(w, cond * 0x1000 + cmd * 0x20 + s * 0x10 + rd, ra, 12, 4, rm * 0x100 + 0x90 + rn);
    FieldOf(w, cond * 0x10000 + cmd * 0x200 + s * 0x100 + rd * 0x10 + ra, rm, 8, 4, 0x90 + rn);
    FieldOf(w, cond * 0x100000 + cmd * 0x2000 + s * 0x1000 + rd * 0x100 + ra * 0x10 + rm, 9, 4, 4, rn);
    FieldOf(w, cond * 0x1000000 + cmd * 0x20000 + s * 0x10000 + rd * 0x1000 + ra * 0x100 + rm * 0x10 + 9, rn, 0, 4, 0);
    w
  }

  /** Fields of a shifter operand; the amount field is as wide as the largest immediate. */
  predicate ShiftOperandLayout(w: nat, amount: nat, kind: nat, rm: nat)
  {
    BitsAt(w, 7, 12) == amount
    && BitsAt(w, 5, 2) == kind
    && BitsAt(w, 4, 1) == 0
    && BitsAt(w, 0, 4) == rm
  }

  /** The shifter operand: the shift amount from bit 7 up, the shift type at bits 6:5 and Rm. */
  function ShiftOperandWord(amount: nat, kind: nat, rm: nat): (w: nat)
    requires amount < 0x1000 && kind < 4 && rm < 0x10
    ensures w < 0x8_0000
    ensures ShiftOperandLayout(w, amount, kind, rm)
  {
    var w := amount * 0x80 + kind * 0x20 + rm;
    Pow2Values();
    FieldOf(w, 0, amount, 7, 12, kind * 0x20 + rm);
    FieldOf(w, amount, kind, 5, 2, rm);
    FieldOf(w, amount * 4 + kind, 0, 4, 1, rm);
    FieldOf(w, amount * 8 + kind * 2, rm, 0, 4, 0);
    w
  }

  /** Fields of a shift word with a 5-bit amount: Rn is 0 and operand2 splits into amount, type and Rm. */
  predicate NarrowShiftLayout(w: nat, cond: nat, cmd: nat, s: nat, rd: nat, amount: nat, kind: nat, rm: nat)
  {
    BitsAt(w, 28, 4) == cond
    && BitsAt(w, 26, 2) == 0
    && BitsAt(w, 25, 1) == 0
    && BitsAt(w, 21, 4) == cmd
    && BitsAt(w, 20, 1) == s
    && BitsAt(w, 16, 4) == 0
    && BitsAt(w, 12, 4) == rd
    && BitsAt(w, 7, 5) == amount
    && BitsAt(w, 5, 2) == kind
    && BitsAt(w, 4, 1) == 0
    && BitsAt(w, 0, 4) == rm
  }

  /** A shift word whose amount fits its five ARM bits: every field lies in its own range. */
  function NarrowShiftWord(cond: nat, cmd: nat, s: nat, rd: nat, amount: nat, kind: nat, rm: nat): (w: nat)
    requires cond < 0x10 && cmd < 0x10 && s < 2 && rd < 0x10 && amount < 0x20 && kind < 4 && rm < 0x10
    ensures w < 0x1_0000_0000
    ensures NarrowShiftLayout(w, cond, cmd, s, rd, amount, kind, rm)
  {
    var w := cond * 0x10000000 + cmd * 0x200000 + s * 0x100000 + rd * 0x1000 + amount * 0x80 + kind * 0x20 + rm;
    Pow2Values();
    FieldOf(w, 0, cond, 28, 4, cmd * 0x200000 + s * 0x100000 + rd * 0x1000 + amount * 0x80 + kind * 0x20 + rm);
    FieldOf(w, cond, 0, 26, 2, cmd * 0x200000 + s * 0x100000 + rd * 0x1000 + amount * 0x80 + kind * 0x20 + rm);
    FieldOf(w, cond * 4, 0, 25, 1, cmd * 0x200000 + s * 0x100000 + rd * 0x1000 + amount * 0x80 + kind * 0x20 + rm);
    FieldOf(w, cond * 8, cmd, 21, 4, s * 0x100000 + rd * 0x1000 + amount * 0x80 + kind * 0x20 + rm);
    FieldOf(w, cond * 0x80 + cmd, s, 20, 1, rd * 0x1000 + amount * 0x80 + kind * 0x20 + rm);
    FieldOf(w, cond * 0x100 + cmd * 2 + s, 0, 16, 4, rd * 0x1000 + amount * 0x80 + kind * 0x20 + rm);
    FieldOf(w, cond * 0x1000 + cmd * 0x20 + s * 0x10, rd, 12, 4, amount * 0x80 + kind * 0x20 + rm);
    FieldOf(w, cond * 0x10000 + cmd * 0x200 + s * 0x100 + rd, amount, 7, 5, kind * 0x20 + rm);
    FieldOf(w, cond * 0x200000 + cmd * 0x4000 + s * 0x2000 + rd * 0x20 + amount, kind, 5, 2, rm);
    FieldOf(w, cond * 0x800000 + cmd * 0x10000 + s * 0x8000 + rd * 0x80 + amount * 4 + kind, 0, 4, 1, rm);
    FieldOf(w, cond * 0x1000000 + cmd * 0x20000 + s * 0x10000 + rd * 0x100 + amount * 8 + kind * 2, rm, 0, 4, 0);
    w
  }

  /** Fields of a shift word above bit 20, and its low 20 bits as one field. */
  predicate ShiftFrameLayout(w: nat, cond: nat, cmd: nat, s: nat, low: nat)
  {
    BitsAt(w, 28, 4) == cond
    && BitsAt(w, 26, 2) == 0
    && BitsAt(w, 25, 1) == 0
    && BitsAt(w, 21, 4) == cmd
    && BitsAt(w, 20, 1) == s
    && BitsAt(w, 0, 20) == low
  }

  /** A data-processing word with I=0 and Rn=0 around a 20-bit low part holding Rn, Rd and operand2. */
  function ShiftFrameWord(cond: nat, cmd: nat, s: nat, low: nat): (w: nat)
    requires cond < 0x10 && cmd < 0x10 && s < 2 && low < 0x100000
    ensures w < 0x1_0000_0000
    ensures ShiftFrameLayout(w, cond, cmd, s, low)
  {
    var w := cond * 0x10000000 + cmd * 0x200000 + s * 0x100000 + low;
    Pow2Values();
    FieldOf(w, 0, cond, 28, 4, cmd * 0x200000 + s * 0x100000 + low);
    FieldOf(w, cond, 0, 26, 2, cmd * 0x200000 + s * 0x100000 + low);
    FieldOf(w, cond * 4, 0, 25, 1, cmd * 0x200000 + s * 0x100000 + low);
    FieldOf(w, cond * 8, cmd, 21, 4, s * 0x100000 + low);
    FieldOf(w, cond * 0x80 + cmd, s, 20, 1, low);
    FieldOf(w, cond * 0x100 + cmd * 2 + s, low, 0, 20, 0);
    w
  }

  /** LSL/LSR as the source builds them: the shifter operand is ORed over `Rd << 12`, so an
      amount of 32 or more reaches into the Rd and Rn fields instead of being rejected. */
  function ShiftWord(cond: nat, cmd: nat, s: nat, rd: nat, amount: nat, kind: nat, rm: nat): (w: nat)
    requires cond < 0x10 && cmd < 0x10 && s < 2 && rd < 0x10 && amount < 0x1000 && kind < 4 && rm < 0x10
    ensures w < 0x1_0000_0000
    ensures ShiftFrameLayout(w, cond, cmd, s, BitOr(rd * 0x1000, ShiftOperandWord(amount, kind, rm)))
    ensures amount < 32 ==> NarrowShiftLayout(w, cond, cmd, s, rd, amount, kind, rm)
  {
    var op := ShiftOperandWord(amount, kind, rm);
    Pow2Values();
    BitOrBound(rd * 0x1000, op, 20);
    var w := ShiftFrameWord(cond, cmd, s, BitOr(rd * 0x1000, op));
    assert amount < 32 ==> w == NarrowShiftWord(cond, cmd, s, rd, amount, kind, rm) by {
      if amount < 32 {
        DisjointOr(rd, op, 12);
      }
    }
    w
  }
}
