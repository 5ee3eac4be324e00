/**
 * The machine's fixed numbering: register indices, memory size and the
 * opcode mnemonics. The numeric opcode of each mnemonic comes from a
 * constants module that is not part of this model, so it is a parameter
 * (`OpcodeTable`) constrained only by what the toolchain relies on.
 */
module Constants {
  import opened Outcomes


  // Register indices, in the order the machine displays them.
  const A: nat := 0
  const X: nat := 1
  const L: nat := 2
  const B: nat := 3
  const S: nat := 4
  const T: nat := 5
  const F: nat := 6
  const PC: nat := 8
  const SW: nat := 9

  /** Ten register slots; slot 7 has no name. */
  const REGISTER_COUNT: nat := 10

  /** Bytes of main memory. */
  const MEMORY_SIZE: nat := 32768

  /** Every mnemonic that names an instruction in the assembler's operation table. */
  datatype Opcode =
    | ADD | ADDR | AND | CLEAR | COMP | COMPR | DIV | DIVR | J | JEQ | JGT | JLT | JSUB
    | LDA | LDB | LDCH | LDL | LDS | LDT | LDX | MUL | MULR | OR | RMO | RSUB
    | SHIFTL | SHIFTR | STA | STB | STCH | STL | STS | STT | STX | SUB | SUBR | TIX | TIXR

  /** The register-to-register mnemonics: two-byte instructions with two register nibbles. */
  predicate IsFormat2(opcode: Opcode) {
    opcode in {ADDR, CLEAR, COMPR, DIVR, MULR, RMO, SHIFTL, SHIFTR, SUBR, TIXR}
  }

  /** The numeric value of each mnemonic. */
  type OpcodeTable = Opcode -> nat

  /**
   * What the toolchain needs of the opcode values: each fits in a byte with
   * its two low bits free for the addressing mode, distinct mnemonics have
   * distinct values, and ADD is 0x18 (the machine's tests execute 0x19 as
   * ADD immediate).
   */
  predicate ValidCodes(code: OpcodeTable) {
    && (forall op :: code(op) < 0x100 && code(op) % 4 == 0)
    && (forall p, q :: p != q ==> code(p) != code(q))
    && code(ADD) == 0x18
  }

  /** The opcode values of the SIC/XE architecture. */
  function StandardCode(op: Opcode): nat {
    match op
    case ADD => 0x18    case ADDR => 0x90   case AND => 0x40    case CLEAR => 0xB4
    case COMP => 0x28   case COMPR => 0xA0  case DIV => 0x24    case DIVR => 0x9C
    case J => 0x3C      case JEQ => 0x30    case JGT => 0x34    case JLT => 0x38
    case JSUB => 0x48   case LDA => 0x00    case LDB => 0x68    case LDCH => 0x50
    case LDL => 0x08    case LDS => 0x6C    case LDT => 0x74    case LDX => 0x04
    case MUL => 0x20    case MULR => 0x98   case OR => 0x44     case RMO => 0xAC
    case RSUB => 0x4C   case SHIFTL => 0xA4 case SHIFTR => 0xA8 case STA => 0x0C
    case STB => 0x78    case STCH => 0x54   case STL => 0x14    case STS => 0x7C
    case STT => 0x84    case STX => 0x10    case SUB => 0x1C    case SUBR => 0x94
    case TIX => 0x2C    case TIXR => 0xB8
  }

  /** The mnemonic of a SIC/XE opcode value. */
  function StandardMnemonic(n: nat): Option<Opcode>
  {
    if n == 0x18 then Some(ADD) else if n == 0x90 then Some(ADDR) else if n == 0x40 then Some(AND)
    else if n == 0xB4 then Some(CLEAR) else if n == 0x28 then Some(COMP) else if n == 0xA0 then Some(COMPR)
    else if n == 0x24 then Some(DIV) else if n == 0x9C then Some(DIVR) else if n == 0x3C then Some(J)
    else if n == 0x30 then Some(JEQ) else if n == 0x34 then Some(JGT) else if n == 0x38 then Some(JLT)
    else if n == 0x48 then Some(JSUB) else if n == 0x00 then Some(LDA) else if n == 0x68 then Some(LDB)
    else if n == 0x50 then Some(LDCH) else if n == 0x08 then Some(LDL) else if n == 0x6C then Some(LDS)
    else if n == 0x74 then Some(LDT) else if n == 0x04 then Some(LDX) else if n == 0x20 then Some(MUL)
    else if n == 0x98 then Some(MULR) else if n == 0x44 then Some(OR) else if n == 0xAC then Some(RMO)
    else if n == 0x4C then Some(RSUB) else if n == 0xA4 then Some(SHIFTL) else if n == 0xA8 then Some(SHIFTR)
    else if n == 0x0C then Some(STA) else if n == 0x78 then Some(STB) else if n == 0x54 then Some(STCH)
    else if n == 0x14 then Some(STL) else if n == 0x7C then Some(STS) else if n == 0x84 then Some(STT)
    else if n == 0x10 then Some(STX) else if n == 0x1C then Some(SUB) else if n == 0x94 then Some(SUBR)
    else if n == 0x2C then Some(TIX) else if n == 0xB8 then Some(TIXR) else None
  }

  /** The SIC/XE values meet every requirement, so `ValidCodes` can be met. */
  lemma {:induction false} StandardCodesValid()
    ensures ValidCodes(StandardCode)
  {
    forall p, q | p != q
      ensures StandardCode(p) != StandardCode(q)
    {
      StandardRoundTrip(p);
      StandardRoundTrip(q);
    }
  }

  /** `StandardMnemonic` inverts `StandardCode`. */
  lemma {:induction false} StandardRoundTrip(op: Opcode)
    ensures StandardMnemonic(StandardCode(op)) == Some(op)
  {
    if op in {ADD, ADDR, AND, CLEAR, COMP, COMPR, DIV, DIVR, J, JEQ, JGT, JLT, JSUB} {
      RoundTripFirst(op);
    } else if op in {LDA, LDB, LDCH, LDL, LDS, LDT, LDX, MUL, MULR, OR, RMO, RSUB} {
      RoundTripMiddle(op);
    } else {
      RoundTripLast(op);
    }
  }

  lemma {:induction false} RoundTripFirst(op: Opcode)
    requires op in {ADD, ADDR, AND, CLEAR, COMP, COMPR, DIV, DIVR, J, JEQ, JGT, JLT, JSUB}
    ensures StandardMnemonic(StandardCode(op)) == Some(op)
  {
  }

  lemma {:induction false} RoundTripMiddle(op: Opcode)
    requires op in {LDA, LDB, LDCH, LDL, LDS, LDT, LDX, MUL, MULR, OR, RMO, RSUB}
    ensures StandardMnemonic(StandardCode(op)) == Some(op)
  {
  }

  lemma {:induction false} RoundTripLast(op: Opcode)
    requires op in {SHIFTL, SHIFTR, STA, STB, STCH, STL, STS, STT, STX, SUB, SUBR, TIX, TIXR}
    ensures StandardMnemonic(StandardCode(op)) == Some(op)
  {
  }
}
