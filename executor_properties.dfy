/**
 * What one executor step does, stated against the bytes at PC rather than
 * against the bit reader: instruction decoding, the register-to-register
 * operations, the condition code, the operand of each addressing mode,
 * dispatch, PC advance and the error paths.
 */
module ExecutorProperties {
  import opened Outcomes
  import opened Bits
  import opened Constants
  import opened Executor

  // ----- Decoding the bytes at PC -----

  /** The opcode byte and the two register nibbles of a two-byte instruction at pc. */
  lemma {:induction false} DecodeFormat2(mem: seq<Byte>, pc: nat)
    requires pc + 1 < |mem|
    ensures Read(mem[pc..], 0, 8) == Some(mem[pc] as nat)
    ensures Read(mem[pc..], 8, 4) == Some(mem[pc + 1] as nat / 16)
    ensures Read(mem[pc..], 12, 4) == Some(mem[pc + 1] as nat % 16)
  {
    var code := mem[pc..];
    ReadBitsByte(code, 0);
    ReadBitsHighNibble(code, 1);
    ReadBitsLowNibble(code, 1);
  }

  /** The flag bits and the 15- or 12-bit field of a three-byte instruction at pc. */
  lemma {:induction false} DecodeFormat3(mem: seq<Byte>, pc: nat)
    requires pc + 2 < |mem|
    ensures Read(mem[pc..], 8, 1) == Some(mem[pc + 1] as nat / 128)
    ensures Read(mem[pc..], 9, 15) == Some(mem[pc + 1] as nat % 128 * 0x100 + mem[pc + 2] as nat)
    ensures Read(mem[pc..], 12, 12) == Some(mem[pc + 1] as nat % 16 * 0x100 + mem[pc + 2] as nat)
  {
    var code := mem[pc..];
    ReadBitsTopBit(code, 1);
    ReadBitsField15(code, 0);
    ReadBitsField12(code, 0);
  }

  /** The 20-bit field of a four-byte instruction at pc. */
  lemma {:induction false} DecodeFormat4(mem: seq<Byte>, pc: nat)
    requires pc + 3 < |mem|
    ensures Read(mem[pc..], 12, 20) ==
      Some(mem[pc + 1] as nat % 16 * 0x10000 + mem[pc + 2] as nat * 0x100 + mem[pc + 3] as nat)
  {
    ReadBitsField20(mem[pc..], 0);
  }

  // ----- Opcode selection -----

  lemma {:induction false} Distinct(codes: OpcodeTable, p: Opcode, q: Opcode)
    requires ValidCodes(codes) && p != q
    ensures codes(p) != codes(q)
  {
  }

  /** No other mnemonic shares the value of `opcode`. */
  lemma {:induction false} OthersDiffer(codes: OpcodeTable, opcode: Opcode)
    requires ValidCodes(codes)
    ensures forall o :: o != opcode ==> codes(o) != codes(opcode)
  {
  }

  /** What each format-2 mnemonic does, as the arms of the step's dispatch name it. */
  function Format2Effect(opcode: Opcode, regs: seq<nat>, code: seq<Byte>): Effect
    requires IsFormat2(opcode) && |regs| == REGISTER_COUNT
  {
    match opcode
    case ADDR => Binary(Sum, regs, code)
    case CLEAR => Clear(regs, code)
    case COMPR => Compare(regs, code)
    case DIVR => Binary(Quotient, regs, code)
    case MULR => Binary(Product, regs, code)
    case RMO => Move(regs, code)
    case SHIFTL => Shift(true, regs, code)
    case SHIFTR => Shift(false, regs, code)
    case SUBR => Binary(Difference, regs, code)
    case TIXR => TestIndex(regs, code)
  }

  /** With distinct opcode values, the byte of a format-2 mnemonic selects that mnemonic's arm. */
  lemma {:induction false} SelectsFormat2(codes: OpcodeTable, regs: seq<nat>, mem: seq<Byte>, code: seq<Byte>, opcode: Opcode)
    requires |regs| == REGISTER_COUNT && IsFormat2(opcode)
    requires forall o :: o != opcode ==> codes(o) != codes(opcode)
    ensures Instruction(codes, regs, mem, code, codes(opcode)) == Format2Effect(opcode, regs, code)
  {
    if opcode == ADDR {
    } else if opcode == CLEAR {
      assert codes(ADDR) != codes(CLEAR);
    } else if opcode == COMPR {
      assert codes(ADDR) != codes(COMPR) && codes(CLEAR) != codes(COMPR);
    } else if opcode == DIVR {
      assert codes(ADDR) != codes(DIVR) && codes(CLEAR) != codes(DIVR) && codes(COMPR) != codes(DIVR);
    } else if opcode == MULR {
      assert codes(ADDR) != codes(MULR) && codes(CLEAR) != codes(MULR) && codes(COMPR) != codes(MULR)
        && codes(DIVR) != codes(MULR);
    } else if opcode == RMO {
      assert codes(ADDR) != codes(RMO) && codes(CLEAR) != codes(RMO) && codes(COMPR) != codes(RMO)
        && codes(DIVR) != codes(RMO) && codes(MULR) != codes(RMO);
    } else if opcode == SHIFTL {
      assert codes(ADDR) != codes(SHIFTL) && codes(CLEAR) != codes(SHIFTL) && codes(COMPR) != codes(SHIFTL)
        && codes(DIVR) != codes(SHIFTL) && codes(MULR) != codes(SHIFTL) && codes(RMO) != codes(SHIFTL);
    } else if opcode == SHIFTR {
      assert codes(ADDR) != codes(SHIFTR) && codes(CLEAR) != codes(SHIFTR) && codes(COMPR) != codes(SHIFTR)
        && codes(DIVR) != codes(SHIFTR) && codes(MULR) != codes(SHIFTR) && codes(RMO) != codes(SHIFTR)
        && codes(SHIFTL) != codes(SHIFTR);
    } else if opcode == SUBR {
      assert codes(ADDR) != codes(SUBR) && codes(CLEAR) != codes(SUBR) && codes(COMPR) != codes(SUBR)
        && codes(DIVR) != codes(SUBR) && codes(MULR) != codes(SUBR) && codes(RMO) != codes(SUBR)
        && codes(SHIFTL) != codes(SUBR) && codes(SHIFTR) != codes(SUBR);
    } else {
      assert codes(ADDR) != codes(TIXR) && codes(CLEAR) != codes(TIXR) && codes(COMPR) != codes(TIXR)
        && codes(DIVR) != codes(TIXR) && codes(MULR) != codes(TIXR) && codes(RMO) != codes(TIXR)
        && codes(SHIFTL) != codes(TIXR) && codes(SHIFTR) != codes(TIXR) && codes(SUBR) != codes(TIXR);
    }
  }

  /** Any other byte goes to the format-3/4 decoder. */
  lemma {:induction false} SelectsFormat34(codes: OpcodeTable, regs: seq<nat>, mem: seq<Byte>, code: seq<Byte>, op: nat)
    requires |regs| == REGISTER_COUNT
    requires forall o :: IsFormat2(o) ==> codes(o) != op
    ensures Instruction(codes, regs, mem, code, op) == Format34(codes, regs, mem, code, op)
  {
  }

  /** A step whose opcode byte can be read runs the instruction it selects. */
  lemma {:induction false} ExecuteOf(codes: OpcodeTable, regs: seq<nat>, mem: seq<Byte>)
    requires |regs| == REGISTER_COUNT && regs[PC] < |mem|
    ensures
      Execute(codes, regs, mem) == Finish(Instruction(codes, regs, mem, mem[regs[PC]..], mem[regs[PC]] as nat))
  {
    var code := mem[regs[PC]..];
    ReadBitsByte(code, 0);
    assert Read(code, 0, 8) == Some(mem[regs[PC]] as nat);
  }

  // ----- Register-to-register instructions -----

  /** The two register nibbles of a format-2 instruction. */
  lemma {:induction false} Nibbles(code: seq<Byte>)
    requires |code| >= 2
    ensures Read(code, 8, 4) == Some(code[1] as nat / 16)
    ensures Read(code, 12, 4) == Some(code[1] as nat % 16)
  {
    ReadBitsHighNibble(code, 1);
    ReadBitsLowNibble(code, 1);
  }

  /** The operation each of ADDR, SUBR, MULR and DIVR performs. */
  function ArithOf(opcode: Opcode): Arith
    requires opcode in {ADDR, SUBR, MULR, DIVR}
  {
    match opcode
    case ADDR => Sum
    case SUBR => Difference
    case MULR => Product
    case DIVR => Quotient
  }

  // Each effect lemma states an arm of the dispatch at byte level; each step
  // lemma then joins it with the opcode selection and the PC advance.

  lemma {:induction false} BinaryEffect(kind: Arith, regs: seq<nat>, code: seq<Byte>)
    requires |regs| == REGISTER_COUNT && |code| >= 2
    ensures
      var s := code[1] as nat / 16;
      var d := code[1] as nat % 16;
      Binary(kind, regs, code) ==
        if s >= REGISTER_COUNT || d >= REGISTER_COUNT then Effect(Failure(RegisterNotFound), regs)
        else match Arithmetic(kind, regs[s], regs[d])
          case None => Effect(Failure(ArithmeticPanic), regs)
          case Some(v) => Effect(Success(2), SetReg(regs, d, v))
  {
    Nibbles(code);
  }

  lemma {:induction false} ClearEffect(regs: seq<nat>, code: seq<Byte>)
    requires |regs| == REGISTER_COUNT && |code| >= 2
    ensures Clear(regs, code) == Effect(Success(2), SetReg(regs, code[1] as nat / 16, 0))
  {
    Nibbles(code);
  }

  lemma {:induction false} CompareEffect(regs: seq<nat>, code: seq<Byte>)
    requires |regs| == REGISTER_COUNT && |code| >= 2
    ensures
      var s := code[1] as nat / 16;
      var d := code[1] as nat % 16;
      Compare(regs, code) ==
        if s >= REGISTER_COUNT || d >= REGISTER_COUNT then Effect(Failure(RegisterNotFound), regs)
        else Effect(Success(2), SetConditionCode(regs, regs[s], regs[d]))
  {
    Nibbles(code);
  }

  lemma {:induction false} MoveEffect(regs: seq<nat>, code: seq<Byte>)
    requires |regs| == REGISTER_COUNT && |code| >= 2
    ensures
      var s := code[1] as nat / 16;
      var d := code[1] as nat % 16;
      Move(regs, code) ==
        if s >= REGISTER_COUNT then Effect(Failure(RegisterNotFound), regs)
        else Effect(Success(2), SetReg(regs, d, regs[s]))
  {
    Nibbles(code);
  }

  lemma {:induction false} ShiftEffect(left: bool, regs: seq<nat>, code: seq<Byte>)
    requires |regs| == REGISTER_COUNT && |code| >= 2
    ensures
      var d := code[1] as nat / 16;
      var n := code[1] as nat % 16;
      Shift(left, regs, code) ==
        if d >= REGISTER_COUNT then Effect(Failure(RegisterNotFound), regs)
        else Effect(Success(2), SetReg(regs, d, if left then Shl64(regs[d], n) else Shr(regs[d], n)))
  {
    Nibbles(code);
  }

  lemma {:induction false} TestIndexEffect(regs: seq<nat>, code: seq<Byte>)
    requires |regs| == REGISTER_COUNT && |code| >= 2
    ensures
      var n := code[1] as nat / 16;
      var incremented := SetReg(regs, X, regs[X] + 1);
      TestIndex(regs, code) ==
        if n >= REGISTER_COUNT then Effect(Failure(RegisterNotFound), incremented)
        else Effect(Success(2), SetConditionCode(incremented, regs[X], incremented[n]))
  {
    Nibbles(code);
  }

  /** A format-2 opcode byte at PC runs that mnemonic's arm, then the PC advance. */
  lemma {:induction false} Format2Step(codes: OpcodeTable, regs: seq<nat>, mem: seq<Byte>, opcode: Opcode)
    requires ValidCodes(codes) && |regs| == REGISTER_COUNT && IsFormat2(opcode)
    requires regs[PC] < |mem| && mem[regs[PC]] == codes(opcode)
    ensures Execute(codes, regs, mem) == Finish(Format2Effect(opcode, regs, mem[regs[PC]..]))
  {
    ExecuteOf(codes, regs, mem);
    OthersDiffer(codes, opcode);
    SelectsFormat2(codes, regs, mem, mem[regs[PC]..], opcode);
  }

  lemma {:induction false} BinaryArm(opcode: Opcode, regs: seq<nat>, code: seq<Byte>)
    requires |regs| == REGISTER_COUNT && opcode in {ADDR, SUBR, MULR, DIVR}
    ensures Format2Effect(opcode, regs, code) == Binary(ArithOf(opcode), regs, code)
  {
  }

  /**
   * ADDR, SUBR, MULR, DIVR: the register named by the second nibble receives
   * (first op second), reduced to its width; a nibble of 10 or more is an
   * error, and so is a Rust panic; PC then advances by 2.
   */
  lemma {:induction false} BinaryStep(codes: OpcodeTable, regs: seq<nat>, mem: seq<Byte>, opcode: Opcode)
    requires ValidCodes(codes) && |regs| == REGISTER_COUNT
    requires opcode in {ADDR, SUBR, MULR, DIVR}
    requires regs[PC] + 1 < |mem| && mem[regs[PC]] == codes(opcode)
    ensures
      var s := mem[regs[PC] + 1] as nat / 16;
      var d := mem[regs[PC] + 1] as nat % 16;
      Execute(codes, regs, mem) ==
        if s >= REGISTER_COUNT || d >= REGISTER_COUNT then Step(Fail(RegisterNotFound), regs)
        else match Arithmetic(ArithOf(opcode), regs[s], regs[d])
          case None => Step(Fail(ArithmeticPanic), regs)
          case Some(v) => var r := SetReg(regs, d, v); Step(Pass, SetReg(r, PC, r[PC] + 2))
  {
    var code := mem[regs[PC]..];
    assert code[1] == mem[regs[PC] + 1];
    Format2Step(codes, regs, mem, opcode);
    BinaryArm(opcode, regs, code);
    BinaryFinish(ArithOf(opcode), regs, code);
  }

  lemma {:induction false} BinaryFinish(kind: Arith, regs: seq<nat>, code: seq<Byte>)
    requires |regs| == REGISTER_COUNT && |code| >= 2
    ensures
      var s := code[1] as nat / 16;
      var d := code[1] as nat % 16;
      Finish(Binary(kind, regs, code)) ==
        if s >= REGISTER_COUNT || d >= REGISTER_COUNT then Step(Fail(RegisterNotFound), regs)
        else match Arithmetic(kind, regs[s], regs[d])
          case None => Step(Fail(ArithmeticPanic), regs)
          case Some(v) => var r := SetReg(regs, d, v); Step(Pass, SetReg(r, PC, r[PC] + 2))
  {
    BinaryEffect(kind, regs, code);
  }

  /** CLEAR zeroes the register named by the first nibble (a nibble of 10 or more changes nothing). */
  lemma {:induction false} ClearStep(codes: OpcodeTable, regs: seq<nat>, mem: seq<Byte>)
    requires ValidCodes(codes) && |regs| == REGISTER_COUNT
    requires regs[PC] + 1 < |mem| && mem[regs[PC]] == codes(CLEAR)
    ensures
      var n := mem[regs[PC] + 1] as nat / 16;
      var r := SetReg(regs, n, 0);
      Execute(codes, regs, mem) == Step(Pass, SetReg(r, PC, r[PC] + 2))
  {
    Format2Step(codes, regs, mem, CLEAR);
    ClearEffect(regs, mem[regs[PC]..]);
  }

  /** RMO copies the register named by the first nibble into the one named by the second. */
  lemma {:induction false} MoveStep(codes: OpcodeTable, regs: seq<nat>, mem: seq<Byte>)
    requires ValidCodes(codes) && |regs| == REGISTER_COUNT
    requires regs[PC] + 1 < |mem| && mem[regs[PC]] == codes(RMO)
    ensures
      var s := mem[regs[PC] + 1] as nat / 16;
      var d := mem[regs[PC] + 1] as nat % 16;
      Execute(codes, regs, mem) ==
        if s >= REGISTER_COUNT then Step(Fail(RegisterNotFound), regs)
        else var r := SetReg(regs, d, regs[s]); Step(Pass, SetReg(r, PC, r[PC] + 2))
  {
    Format2Step(codes, regs, mem, RMO);
    MoveEffect(regs, mem[regs[PC]..]);
  }

  /**
   * SHIFTL and SHIFTR shift the register named by the first nibble by the
   * count in the second.
   */
  lemma {:induction false} ShiftStep(codes: OpcodeTable, regs: seq<nat>, mem: seq<Byte>, left: bool)
    requires ValidCodes(codes) && |regs| == REGISTER_COUNT
    requires regs[PC] + 1 < |mem| && mem[regs[PC]] == codes(if left then SHIFTL else SHIFTR)
    ensures
      var d := mem[regs[PC] + 1] as nat / 16;
      var n := mem[regs[PC] + 1] as nat % 16;
      Execute(codes, regs, mem) ==
        if d >= REGISTER_COUNT then Step(Fail(RegisterNotFound), regs)
        else
          var r := SetReg(regs, d, if left then Shl64(regs[d], n) else Shr(regs[d], n));
          Step(Pass, SetReg(r, PC, r[PC] + 2))
  {
    ShiftSelected(codes, regs, mem, left);
    ShiftEffect(left, regs, mem[regs[PC]..]);
  }

  lemma {:induction false} ShiftSelected(codes: OpcodeTable, regs: seq<nat>, mem: seq<Byte>, left: bool)
    requires ValidCodes(codes) && |regs| == REGISTER_COUNT
    requires regs[PC] + 1 < |mem| && mem[regs[PC]] == codes(if left then SHIFTL else SHIFTR)
    ensures Execute(codes, regs, mem) == Finish(Shift(left, regs, mem[regs[PC]..]))
  {
    Format2Step(codes, regs, mem, if left then SHIFTL else SHIFTR);
    ShiftArm(left, regs, mem[regs[PC]..]);
  }

  lemma {:induction false} ShiftArm(left: bool, regs: seq<nat>, code: seq<Byte>)
    requires |regs| == REGISTER_COUNT
    ensures Format2Effect(if left then SHIFTL else SHIFTR, regs, code) == Shift(left, regs, code)
  {
  }

  /** COMPR compares the registers named by the two nibbles and sets the condition code. */
  lemma {:induction false} CompareStep(codes: OpcodeTable, regs: seq<nat>, mem: seq<Byte>)
    requires ValidCodes(codes) && |regs| == REGISTER_COUNT
    requires regs[PC] + 1 < |mem| && mem[regs[PC]] == codes(COMPR)
    ensures
      var s := mem[regs[PC] + 1] as nat / 16;
      var d := mem[regs[PC] + 1] as nat % 16;
      Execute(codes, regs, mem) ==
        if s >= REGISTER_COUNT || d >= REGISTER_COUNT then Step(Fail(RegisterNotFound), regs)
        else var r := SetConditionCode(regs, regs[s], regs[d]); Step(Pass, SetReg(r, PC, r[PC] + 2))
  {
    Format2Step(codes, regs, mem, COMPR);
    CompareEffect(regs, mem[regs[PC]..]);
  }

  /**
   * TIXR increments X first, even when the register nibble is bad, then
   * compares the old X with the register named by the first nibble, read
   * after the increment.
   */
  lemma {:induction false} TestIndexStep(codes: OpcodeTable, regs: seq<nat>, mem: seq<Byte>)
    requires ValidCodes(codes) && |regs| == REGISTER_COUNT
    requires regs[PC] + 1 < |mem| && mem[regs[PC]] == codes(TIXR)
    ensures
      var n := mem[regs[PC] + 1] as nat / 16;
      var incremented := SetReg(regs, X, regs[X] + 1);
      Execute(codes, regs, mem) ==
        if n >= REGISTER_COUNT then Step(Fail(RegisterNotFound), incremented)
        else
          var r := SetConditionCode(incremented, regs[X], incremented[n]);
          Step(Pass, SetReg(r, PC, r[PC] + 2))
  {
    var code := mem[regs[PC]..];
    assert code[1] == mem[regs[PC] + 1];
    Format2Step(codes, regs, mem, TIXR);
    if code[1] as nat / 16 >= REGISTER_COUNT {
      TestIndexMissing(regs, code);
    } else {
      TestIndexFound(regs, code);
    }
  }

  lemma {:induction false} TestIndexMissing(regs: seq<nat>, code: seq<Byte>)
    requires |regs| == REGISTER_COUNT && |code| >= 2 && code[1] as nat / 16 >= REGISTER_COUNT
    ensures Finish(Format2Effect(TIXR, regs, code)) == Step(Fail(RegisterNotFound), SetReg(regs, X, regs[X] + 1))
  {
    TestIndexEffect(regs, code);
  }

  lemma {:induction false} TestIndexFound(regs: seq<nat>, code: seq<Byte>)
    requires |regs| == REGISTER_COUNT && |code| >= 2 && code[1] as nat / 16 < REGISTER_COUNT
    ensures
      var incremented := SetReg(regs, X, regs[X] + 1);
      var r := SetConditionCode(incremented, regs[X], incremented[code[1] as nat / 16]);
      Finish(Format2Effect(TIXR, regs, code)) == Step(Pass, SetReg(r, PC, r[PC] + 2))
  {
    Nibbles(code);
    var n := code[1] as nat / 16;
    var incremented := SetReg(regs, X, regs[X] + 1);
    assert RegisterOperand(incremented, code, 8) == Success((n, incremented[n]));
    var r := SetConditionCode(incremented, regs[X], incremented[n]);
    assert Format2Effect(TIXR, regs, code) == Effect(Success(2), r);
  }

  // ----- The condition code -----

  /**
   * The condition code: bits 16 and 15 of SW, the pair that JEQ and JGT
   * test with the mask 0x018000. 0 is "equal", 2 "greater", 3 "less".
   */
  function ConditionCode(sw: nat): (r: nat)
    ensures r < 4
  {
    2 * BitAt(sw, 16) + BitAt(sw, 15)
  }

  /** JEQ's test holds iff the condition code is 0, and JGT's iff it is 2. */
  lemma {:induction false} JumpTests(sw: nat)
    ensures BitAnd(sw, 0x018000) == 0 <==> ConditionCode(sw) == 0
    ensures BitAnd(sw, 0x018000) == 0x010000 <==> ConditionCode(sw) == 2
  {
    Pow2Values();
    AndPow2Pair(sw, 15);
  }

  /**
   * The status word after COMPR or TIXR compares a with b. "Greater" sets
   * bit 16, "less" sets bits 15 and 16, "equal" clears bits 16 and 17;
   * every other bit of SW and every other register is kept. Bit 15 is never
   * cleared, so a "less" result leaves it set for later comparisons.
   */
  lemma {:induction false} ConditionCodeAfter(regs: seq<nat>, a: nat, b: nat)
    requires Reduced(regs)
    ensures Reduced(SetConditionCode(regs, a, b))
    ensures forall i :: 0 <= i < REGISTER_COUNT && i != SW ==> SetConditionCode(regs, a, b)[i] == regs[i]
    ensures a > b ==>
      && SetConditionCode(regs, a, b)[SW] == regs[SW] + (if BitAt(regs[SW], 16) == 1 then 0 else 0x10000)
      && ConditionCode(SetConditionCode(regs, a, b)[SW]) == 2 + BitAt(regs[SW], 15)
    ensures a < b ==>
      && SetConditionCode(regs, a, b)[SW] ==
           regs[SW] + (if BitAt(regs[SW], 15) == 1 then 0 else 0x8000) + (if BitAt(regs[SW], 16) == 1 then 0 else 0x10000)
      && ConditionCode(SetConditionCode(regs, a, b)[SW]) == 3
    ensures a == b ==>
      && SetConditionCode(regs, a, b)[SW] ==
           regs[SW] as int - (if BitAt(regs[SW], 16) == 1 then 0x10000 else 0) - (if BitAt(regs[SW], 17) == 1 then 0x20000 else 0)
      && ConditionCode(SetConditionCode(regs, a, b)[SW]) == BitAt(regs[SW], 15)
  {
    if a > b {
      AfterGreater(regs, a, b);
      GreaterWord(regs[SW]);
    } else if a < b {
      AfterLess(regs, a, b);
      LessWord(regs[SW]);
    } else {
      AfterEqual(regs, a, b);
      EqualWord(regs[SW]);
    }
  }

  lemma {:induction false} AfterGreater(regs: seq<nat>, a: nat, b: nat)
    requires Reduced(regs) && a > b
    ensures Reduced(SetConditionCode(regs, a, b))
    ensures forall i :: 0 <= i < REGISTER_COUNT && i != SW ==> SetConditionCode(regs, a, b)[i] == regs[i]
    ensures SetConditionCode(regs, a, b)[SW] == BitOr(regs[SW], 0x010000)
  {
    var sw := regs[SW];
    var w := BitOr(sw, 0x010000);
    Pow2Values();
    OrBelow(sw, 0x010000, 24);
    assert SetConditionCode(regs, a, b) == SetReg(SetReg(regs, SW, BitAnd(sw, 0xFDFFFF)), SW, w);
  }

  lemma {:induction false} AfterLess(regs: seq<nat>, a: nat, b: nat)
    requires Reduced(regs) && a < b
    ensures Reduced(SetConditionCode(regs, a, b))
    ensures forall i :: 0 <= i < REGISTER_COUNT && i != SW ==> SetConditionCode(regs, a, b)[i] == regs[i]
    ensures SetConditionCode(regs, a, b)[SW] == BitOr(regs[SW], 0x018000)
  {
    Pow2Values();
    OrBelow(regs[SW], 0x018000, 24);
  }

  lemma {:induction false} AfterEqual(regs: seq<nat>, a: nat, b: nat)
    requires Reduced(regs) && a == b
    ensures Reduced(SetConditionCode(regs, a, b))
    ensures forall i :: 0 <= i < REGISTER_COUNT && i != SW ==> SetConditionCode(regs, a, b)[i] == regs[i]
    ensures SetConditionCode(regs, a, b)[SW] == BitAnd(regs[SW], 0xFCFFFF)
  {
  }

  /** Bits 15 and 16 of the masks SetConditionCode uses. */
  lemma {:induction false} MaskBits()
    ensures BitAt(0x10000, 15) == 0 && BitAt(0x10000, 16) == 1
    ensures BitAt(0x18000, 15) == 1 && BitAt(0x18000, 16) == 1
    ensures BitAt(0xFCFFFF, 15) == 1 && BitAt(0xFCFFFF, 16) == 0
  {
    Pow2Values();
    BitAtShr(0x10000, 15);
    BitAtShr(0x10000, 16);
    BitAtShr(0x18000, 15);
    BitAtShr(0x18000, 16);
    BitAtShr(0xFCFFFF, 15);
    BitAtShr(0xFCFFFF, 16);
    ShrIsDiv(0x10000, 15);
    ShrIsDiv(0x10000, 16);
    ShrIsDiv(0x18000, 15);
    ShrIsDiv(0x18000, 16);
    ShrIsDiv(0xFCFFFF, 15);
    ShrIsDiv(0xFCFFFF, 16);
  }

  lemma {:induction false} GreaterWord(sw: nat)
    requires sw < WORD_LIMIT
    ensures var w := BitOr(sw, 0x010000);
      w < WORD_LIMIT && w == sw + (if BitAt(sw, 16) == 1 then 0 else 0x10000)
      && ConditionCode(w) == 2 + BitAt(sw, 15)
  {
    Pow2Values();
    OrPow2(sw, 16);
    MaskBits();
    OrBit(sw, 0x10000, 15);
    OrBit(sw, 0x10000, 16);
    OrBelow(sw, 0x10000, 24);
  }

  lemma {:induction false} LessWord(sw: nat)
    requires sw < WORD_LIMIT
    ensures var w := BitOr(sw, 0x018000);
      w < WORD_LIMIT
      && w == sw + (if BitAt(sw, 15) == 1 then 0 else 0x8000) + (if BitAt(sw, 16) == 1 then 0 else 0x10000)
      && ConditionCode(w) == 3
  {
    Pow2Values();
    assert 3 * Pow2(15) == 0x018000;
    OrPow2Pair(sw, 15);
    MaskBits();
    OrBit(sw, 0x18000, 15);
    OrBit(sw, 0x18000, 16);
    OrBelow(sw, 0x18000, 24);
  }

  lemma {:induction false} EqualWord(sw: nat)
    requires sw < WORD_LIMIT
    ensures var w := BitAnd(sw, 0xFCFFFF);
      w == sw as int - (if BitAt(sw, 16) == 1 then 0x10000 else 0) - (if BitAt(sw, 17) == 1 then 0x20000 else 0)
      && ConditionCode(w) == BitAt(sw, 15)
  {
    Pow2Values();
    assert Pow2(24) - 1 - 3 * Pow2(16) == 0xFCFFFF;
    AndClearPair(sw, 24, 16, 0xFCFFFF);
    MaskBits();
    AndBit(sw, 0xFCFFFF, 15);
    AndBit(sw, 0xFCFFFF, 16);
  }

  /**
   * With bit 15 of SW clear, a comparison makes JEQ jump iff the operands
   * were equal and JGT jump iff the first was greater. With bit 15 set (any
   * earlier "less"), neither jumps after any comparison.
   */
  lemma {:induction false} CompareDecidesJumps(regs: seq<nat>, a: nat, b: nat)
    requires Reduced(regs)
    ensures
      var sw := SetConditionCode(regs, a, b)[SW];
      && (BitAt(regs[SW], 15) == 0 ==>
            (BitAnd(sw, 0x018000) == 0 <==> a == b) && (BitAnd(sw, 0x018000) == 0x010000 <==> a > b))
      && (BitAt(regs[SW], 15) == 1 ==>
            BitAnd(sw, 0x018000) != 0 && BitAnd(sw, 0x018000) != 0x010000)
  {
    ConditionCodeAfter(regs, a, b);
    JumpTests(SetConditionCode(regs, a, b)[SW]);
  }
}
