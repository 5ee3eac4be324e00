/**
 * The format-3/4 half of a step, stated against the instruction bytes:
 * the address fields, the flag nibble of each addressing mode, the
 * operand value, the dispatch on the opcode, and the PC advance after it.
 */
module ExecutorOperands {
  import opened Outcomes
  import opened Bits
  import opened Constants
  import opened Executor
  import opened ExecutorProperties

  // ----- Address fields -----

  /** The 12-bit field: the low nibble of byte 1 and all of byte 2. */
  function Field12(code: seq<Byte>): nat
    requires |code| >= 3
  {
    code[1] as nat % 16 * 0x100 + code[2] as nat
  }

  /** The 20-bit field of the extended format: the low nibble of byte 1 and bytes 2 and 3. */
  function Field20(code: seq<Byte>): nat
    requires |code| >= 4
  {
    code[1] as nat % 16 * 0x10000 + code[2] as nat * 0x100 + code[3] as nat
  }

  /** The 15-bit address of the SIC format: byte 1 without its top bit, and byte 2. */
  function Field15(code: seq<Byte>): nat
    requires |code| >= 3
  {
    code[1] as nat % 128 * 0x100 + code[2] as nat
  }

  /** The 12-bit field is read when three bytes are there, and fails otherwise. */
  lemma {:induction false} Field12Read(code: seq<Byte>, e: ExecError)
    ensures AddressField(code, 12, e) == if |code| >= 3 then Success(Field12(code)) else Failure(e)
  {
    if |code| >= 3 {
      ReadBitsField12(code, 0);
    }
  }

  /** The 20-bit field is read when four bytes are there, and fails otherwise. */
  lemma {:induction false} Field20Read(code: seq<Byte>, e: ExecError)
    ensures AddressField(code, 20, e) == if |code| >= 4 then Success(Field20(code)) else Failure(e)
  {
    if |code| >= 4 {
      ReadBitsField20(code, 0);
    }
  }

  /** What the x, b and p bits of the flag nibble add to the field. */
  function TargetBase(regs: seq<nat>, flags: nat): nat
    requires |regs| == REGISTER_COUNT
  {
    (if flags % 16 >= 8 then regs[X] else 0) + (if flags % 8 >= 4 then regs[B] else 0)
    + (if flags % 4 >= 2 then regs[PC] else 0)
  }

  /** The target of an instruction whose field is 20 bits wide when `extended`, computed on its bytes. */
  function ByteTarget(code: seq<Byte>, base: nat, extended: bool, e: ExecError): Result<(nat, nat), ExecError> {
    if extended then (if |code| >= 4 then Success((base + Field20(code), 4)) else Failure(e))
    else if |code| >= 3 then Success((base + Field12(code), 3)) else Failure(e)
  }

  /** The flag nibbles a mode accepts: {0, 1, 2, 4}, and with indexing also {8, 9, 10, 12}. */
  predicate ValidFlags(flags: nat, indexed: bool) {
    flags in {0, 1, 2, 4} || (indexed && flags in {8, 9, 10, 12})
  }

  /**
   * The flag nibble x b p e: an accepted nibble adds X, B and PC as its x,
   * b and p bits say to a field that is 20 bits wide (and the instruction
   * four bytes long) exactly when e is set. Any other nibble is an invalid
   * addressing mode.
   */
  lemma {:induction false} TargetFlags(regs: seq<nat>, code: seq<Byte>, flags: nat, indexed: bool, e: ExecError)
    requires |regs| == REGISTER_COUNT
    ensures ValidFlags(flags, indexed) ==>
      Target(regs, code, flags, indexed, e) == ByteTarget(code, TargetBase(regs, flags), flags % 2 == 1, e)
    ensures !ValidFlags(flags, indexed) ==> Target(regs, code, flags, indexed, e) == Failure(InvalidAddressingMode)
  {
    Field12Read(code, e);
    Field20Read(code, e);
  }

  /** An instruction is four bytes long exactly when the e flag is set. */
  lemma {:induction false} TargetLength(regs: seq<nat>, code: seq<Byte>, flags: nat, indexed: bool, e: ExecError)
    requires |regs| == REGISTER_COUNT
    ensures Target(regs, code, flags, indexed, e).Success? ==>
      ValidFlags(flags, indexed) && Target(regs, code, flags, indexed, e).value.1 == (if flags % 2 == 1 then 4 else 3)
  {
  }

  // ----- The operand of each addressing mode -----

  /** The operand read through the address a target names. */
  function Fetched(target: Result<(nat, nat), ExecError>, mem: seq<Byte>): Result<(nat, nat), ExecError> {
    match target
    case Failure(e) => Failure(e)
    case Success((address, n)) =>
      match Word(mem, address)
      case None => Failure(InvalidMemoryAddress)
      case Some(w) => Success((w, n))
  }

  /**
   * SIC format (mode 0): the 15-bit address, plus X when the flag bit is
   * set, names a three-byte word; the instruction is three bytes.
   */
  lemma {:induction false} SimpleOperand(regs: seq<nat>, mem: seq<Byte>, code: seq<Byte>, flags: nat)
    requires |regs| == REGISTER_COUNT && |code| >= 3
    ensures Operand(regs, mem, code, 0, flags) ==
      var address := if flags == 0 then Field15(code) else regs[X] + Field15(code);
      Fetched(Success((address, 3)), mem)
  {
    ReadBitsField15(code, 0);
  }

  /**
   * Immediate (mode 1): the target itself is the operand, so memory is not
   * read; the indexed nibbles are not accepted.
   */
  lemma {:induction false} ImmediateOperand(regs: seq<nat>, mem: seq<Byte>, code: seq<Byte>, flags: nat)
    requires |regs| == REGISTER_COUNT
    ensures ValidFlags(flags, false) ==>
      Operand(regs, mem, code, 1, flags) == ByteTarget(code, TargetBase(regs, flags), flags % 2 == 1, ReadValue)
    ensures !ValidFlags(flags, false) ==> Operand(regs, mem, code, 1, flags) == Failure(InvalidAddressingMode)
    ensures forall other: seq<Byte> :: Operand(regs, other, code, 1, flags) == Operand(regs, mem, code, 1, flags)
  {
    TargetFlags(regs, code, flags, false, ReadValue);
  }

  /**
   * Indirect (mode 2): the target holds the address of the operand, so
   * memory is read twice; the indexed nibbles are not accepted.
   */
  lemma {:induction false} IndirectOperand(regs: seq<nat>, mem: seq<Byte>, code: seq<Byte>, flags: nat)
    requires |regs| == REGISTER_COUNT
    ensures ValidFlags(flags, false) ==>
      Operand(regs, mem, code, 2, flags) ==
        Fetched(Fetched(ByteTarget(code, TargetBase(regs, flags), flags % 2 == 1, ReadAddress), mem), mem)
    ensures !ValidFlags(flags, false) ==> Operand(regs, mem, code, 2, flags) == Failure(InvalidAddressingMode)
  {
    TargetFlags(regs, code, flags, false, ReadAddress);
  }

  /** Direct (mode 3): the target, which may be indexed, names the operand's word. */
  lemma {:induction false} DirectOperand(regs: seq<nat>, mem: seq<Byte>, code: seq<Byte>, flags: nat)
    requires |regs| == REGISTER_COUNT
    ensures ValidFlags(flags, true) ==>
      Operand(regs, mem, code, 3, flags) ==
        Fetched(ByteTarget(code, TargetBase(regs, flags), flags % 2 == 1, ReadAddress), mem)
    ensures !ValidFlags(flags, true) ==> Operand(regs, mem, code, 3, flags) == Failure(InvalidAddressingMode)
  {
    TargetFlags(regs, code, flags, true, ReadAddress);
  }

  /** A three-byte read fails exactly when it reaches past the last byte of memory. */
  lemma {:induction false} FetchedBounds(address: nat, n: nat, mem: seq<Byte>)
    ensures Fetched(Success((address, n)), mem).Failure? <==> address + 2 >= |mem|
    ensures address + 2 < |mem| ==>
      Fetched(Success((address, n)), mem) ==
        Success((mem[address] as nat * 0x10000 + mem[address + 1] as nat * 0x100 + mem[address + 2] as nat, n))
  {
  }

  // ----- Dispatch -----

  /** ADD, AND and OR combine the operand into A; nothing else changes. */
  lemma {:induction false} DispatchArithmetic(codes: OpcodeTable, regs: seq<nat>, value: nat, length: nat)
    requires ValidCodes(codes) && |regs| == REGISTER_COUNT
    ensures Dispatch(codes, regs, codes(ADD), value, length) ==
      Effect(Success(length), SetReg(regs, A, regs[A] + value))
    ensures Dispatch(codes, regs, codes(AND), value, length) ==
      Effect(Success(length), SetReg(regs, A, BitAnd(regs[A], value)))
    ensures Dispatch(codes, regs, codes(OR), value, length) ==
      Effect(Success(length), SetReg(regs, A, BitOr(regs[A], value)))
  {
    Distinct(codes, AND, ADD);
    Distinct(codes, OR, ADD);
    Distinct(codes, OR, AND);
  }

  /** RSUB returns to L and J jumps to the operand. */
  lemma {:induction false} DispatchJumps(codes: OpcodeTable, regs: seq<nat>, value: nat, length: nat)
    requires ValidCodes(codes) && |regs| == REGISTER_COUNT
    ensures Dispatch(codes, regs, codes(RSUB), value, length) == Effect(Success(length), SetReg(regs, PC, regs[L]))
    ensures Dispatch(codes, regs, codes(J), value, length) == Effect(Success(length), SetReg(regs, PC, value))
  {
    OthersDiffer(codes, RSUB);
    OthersDiffer(codes, J);
  }

  /**
   * JEQ jumps iff the condition code is 0 ("equal") and JGT iff it is 2
   * ("greater"); otherwise they change nothing.
   */
  lemma {:induction false} DispatchConditional(codes: OpcodeTable, regs: seq<nat>, value: nat, length: nat)
    requires ValidCodes(codes) && |regs| == REGISTER_COUNT
    ensures Dispatch(codes, regs, codes(JEQ), value, length) ==
      Effect(Success(length), if ConditionCode(regs[SW]) == 0 then SetReg(regs, PC, value) else regs)
    ensures Dispatch(codes, regs, codes(JGT), value, length) ==
      Effect(Success(length), if ConditionCode(regs[SW]) == 2 then SetReg(regs, PC, value) else regs)
  {
    OthersDiffer(codes, JEQ);
    OthersDiffer(codes, JGT);
    JumpTests(regs[SW]);
  }

  /** The seven mnemonics the machine executes with an operand. */
  predicate Executable(codes: OpcodeTable, opcode: nat) {
    opcode in {codes(ADD), codes(AND), codes(OR), codes(RSUB), codes(J), codes(JEQ), codes(JGT)}
  }

  /** Any other opcode is an invalid instruction and changes nothing. */
  lemma {:induction false} DispatchInvalid(codes: OpcodeTable, regs: seq<nat>, opcode: nat, value: nat, length: nat)
    requires |regs| == REGISTER_COUNT
    ensures Dispatch(codes, regs, opcode, value, length).result.Success? <==> Executable(codes, opcode)
    ensures !Executable(codes, opcode) ==>
      Dispatch(codes, regs, opcode, value, length) == Effect(Failure(InvalidInstruction), regs)
  {
  }

  // ----- The whole format-3/4 step -----

  /** The mode bits are the low two bits of the opcode byte, and the dispatch uses the other six. */
  lemma {:induction false} Format34Parts(codes: OpcodeTable, regs: seq<nat>, mem: seq<Byte>, code: seq<Byte>, op: nat)
    requires |regs| == REGISTER_COUNT && |code| >= 3
    ensures
      var mode := op % 4;
      var flags := if mode == 0 then code[1] as nat / 128 else code[1] as nat / 16;
      Format34(codes, regs, mem, code, op) ==
        match Operand(regs, mem, code, mode, flags)
        case Failure(e) => Effect(Failure(e), regs)
        case Success((value, length)) => Dispatch(codes, regs, op - mode, value, length)
  {
    ReadBitsTopBit(code, 1);
    ReadBitsHighNibble(code, 1);
  }

  /** A byte that is no format-2 opcode runs the format-3/4 decoder, then the PC advance. */
  lemma {:induction false} Format34Step(codes: OpcodeTable, regs: seq<nat>, mem: seq<Byte>)
    requires |regs| == REGISTER_COUNT && regs[PC] < |mem|
    requires forall o :: IsFormat2(o) ==> codes(o) != mem[regs[PC]] as nat
    ensures Execute(codes, regs, mem) == Finish(Format34(codes, regs, mem, mem[regs[PC]..], mem[regs[PC]] as nat))
  {
    ExecuteOf(codes, regs, mem);
    SelectsFormat34(codes, regs, mem, mem[regs[PC]..], mem[regs[PC]] as nat);
  }

  /**
   * A taken jump: PC becomes the target plus the length of the jump
   * instruction itself, reduced to 24 bits, because the advance follows
   * the dispatch.
   */
  lemma {:induction false} JumpAdvance(regs: seq<nat>, value: nat, length: nat)
    requires Reduced(regs)
    ensures Finish(Effect(Success(length), SetReg(regs, PC, value))).regs[PC] == (value % WORD_LIMIT + length) % WORD_LIMIT
  {
  }

  // ----- The machine's test programs -----

  /** No format-2 opcode has mode bits, so a byte with mode bits set is a format-3/4 opcode. */
  lemma {:induction false} ModeBitsNotFormat2(codes: OpcodeTable, op: nat)
    requires ValidCodes(codes) && op % 4 != 0
    ensures forall o :: IsFormat2(o) ==> codes(o) != op
  {
  }

  /** Bytes 19 00 01: ADD in immediate mode with the value 1, three bytes long. */
  lemma {:induction false} AddImmediateStep(codes: OpcodeTable, regs: seq<nat>, mem: seq<Byte>)
    requires ValidCodes(codes) && Reduced(regs)
    requires regs[PC] + 2 < |mem|
    requires mem[regs[PC]] == 0x19 && mem[regs[PC] + 1] == 0x00 && mem[regs[PC] + 2] == 0x01
    ensures Execute(codes, regs, mem) == Step(Pass, SetReg(SetReg(regs, A, regs[A] + 1), PC, regs[PC] + 3))
  {
    ModeBitsNotFormat2(codes, 0x19);
    Format34Step(codes, regs, mem);
    AddImmediateEffect(codes, regs, mem, mem[regs[PC]..]);
  }

  lemma {:induction false} AddImmediateEffect(codes: OpcodeTable, regs: seq<nat>, mem: seq<Byte>, code: seq<Byte>)
    requires ValidCodes(codes) && |regs| == REGISTER_COUNT
    requires |code| >= 3 && code[0] == 0x19 && code[1] == 0x00 && code[2] == 0x01
    ensures Format34(codes, regs, mem, code, 0x19) == Effect(Success(3), SetReg(regs, A, regs[A] + 1))
  {
    Format34Parts(codes, regs, mem, code, 0x19);
    ImmediateOne(regs, mem, code);
    DispatchArithmetic(codes, regs, 1, 3);
  }

  lemma {:induction false} ImmediateOne(regs: seq<nat>, mem: seq<Byte>, code: seq<Byte>)
    requires |regs| == REGISTER_COUNT
    requires |code| >= 3 && code[1] == 0x00 && code[2] == 0x01
    ensures Operand(regs, mem, code, 1, 0) == Success((1, 3))
  {
    ImmediateOperand(regs, mem, code, 0);
  }

  /**
   * Three zero bytes: LDA (opcode 0 in SIC/XE) in SIC format, which the
   * machine does not execute.
   */
  lemma {:induction false} ZeroBytesStep(codes: OpcodeTable, regs: seq<nat>, mem: seq<Byte>)
    requires ValidCodes(codes) && codes(LDA) == 0 && Reduced(regs)
    requires regs[PC] + 2 < |mem|
    requires mem[regs[PC]] == 0 && mem[regs[PC] + 1] == 0 && mem[regs[PC] + 2] == 0
    ensures Execute(codes, regs, mem) == Step(Fail(InvalidInstruction), regs)
  {
    OthersDiffer(codes, LDA);
    Format34Step(codes, regs, mem);
    ZeroBytesEffect(codes, regs, mem, mem[regs[PC]..]);
  }

  lemma {:induction false} ZeroBytesEffect(codes: OpcodeTable, regs: seq<nat>, mem: seq<Byte>, code: seq<Byte>)
    requires codes(LDA) == 0 && (forall o :: o != LDA ==> codes(o) != codes(LDA))
    requires |regs| == REGISTER_COUNT && |mem| >= 3
    requires |code| >= 3 && code[0] == 0 && code[1] == 0 && code[2] == 0
    ensures Format34(codes, regs, mem, code, 0) == Effect(Failure(InvalidInstruction), regs)
  {
    ZeroBytesDispatch(codes, regs, mem, code);
    LoadNotExecuted(codes, regs, Word(mem, 0).value, 3);
  }

  lemma {:induction false} ZeroBytesDispatch(codes: OpcodeTable, regs: seq<nat>, mem: seq<Byte>, code: seq<Byte>)
    requires |regs| == REGISTER_COUNT && |mem| >= 3
    requires |code| >= 3 && code[1] == 0 && code[2] == 0
    ensures Format34(codes, regs, mem, code, 0) == Dispatch(codes, regs, 0, Word(mem, 0).value, 3)
  {
    Format34Parts(codes, regs, mem, code, 0);
    ZeroAddressOperand(regs, mem, code);
  }

  lemma {:induction false} ZeroAddressOperand(regs: seq<nat>, mem: seq<Byte>, code: seq<Byte>)
    requires |regs| == REGISTER_COUNT && |mem| >= 3
    requires |code| >= 3 && code[1] == 0 && code[2] == 0
    ensures Operand(regs, mem, code, 0, 0) == Success((Word(mem, 0).value, 3))
  {
    SimpleOperand(regs, mem, code, 0);
  }

  lemma {:induction false} LoadNotExecuted(codes: OpcodeTable, regs: seq<nat>, value: nat, length: nat)
    requires |regs| == REGISTER_COUNT && forall o :: o != LDA ==> codes(o) != codes(LDA)
    ensures Dispatch(codes, regs, codes(LDA), value, length) == Effect(Failure(InvalidInstruction), regs)
  {
    DispatchInvalid(codes, regs, codes(LDA), value, length);
  }
}
