/**
 * One fetch-decode-execute step of the SIC/XE machine over its ten
 * registers and 32768 bytes of memory.
 *
 * The step is specified by the function `Execute`, which follows the order
 * of the source's match arms; the method `ExecutarInstrucao` performs the
 * step on a register array and is proved to agree with it. The lemmas below
 * state what the step does, instruction family by instruction family.
 */
module Executor {
  import opened Outcomes
  import opened Bits
  import opened Constants

  /** F holds 48 bits. */
  const F_LIMIT: nat := 0x1_0000_0000_0000
  /** Every other register holds 24 bits. */
  const WORD_LIMIT: nat := 0x100_0000
  /** Values are computed in `u64`; an arithmetic result outside it is a Rust panic. */
  const U64_LIMIT: nat := 0x1_0000_0000_0000_0000

  /** The errors a step can return. A Rust arithmetic panic is the error `ArithmeticPanic`. */
  datatype ExecError =
    | InvalidPc              // PC lies beyond the end of memory
    | ReadInstruction        // a register nibble of a format-2 instruction runs past memory
    | RegisterNotFound       // a register nibble names slot 10 or above
    | ReadFlags              // the flag bits run past memory
    | ReadValue              // an immediate or SIC-format address field runs past memory
    | ReadAddress            // an address field runs past memory
    | InvalidMemoryAddress   // a three-byte read reaches address 32768 or beyond
    | InvalidAddressingMode  // the flag nibble is not one the mode accepts
    | InvalidInstruction     // the opcode is not one the machine executes
    | ArithmeticPanic        // subtraction underflow, division by zero or u64 overflow

  /** The width limit of register slot n. */
  function Limit(n: nat): nat {
    if n == F then F_LIMIT else WORD_LIMIT
  }

  /** Every register holds no more bits than its width: the state every register write keeps. */
  predicate Reduced(regs: seq<nat>) {
    |regs| == REGISTER_COUNT && forall i :: 0 <= i < |regs| ==> regs[i] < Limit(i)
  }

  /** The register file after writing v to slot n, reduced to the slot's width. */
  function SetReg(regs: seq<nat>, n: nat, v: nat): (r: seq<nat>)
    ensures |r| == |regs|
    ensures n < |regs| ==> r[n] == v % Limit(n)
    ensures forall i :: 0 <= i < |regs| && i != n ==> r[i] == regs[i]
    ensures Reduced(regs) ==> Reduced(r)
  {
    if n < |regs| then regs[n := v % Limit(n)] else regs
  }

  /** Writes a register the way every instruction does: reduced to its width, ignored beyond slot 9. */
  method SetRegistrador(regs: array<nat>, n: nat, v: nat)
    modifies regs
    ensures regs[..] == SetReg(old(regs[..]), n, v)
  {
    if n < regs.Length {
      regs[n] := if n == F then v % F_LIMIT else v % WORD_LIMIT;
    }
  }

  // ----- Specification of one step -----

  /** The outcome of one instruction before the final PC advance: its length, or an error. */
  datatype Effect = Effect(result: Result<nat, ExecError>, regs: seq<nat>)

  /** The outcome of a whole step and the register file it leaves. */
  datatype Step = Step(outcome: Outcome<ExecError>, regs: seq<nat>)

  /** The big-endian number held in the three bytes at `address`, if they are all in memory. */
  function Word(mem: seq<Byte>, address: nat): (r: Option<nat>)
    ensures r.Some? <==> address + 2 < |mem|
    ensures r.Some? ==> r.value < WORD_LIMIT
  {
    if address + 2 < |mem|
    then Some(mem[address] as nat * 0x10000 + mem[address + 1] as nat * 0x100 + mem[address + 2] as nat)
    else None
  }

  /** The register-number nibble at bit `pos` of the instruction and the value of that register. */
  function RegisterOperand(regs: seq<nat>, code: seq<Byte>, pos: nat): (r: Result<(nat, nat), ExecError>)
    ensures r.Success? ==> r.value.0 < |regs| && r.value.1 == regs[r.value.0]
  {
    match Read(code, pos, 4)
    case None => Failure(ReadInstruction)
    case Some(n) => if n < |regs| then Success((n, regs[n])) else Failure(RegisterNotFound)
  }

  /** The register-to-register operations computing a value from two registers. */
  datatype Arith = Sum | Difference | Product | Quotient

  /** The `u64` result of an operation; `None` where Rust panics. */
  function Arithmetic(kind: Arith, a: nat, b: nat): Option<nat> {
    match kind
    case Sum => if a + b < U64_LIMIT then Some(a + b) else None
    case Difference => if a >= b then Some(a - b) else None
    case Product => if a * b < U64_LIMIT then Some(a * b) else None
    case Quotient => if b == 0 then None else Some(a / b)
  }

  /** ADDR, SUBR, MULR, DIVR: combine the registers named by the two nibbles into the second. */
  function Binary(kind: Arith, regs: seq<nat>, code: seq<Byte>): (r: Effect)
    ensures |r.regs| == |regs|
    ensures Reduced(regs) ==> Reduced(r.regs)
  {
    match RegisterOperand(regs, code, 8)
    case Failure(e) => Effect(Failure(e), regs)
    case Success((_, v1)) =>
      match RegisterOperand(regs, code, 12)
      case Failure(e) => Effect(Failure(e), regs)
      case Success((d, v2)) =>
        match Arithmetic(kind, v1, v2)
        case None => Effect(Failure(ArithmeticPanic), regs)
        case Some(v) => Effect(Success(2), SetReg(regs, d, v))
  }

  /** CLEAR: zero the register named by the first nibble. */
  function Clear(regs: seq<nat>, code: seq<Byte>): (r: Effect)
    ensures |r.regs| == |regs|
    ensures Reduced(regs) ==> Reduced(r.regs)
  {
    match Read(code, 8, 4)
    case None => Effect(Failure(ReadInstruction), regs)
    case Some(n) => Effect(Success(2), SetReg(regs, n, 0))
  }

  /** The condition-code update of COMPR and TIXR after comparing a with b, as the source writes it. */
  function SetConditionCode(regs: seq<nat>, a: nat, b: nat): (r: seq<nat>)
    requires |regs| == REGISTER_COUNT
    ensures |r| == |regs|
    ensures Reduced(regs) ==> Reduced(r)
  {
    var sw := regs[SW];
    if a > b then SetReg(SetReg(regs, SW, BitAnd(sw, 0xFDFFFF)), SW, BitOr(sw, 0x010000))
    else if a < b then SetReg(regs, SW, BitOr(sw, 0x018000))
    else SetReg(regs, SW, BitAnd(sw, 0xFCFFFF))
  }

  /** COMPR: compare the registers named by the two nibbles. */
  function Compare(regs: seq<nat>, code: seq<Byte>): (r: Effect)
    requires |regs| == REGISTER_COUNT
    ensures |r.regs| == |regs|
    ensures Reduced(regs) ==> Reduced(r.regs)
  {
    match RegisterOperand(regs, code, 8)
    case Failure(e) => Effect(Failure(e), regs)
    case Success((_, v1)) =>
      match RegisterOperand(regs, code, 12)
      case Failure(e) => Effect(Failure(e), regs)
      case Success((_, v2)) => Effect(Success(2), SetConditionCode(regs, v1, v2))
  }

  /** RMO: copy the register named by the first nibble into the one named by the second. */
  function Move(regs: seq<nat>, code: seq<Byte>): (r: Effect)
    ensures |r.regs| == |regs|
    ensures Reduced(regs) ==> Reduced(r.regs)
  {
    match RegisterOperand(regs, code, 8)
    case Failure(e) => Effect(Failure(e), regs)
    case Success((_, v1)) =>
      match Read(code, 12, 4)
      case None => Effect(Failure(ReadInstruction), regs)
      case Some(d) => Effect(Success(2), SetReg(regs, d, v1))
  }

  /** SHIFTL and SHIFTR: shift the register named by the first nibble by the count in the second. */
  function Shift(left: bool, regs: seq<nat>, code: seq<Byte>): (r: Effect)
    ensures |r.regs| == |regs|
    ensures Reduced(regs) ==> Reduced(r.regs)
  {
    match RegisterOperand(regs, code, 8)
    case Failure(e) => Effect(Failure(e), regs)
    case Success((d, v)) =>
      match Read(code, 12, 4)
      case None => Effect(Failure(ReadInstruction), regs)
      case Some(bits) =>
        Effect(Success(2), SetReg(regs, d, if left then Shl64(v, bits) else Shr(v, bits)))
  }

  /** TIXR: increment X, then compare the old X with the register named by the first nibble. */
  function TestIndex(regs: seq<nat>, code: seq<Byte>): (r: Effect)
    requires |regs| == REGISTER_COUNT
    ensures |r.regs| == |regs|
    ensures Reduced(regs) ==> Reduced(r.regs)
  {
    var x := regs[X];
    var incremented := SetReg(regs, X, x + 1);
    match RegisterOperand(incremented, code, 8)
    case Failure(e) => Effect(Failure(e), incremented)
    case Success((_, v)) => Effect(Success(2), SetConditionCode(incremented, x, v))
  }

  /** The 12- or 20-bit field after the flag nibble. */
  function AddressField(code: seq<Byte>, width: nat, readError: ExecError): Result<nat, ExecError> {
    match Read(code, 12, width)
    case None => Failure(readError)
    case Some(v) => Success(v)
  }

  /**
   * The address (or, in immediate mode, the value) a format-3/4 instruction
   * names, with the instruction length, for flag nibble `flags`. Base- and
   * PC-relative forms add B or the PC of this instruction; `indexed` enables
   * the X-relative forms that only direct mode accepts.
   */
  function Target(regs: seq<nat>, code: seq<Byte>, flags: nat, indexed: bool, readError: ExecError)
    : (r: Result<(nat, nat), ExecError>)
    requires |regs| == REGISTER_COUNT
    ensures r.Success? ==> r.value.1 == 3 || r.value.1 == 4
  {
    if flags == 0 then Targeted(AddressField(code, 12, readError), 0, 3)
    else if flags == 1 then Targeted(AddressField(code, 20, readError), 0, 4)
    else if flags == 2 then Targeted(AddressField(code, 12, readError), regs[PC], 3)
    else if flags == 4 then Targeted(AddressField(code, 12, readError), regs[B], 3)
    else if indexed && flags == 8 then Targeted(AddressField(code, 12, readError), regs[X], 3)
    else if indexed && flags == 9 then Targeted(AddressField(code, 20, readError), regs[X], 4)
    else if indexed && flags == 10 then Targeted(AddressField(code, 12, readError), regs[PC] + regs[X], 3)
    else if indexed && flags == 12 then Targeted(AddressField(code, 12, readError), regs[B] + regs[X], 3)
    else Failure(InvalidAddressingMode)
  }

  /** A field read plus `base`, paired with the instruction length. */
  function Targeted(field: Result<nat, ExecError>, base: nat, length: nat): (r: Result<(nat, nat), ExecError>)
    ensures r.Success? ==> r.value.1 == length
  {
    match field
    case Failure(e) => Failure(e)
    case Success(v) => Success((base + v, length))
  }

  /** The operand value and instruction length of a non-format-2 instruction in addressing mode `mode`. */
  function Operand(regs: seq<nat>, mem: seq<Byte>, code: seq<Byte>, mode: nat, flags: nat)
    : (r: Result<(nat, nat), ExecError>)
    requires |regs| == REGISTER_COUNT
    ensures r.Success? ==> 3 <= r.value.1 <= 4
  {
    if mode == 0 then
      // SIC format: one index bit and a 15-bit address.
      match Read(code, 9, 15)
      case None => Failure(ReadValue)
      case Some(e) =>
        var address := if flags == 0 then e else regs[X] + e;
        match Word(mem, address)
        case None => Failure(InvalidMemoryAddress)
        case Some(w) => Success((w, 3))
    else if mode == 1 then
      // Immediate: the target itself is the value.
      Target(regs, code, flags, false, ReadValue)
    else if mode == 2 then
      // Indirect: the target holds the address of the value.
      match Target(regs, code, flags, false, ReadAddress)
      case Failure(e) => Failure(e)
      case Success((address, n)) =>
        match Word(mem, address)
        case None => Failure(InvalidMemoryAddress)
        case Some(indirect) =>
          match Word(mem, indirect)
          case None => Failure(InvalidMemoryAddress)
          case Some(w) => Success((w, n))
    else
      // Direct (simple) addressing.
      match Target(regs, code, flags, true, ReadAddress)
      case Failure(e) => Failure(e)
      case Success((address, n)) =>
        match Word(mem, address)
        case None => Failure(InvalidMemoryAddress)
        case Some(w) => Success((w, n))
  }

  /** The instructions with an operand that the machine executes, selected by `opcode & 0xFC`. */
  function Dispatch(codes: OpcodeTable, regs: seq<nat>, opcode: nat, value: nat, length: nat): (r: Effect)
    requires |regs| == REGISTER_COUNT
    ensures |r.regs| == |regs|
    ensures Reduced(regs) ==> Reduced(r.regs)
  {
    if opcode == codes(ADD) then Effect(Success(length), SetReg(regs, A, regs[A] + value))
    else if opcode == codes(AND) then Effect(Success(length), SetReg(regs, A, BitAnd(regs[A], value)))
    else if opcode == codes(OR) then Effect(Success(length), SetReg(regs, A, BitOr(regs[A], value)))
    else if opcode == codes(RSUB) then Effect(Success(length), SetReg(regs, PC, regs[L]))
    else if opcode == codes(J) then Effect(Success(length), SetReg(regs, PC, value))
    else if opcode == codes(JEQ) then
      if BitAnd(regs[SW], 0x018000) == 0 then Effect(Success(length), SetReg(regs, PC, value))
      else Effect(Success(length), regs)
    else if opcode == codes(JGT) then
      if BitAnd(regs[SW], 0x018000) == 0x010000 then Effect(Success(length), SetReg(regs, PC, value))
      else Effect(Success(length), regs)
    else Effect(Failure(InvalidInstruction), regs)
  }

  /** A non-format-2 instruction: mode bits, flags, operand fetch, then dispatch. */
  function Format34(codes: OpcodeTable, regs: seq<nat>, mem: seq<Byte>, code: seq<Byte>, op: nat): (r: Effect)
    requires |regs| == REGISTER_COUNT
    ensures |r.regs| == |regs|
    ensures Reduced(regs) ==> Reduced(r.regs)
  {
    var mode := op % 4;
    match Read(code, 8, if mode == 0 then 1 else 4)
    case None => Effect(Failure(ReadFlags), regs)
    case Some(flags) =>
      match Operand(regs, mem, code, mode, flags)
      case Failure(e) => Effect(Failure(e), regs)
      case Success((value, length)) => Dispatch(codes, regs, op - mode, value, length)
  }

  /** The instruction whose first byte is op, in the order the source tests the opcodes. */
  function Instruction(codes: OpcodeTable, regs: seq<nat>, mem: seq<Byte>, code: seq<Byte>, op: nat): (r: Effect)
    requires |regs| == REGISTER_COUNT
    ensures |r.regs| == |regs|
    ensures Reduced(regs) ==> Reduced(r.regs)
  {
    if op == codes(ADDR) then Binary(Sum, regs, code)
    else if op == codes(CLEAR) then Clear(regs, code)
    else if op == codes(COMPR) then Compare(regs, code)
    else if op == codes(DIVR) then Binary(Quotient, regs, code)
    else if op == codes(MULR) then Binary(Product, regs, code)
    else if op == codes(RMO) then Move(regs, code)
    else if op == codes(SHIFTL) then Shift(true, regs, code)
    else if op == codes(SHIFTR) then Shift(false, regs, code)
    else if op == codes(SUBR) then Binary(Difference, regs, code)
    else if op == codes(TIXR) then TestIndex(regs, code)
    else Format34(codes, regs, mem, code, op)
  }

  /**
   * One step: fetch at PC, execute, and on success advance PC by the
   * instruction length. Reading the opcode fails only at PC = 32768, and
   * then the step succeeds with a length of 2.
   */
  function Execute(codes: OpcodeTable, regs: seq<nat>, mem: seq<Byte>): (r: Step)
    requires |regs| == REGISTER_COUNT
    ensures |r.regs| == |regs|
    ensures Reduced(regs) ==> Reduced(r.regs)
  {
    var pc := regs[PC];
    if pc > |mem| then Step(Fail(InvalidPc), regs)
    else
      var code := mem[pc..];
      match Read(code, 0, 8)
      case None => Step(Pass, SetReg(regs, PC, pc + 2))
      case Some(op) => Finish(Instruction(codes, regs, mem, code, op))
  }

  /** The step an instruction's effect makes: after a success PC moves past the instruction. */
  function Finish(e: Effect): (r: Step)
    requires |e.regs| == REGISTER_COUNT
    ensures |r.regs| == REGISTER_COUNT
    ensures Reduced(e.regs) ==> Reduced(r.regs)
  {
    match e.result
    case Failure(err) => Step(Fail(err), e.regs)
    case Success(n) => Step(Pass, SetReg(e.regs, PC, e.regs[PC] + n))
  }

  // ----- The step on a register array -----

  method ExecuteBinary(kind: Arith, regs: array<nat>, code: seq<Byte>) returns (res: Result<nat, ExecError>)
    modifies regs
    ensures Effect(res, regs[..]) == Binary(kind, old(regs[..]), code)
  {
    var r1 := Read(code, 8, 4);
    if r1.None? { return Failure(ReadInstruction); }
    if r1.value >= regs.Length { return Failure(RegisterNotFound); }
    var v1 := regs[r1.value];
    var d := Read(code, 12, 4);
    if d.None? { return Failure(ReadInstruction); }
    if d.value >= regs.Length { return Failure(RegisterNotFound); }
    var v2 := regs[d.value];
    var v := Arithmetic(kind, v1, v2);
    if v.None? { return Failure(ArithmeticPanic); }
    SetRegistrador(regs, d.value, v.value);
    return Success(2);
  }

  method ExecuteClear(regs: array<nat>, code: seq<Byte>) returns (res: Result<nat, ExecError>)
    modifies regs
    ensures Effect(res, regs[..]) == Clear(old(regs[..]), code)
  {
    var r1 := Read(code, 8, 4);
    if r1.None? { return Failure(ReadInstruction); }
    SetRegistrador(regs, r1.value, 0);
    return Success(2);
  }

  method UpdateConditionCode(regs: array<nat>, a: nat, b: nat)
    requires regs.Length == REGISTER_COUNT
    modifies regs
    ensures regs[..] == SetConditionCode(old(regs[..]), a, b)
  {
    var sw := regs[SW];
    if a > b {
      SetRegistrador(regs, SW, BitAnd(sw, 0xFDFFFF));
      SetRegistrador(regs, SW, BitOr(sw, 0x010000));
    } else if a < b {
      SetRegistrador(regs, SW, BitOr(sw, 0x018000));
    } else {
      SetRegistrador(regs, SW, BitAnd(sw, 0xFCFFFF));
    }
  }

  method ExecuteCompare(regs: array<nat>, code: seq<Byte>) returns (res: Result<nat, ExecError>)
    requires regs.Length == REGISTER_COUNT
    modifies regs
    ensures Effect(res, regs[..]) == Compare(old(regs[..]), code)
  {
    var r1 := Read(code, 8, 4);
    if r1.None? { return Failure(ReadInstruction); }
    if r1.value >= regs.Length { return Failure(RegisterNotFound); }
    var v1 := regs[r1.value];
    var r2 := Read(code, 12, 4);
    if r2.None? { return Failure(ReadInstruction); }
    if r2.value >= regs.Length { return Failure(RegisterNotFound); }
    var v2 := regs[r2.value];
    UpdateConditionCode(regs, v1, v2);
    return Success(2);
  }

  method ExecuteMove(regs: array<nat>, code: seq<Byte>) returns (res: Result<nat, ExecError>)
    modifies regs
    ensures Effect(res, regs[..]) == Move(old(regs[..]), code)
  {
    var r1 := Read(code, 8, 4);
    if r1.None? { return Failure(ReadInstruction); }
    if r1.value >= regs.Length { return Failure(RegisterNotFound); }
    var v1 := regs[r1.value];
    var r2 := Read(code, 12, 4);
    if r2.None? { return Failure(ReadInstruction); }
    SetRegistrador(regs, r2.value, v1);
    return Success(2);
  }

  method ExecuteShift(left: bool, regs: array<nat>, code: seq<Byte>) returns (res: Result<nat, ExecError>)
    modifies regs
    ensures Effect(res, regs[..]) == Shift(left, old(regs[..]), code)
  {
    var d := Read(code, 8, 4);
    if d.None? { return Failure(ReadInstruction); }
    if d.value >= regs.Length { return Failure(RegisterNotFound); }
    var v := regs[d.value];
    var bits := Read(code, 12, 4);
    if bits.None? { return Failure(ReadInstruction); }
    SetRegistrador(regs, d.value, if left then Shl64(v, bits.value) else Shr(v, bits.value));
    return Success(2);
  }

  method ExecuteTestIndex(regs: array<nat>, code: seq<Byte>) returns (res: Result<nat, ExecError>)
    requires regs.Length == REGISTER_COUNT
    modifies regs
    ensures Effect(res, regs[..]) == TestIndex(old(regs[..]), code)
  {
    var x := regs[X];
    SetRegistrador(regs, X, x + 1);
    var r1 := Read(code, 8, 4);
    if r1.None? { return Failure(ReadInstruction); }
    if r1.value >= regs.Length { return Failure(RegisterNotFound); }
    var v := regs[r1.value];
    UpdateConditionCode(regs, x, v);
    return Success(2);
  }

  method ExecuteDispatch(codes: OpcodeTable, regs: array<nat>, opcode: nat, value: nat, length: nat)
    returns (res: Result<nat, ExecError>)
    requires regs.Length == REGISTER_COUNT
    modifies regs
    ensures Effect(res, regs[..]) == Dispatch(codes, old(regs[..]), opcode, value, length)
  {
    if opcode == codes(ADD) {
      SetRegistrador(regs, A, regs[A] + value);
    } else if opcode == codes(AND) {
      SetRegistrador(regs, A, BitAnd(regs[A], value));
    } else if opcode == codes(OR) {
      SetRegistrador(regs, A, BitOr(regs[A], value));
    } else if opcode == codes(RSUB) {
      SetRegistrador(regs, PC, regs[L]);
    } else if opcode == codes(J) {
      SetRegistrador(regs, PC, value);
    } else if opcode == codes(JEQ) {
      var cc := BitAnd(regs[SW], 0x018000);
      if cc == 0 {
        SetRegistrador(regs, PC, value);
      }
    } else if opcode == codes(JGT) {
      var cc := BitAnd(regs[SW], 0x018000);
      if cc == 0x010000 {
        SetRegistrador(regs, PC, value);
      }
    } else {
      return Failure(InvalidInstruction);
    }
    return Success(length);
  }

  method ExecuteFormat34(codes: OpcodeTable, regs: array<nat>, mem: array<Byte>, code: seq<Byte>, op: nat)
    returns (res: Result<nat, ExecError>)
    requires regs.Length == REGISTER_COUNT
    modifies regs
    ensures Effect(res, regs[..]) == Format34(codes, old(regs[..]), mem[..], code, op)
  {
    ghost var before := regs[..];
    var mode := op % 4;
    var flags := Read(code, 8, if mode == 0 then 1 else 4);
    if flags.None? { return Failure(ReadFlags); }
    var operand := Operand(regs[..], mem[..], code, mode, flags.value);
    if operand.Failure? { return Failure(operand.error); }
    var (value, length) := operand.value;
    assert Format34(codes, before, mem[..], code, op) == Dispatch(codes, before, op - mode, value, length);
    res := ExecuteDispatch(codes, regs, op - mode, value, length);
  }

  /** The match on the opcode byte: runs the arm `op` selects on the register array. */
  method ExecuteInstruction(codes: OpcodeTable, regs: array<nat>, mem: array<Byte>, code: seq<Byte>, op: nat)
    returns (res: Result<nat, ExecError>)
    requires regs.Length == REGISTER_COUNT
    modifies regs
    ensures Effect(res, regs[..]) == Instruction(codes, old(regs[..]), mem[..], code, op)
  {
    if op == codes(ADDR) {
      res := ExecuteBinary(Sum, regs, code);
    } else if op == codes(CLEAR) {
      res := ExecuteClear(regs, code);
    } else if op == codes(COMPR) {
      res := ExecuteCompare(regs, code);
    } else if op == codes(DIVR) {
      res := ExecuteBinary(Quotient, regs, code);
    } else if op == codes(MULR) {
      res := ExecuteBinary(Product, regs, code);
    } else if op == codes(RMO) {
      res := ExecuteMove(regs, code);
    } else if op == codes(SHIFTL) {
      res := ExecuteShift(true, regs, code);
    } else if op == codes(SHIFTR) {
      res := ExecuteShift(false, regs, code);
    } else if op == codes(SUBR) {
      res := ExecuteBinary(Difference, regs, code);
    } else if op == codes(TIXR) {
      res := ExecuteTestIndex(regs, code);
    } else {
      res := ExecuteFormat34(codes, regs, mem, code, op);
    }
  }

  /** `executar_instrucao`: one step on the register array; memory is only read. */
  method ExecutarInstrucao(codes: OpcodeTable, regs: array<nat>, mem: array<Byte>) returns (result: Outcome<ExecError>)
    requires regs.Length == REGISTER_COUNT
    modifies regs
    ensures Step(result, regs[..]) == Execute(codes, old(regs[..]), mem[..])
  {
    ghost var before := regs[..];
    var pc := regs[PC];
    if pc > mem.Length {
      return Fail(InvalidPc);
    }
    var code := mem[pc..];
    var length := 2;
    var opcode := Read(code, 0, 8);
    if opcode.Some? {
      var res := ExecuteInstruction(codes, regs, mem, code, opcode.value);
      assert Execute(codes, before, mem[..]) == Finish(Effect(res, regs[..]));
      if res.Failure? {
        return Fail(res.error);
      }
      length := res.value;
    } else {
      assert Execute(codes, before, mem[..]) == Step(Pass, SetReg(before, PC, pc + 2));
    }
    SetRegistrador(regs, PC, regs[PC] + length);
    return Pass;
  }
}
