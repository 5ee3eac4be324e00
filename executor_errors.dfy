/**
 * What a failing step leaves behind, and the two PC values at and past
 * the end of memory.
 */
module ExecutorErrors {
  import opened Outcomes
  import opened Bits
  import opened Constants
  import opened Executor

  /** An effect that failed left the registers as they were. */
  predicate KeptOnFailure(e: Effect, regs: seq<nat>) {
    e.result.Failure? ==> e.regs == regs
  }

  /** Every operand instruction fails before it writes a register. */
  lemma {:induction false} Format34Keeps(codes: OpcodeTable, regs: seq<nat>, mem: seq<Byte>, code: seq<Byte>, op: nat)
    requires |regs| == REGISTER_COUNT
    ensures KeptOnFailure(Format34(codes, regs, mem, code, op), regs)
  {
  }

  /** So does every register-to-register instruction except TIXR. */
  lemma {:induction false} RegisterArmsKeep(regs: seq<nat>, code: seq<Byte>)
    requires |regs| == REGISTER_COUNT
    ensures forall kind :: KeptOnFailure(Binary(kind, regs, code), regs)
    ensures KeptOnFailure(Clear(regs, code), regs)
    ensures KeptOnFailure(Compare(regs, code), regs)
    ensures KeptOnFailure(Move(regs, code), regs)
    ensures forall left :: KeptOnFailure(Shift(left, regs, code), regs)
  {
  }

  /** TIXR increments X before it reads its register nibble, so its failures keep that write. */
  lemma {:induction false} TestIndexFailure(regs: seq<nat>, code: seq<Byte>)
    requires |regs| == REGISTER_COUNT
    ensures TestIndex(regs, code).result.Failure? ==> TestIndex(regs, code).regs == SetReg(regs, X, regs[X] + 1)
  {
  }

  /** A failing instruction changed nothing, unless it was TIXR, which changed only X. */
  lemma {:induction false} InstructionKeeps(codes: OpcodeTable, regs: seq<nat>, mem: seq<Byte>, code: seq<Byte>, op: nat)
    requires |regs| == REGISTER_COUNT
    ensures
      var e := Instruction(codes, regs, mem, code, op);
      e.result.Failure? ==> e.regs == regs || (op == codes(TIXR) && e.regs == SetReg(regs, X, regs[X] + 1))
  {
    var e := Instruction(codes, regs, mem, code, op);
    RegisterArmsKeep(regs, code);
    if op == codes(ADDR) {
      assert e == Binary(Sum, regs, code);
    } else if op == codes(CLEAR) {
      assert e == Clear(regs, code);
    } else if op == codes(COMPR) {
      assert e == Compare(regs, code);
    } else if op == codes(DIVR) {
      assert e == Binary(Quotient, regs, code);
    } else if op == codes(MULR) {
      assert e == Binary(Product, regs, code);
    } else if op == codes(RMO) {
      assert e == Move(regs, code);
    } else if op == codes(SHIFTL) {
      assert e == Shift(true, regs, code);
    } else if op == codes(SHIFTR) {
      assert e == Shift(false, regs, code);
    } else if op == codes(SUBR) {
      assert e == Binary(Difference, regs, code);
    } else if op == codes(TIXR) {
      TestIndexFailure(regs, code);
    } else {
      Format34Keeps(codes, regs, mem, code, op);
    }
  }

  /**
   * A failing step leaves PC where it was and every other register as it
   * was, except that a failing TIXR has already incremented X.
   */
  lemma {:induction false} ErrorsKeepState(codes: OpcodeTable, regs: seq<nat>, mem: seq<Byte>)
    requires |regs| == REGISTER_COUNT
    ensures
      var r := Execute(codes, regs, mem);
      r.outcome.Fail? ==>
        && r.regs[PC] == regs[PC]
        && (r.regs == regs || (regs[PC] < |mem| && mem[regs[PC]] as nat == codes(TIXR) && r.regs == SetReg(regs, X, regs[X] + 1)))
  {
    if regs[PC] < |mem| {
      var code := mem[regs[PC]..];
      ReadBitsByte(code, 0);
      assert Read(code, 0, 8) == Some(mem[regs[PC]] as nat);
      InstructionKeeps(codes, regs, mem, code, mem[regs[PC]] as nat);
    }
  }

  /** A PC beyond the end of memory is an error that changes nothing. */
  lemma {:induction false} PcPastMemory(codes: OpcodeTable, regs: seq<nat>, mem: seq<Byte>)
    requires |regs| == REGISTER_COUNT && regs[PC] > |mem|
    ensures Execute(codes, regs, mem) == Step(Fail(InvalidPc), regs)
  {
  }

  /** A PC at the end of memory fetches no opcode, and the step succeeds with PC moved by 2. */
  lemma {:induction false} PcAtMemoryEnd(codes: OpcodeTable, regs: seq<nat>, mem: seq<Byte>)
    requires |regs| == REGISTER_COUNT && regs[PC] == |mem|
    ensures Execute(codes, regs, mem) == Step(Pass, SetReg(regs, PC, regs[PC] + 2))
  {
  }
}
