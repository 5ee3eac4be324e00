/**
 * The SIC/XE machine: it owns the ten registers and the 32768 bytes of
 * memory, loads programs at 0x6000 and runs one instruction at a time
 * through the executor.
 */
module Machine {
  import opened Outcomes
  import opened Bits
  import opened Constants
  import opened Executor
  import opened ExecutorOperands

  /** Programs are loaded at this address. */
  const LOAD_ADDRESS: nat := 0x6000

  /** The one error of `Carregar`: the program does not fit between 0x6000 and the end of memory. */
  datatype LoadError = ProgramTooLarge

  /** Memory after copying `program` to LOAD_ADDRESS. */
  function Loaded(mem: seq<Byte>, program: seq<Byte>): (r: seq<Byte>)
    requires LOAD_ADDRESS + |program| <= |mem|
    ensures |r| == |mem|
    ensures forall i :: 0 <= i < |program| ==> r[LOAD_ADDRESS + i] == program[i]
    ensures forall k :: 0 <= k < |mem| && !(LOAD_ADDRESS <= k < LOAD_ADDRESS + |program|) ==> r[k] == mem[k]
  {
    mem[..LOAD_ADDRESS] + program + mem[LOAD_ADDRESS + |program|..]
  }

  class Maquina {
    const registradores: array<nat>
    const memoria: array<Byte>

    /** Ten registers, each within its width, and the whole memory. */
    predicate Valid()
      reads this, registradores, memoria
    {
      && registradores.Length == REGISTER_COUNT
      && memoria.Length == MEMORY_SIZE
      && Reduced(registradores[..])
    }

    /** `new`: every register and every memory byte is zero. */
    constructor ()
      ensures Valid() && fresh(registradores) && fresh(memoria)
      ensures forall i :: 0 <= i < registradores.Length ==> registradores[i] == 0
      ensures forall k :: 0 <= k < memoria.Length ==> memoria[k] == 0
    {
      registradores := new nat[REGISTER_COUNT](_ => 0);
      memoria := new Byte[MEMORY_SIZE](_ => 0);
    }

    /**
     * `carregar`: copy the program to 0x6000 and point PC at it. A program
     * that does not fit changes nothing.
     */
    method Carregar(programa: seq<Byte>) returns (r: Outcome<LoadError>)
      requires Valid()
      modifies registradores, memoria
      ensures Valid()
      ensures r.Fail? <==> LOAD_ADDRESS + |programa| > MEMORY_SIZE
      ensures r.Fail? ==> memoria[..] == old(memoria[..]) && registradores[..] == old(registradores[..])
      ensures r.Pass? ==> memoria[..] == Loaded(old(memoria[..]), programa)
      ensures r.Pass? ==> registradores[..] == SetReg(old(registradores[..]), PC, LOAD_ADDRESS)
    {
      if LOAD_ADDRESS + |programa| > memoria.Length {
        return Fail(ProgramTooLarge);
      }
      var i := 0;
      while i < |programa|
        invariant 0 <= i <= |programa|
        invariant registradores[..] == old(registradores[..])
        invariant forall k :: 0 <= k < memoria.Length && !(LOAD_ADDRESS <= k < LOAD_ADDRESS + i) ==> memoria[k] == old(memoria[k])
        invariant forall j :: 0 <= j < i ==> memoria[LOAD_ADDRESS + j] == programa[j]
      {
        memoria[LOAD_ADDRESS + i] := programa[i];
        i := i + 1;
      }
      assert memoria[..] == Loaded(old(memoria[..]), programa) by {
        var loaded := Loaded(old(memoria[..]), programa);
        forall k | 0 <= k < memoria.Length
          ensures memoria[k] == loaded[k]
        {
          if LOAD_ADDRESS <= k < LOAD_ADDRESS + |programa| {
            assert memoria[LOAD_ADDRESS + (k - LOAD_ADDRESS)] == programa[k - LOAD_ADDRESS];
          }
        }
      }
      SetRegistrador(registradores, PC, LOAD_ADDRESS);
      return Pass;
    }

    /** `registrador`: the value of register n, if there is one. */
    function Registrador(n: nat): (r: Option<nat>)
      requires registradores.Length == REGISTER_COUNT
      reads registradores
      ensures r.Some? <==> n < REGISTER_COUNT
      ensures r.Some? ==> r.value == registradores[n]
    {
      if n < registradores.Length then Some(registradores[n]) else None
    }

    /** `executar_instrucao`: one executor step on the machine's own registers; memory is only read. */
    method ExecutarInstrucao(codes: OpcodeTable) returns (r: Outcome<ExecError>)
      requires Valid()
      modifies registradores
      ensures Valid()
      ensures Step(r, registradores[..]) == Execute(codes, old(registradores[..]), memoria[..])
      ensures memoria[..] == old(memoria[..])
    {
      r := Executor.ExecutarInstrucao(codes, registradores, memoria);
    }
  }

  // ----- The machine's test programs -----

  /** Three copies of 19 00 01, ADD immediate 1. */
  const ADD_ONE_THRICE: seq<Byte> := [0x19, 0x00, 0x01, 0x19, 0x00, 0x01, 0x19, 0x00, 0x01]

  /** Each ADD-immediate step adds 1 to A and moves PC past its three bytes. */
  lemma {:induction false} AddOneStep(codes: OpcodeTable, regs: seq<nat>, mem: seq<Byte>, a: nat)
    requires ValidCodes(codes) && Reduced(regs) && regs[A] == a && a + 1 < WORD_LIMIT
    requires regs[PC] + 2 < |mem| <= MEMORY_SIZE
    requires mem[regs[PC]] == 0x19 && mem[regs[PC] + 1] == 0x00 && mem[regs[PC] + 2] == 0x01
    ensures
      var s := Execute(codes, regs, mem);
      s.outcome == Pass && Reduced(s.regs) && s.regs[A] == a + 1 && s.regs[PC] == regs[PC] + 3
  {
    AddImmediateStep(codes, regs, mem);
    AddedOne(regs, a);
  }

  lemma {:induction false} AddedOne(regs: seq<nat>, a: nat)
    requires Reduced(regs) && regs[A] == a && a + 1 < WORD_LIMIT && regs[PC] + 3 < WORD_LIMIT
    ensures
      var r := SetReg(SetReg(regs, A, regs[A] + 1), PC, regs[PC] + 3);
      Reduced(r) && r[A] == a + 1 && r[PC] == regs[PC] + 3
  {
  }

  /**
   * Run from PC over three ADD-immediate instructions followed by three
   * zero bytes: A goes through 1, 2 and 3, and the fourth step fails,
   * because opcode 0 (LDA) is not one the machine executes.
   */
  lemma {:induction false} ThreeAdds(codes: OpcodeTable, regs: seq<nat>, mem: seq<Byte>)
    requires ValidCodes(codes) && codes(LDA) == 0 && Reduced(regs) && regs[A] == 0
    requires regs[PC] + 11 < |mem| <= MEMORY_SIZE
    requires mem[regs[PC]..regs[PC] + 9] == ADD_ONE_THRICE
    requires mem[regs[PC] + 9..regs[PC] + 12] == [0, 0, 0]
    ensures
      var s1 := Execute(codes, regs, mem);
      var s2 := Execute(codes, s1.regs, mem);
      var s3 := Execute(codes, s2.regs, mem);
      var s4 := Execute(codes, s3.regs, mem);
      && s1.outcome == Pass && s1.regs[A] == 1
      && s2.outcome == Pass && s2.regs[A] == 2
      && s3.outcome == Pass && s3.regs[A] == 3
      && s4.outcome.Fail?
  {
    var pc := regs[PC];
    ProgramBytes(mem, pc);
    AddOneStep(codes, regs, mem, 0);
    var s1 := Execute(codes, regs, mem);
    AddOneStep(codes, s1.regs, mem, 1);
    var s2 := Execute(codes, s1.regs, mem);
    AddOneStep(codes, s2.regs, mem, 2);
    var s3 := Execute(codes, s2.regs, mem);
    ZeroBytesStep(codes, s3.regs, mem);
  }

  lemma {:induction false} ProgramBytes(mem: seq<Byte>, pc: nat)
    requires pc + 11 < |mem|
    requires mem[pc..pc + 9] == ADD_ONE_THRICE
    requires mem[pc + 9..pc + 12] == [0, 0, 0]
    ensures mem[pc] == 0x19 && mem[pc + 1] == 0 && mem[pc + 2] == 1
    ensures mem[pc + 3] == 0x19 && mem[pc + 4] == 0 && mem[pc + 5] == 1
    ensures mem[pc + 6] == 0x19 && mem[pc + 7] == 0 && mem[pc + 8] == 1
    ensures mem[pc + 9] == 0 && mem[pc + 10] == 0 && mem[pc + 11] == 0
  {
    assert mem[pc..pc + 9][0] == mem[pc] && mem[pc..pc + 9][1] == mem[pc + 1] && mem[pc..pc + 9][2] == mem[pc + 2];
    assert mem[pc..pc + 9][3] == mem[pc + 3] && mem[pc..pc + 9][4] == mem[pc + 4] && mem[pc..pc + 9][5] == mem[pc + 5];
    assert mem[pc..pc + 9][6] == mem[pc + 6] && mem[pc..pc + 9][7] == mem[pc + 7] && mem[pc..pc + 9][8] == mem[pc + 8];
    assert mem[pc + 9..pc + 12][0] == mem[pc + 9] && mem[pc + 9..pc + 12][1] == mem[pc + 10];
    assert mem[pc + 9..pc + 12][2] == mem[pc + 11];
  }

  /**
   * The machine's own test: a new machine loads three ADD-immediate
   * instructions; three steps leave A at 1, 2 and 3, and the fourth fails.
   */
  method ProgramaComMultiplasInstrucoes(codes: OpcodeTable)
    returns (a1: Option<nat>, a2: Option<nat>, a3: Option<nat>, last: Outcome<ExecError>)
    requires ValidCodes(codes) && codes(LDA) == 0
    ensures a1 == Some(1) && a2 == Some(2) && a3 == Some(3) && last.Fail?
  {
    var maquina := new Maquina();
    var loaded := maquina.Carregar(ADD_ONE_THRICE);
    ghost var mem := maquina.memoria[..];
    ghost var regs := maquina.registradores[..];
    assert regs[A] == 0 && regs[PC] == LOAD_ADDRESS;
    assert mem[LOAD_ADDRESS..LOAD_ADDRESS + 9] == ADD_ONE_THRICE;
    assert mem[LOAD_ADDRESS + 9..LOAD_ADDRESS + 12] == [0, 0, 0];
    ThreeAdds(codes, regs, mem);
    var r := maquina.ExecutarInstrucao(codes);
    a1 := maquina.Registrador(A);
    r := maquina.ExecutarInstrucao(codes);
    a2 := maquina.Registrador(A);
    r := maquina.ExecutarInstrucao(codes);
    a3 := maquina.Registrador(A);
    last := maquina.ExecutarInstrucao(codes);
  }
}
