/**
 * The layout of the code the second pass emits: its length agrees with the
 * first pass's location counter, and the bytes the loader decodes from it
 * are the fields the executor reads back.
 */
module AssemblerLayout {
  import opened Outcomes
  import opened Bits
  import opened Text
  import opened Constants
  import opened OperationTable
  import opened RegisterTable
  import opened Assembler
  import opened AssemblerEncoding
  import opened Loader
  import opened Executor
  import opened ExecutorProperties
  import opened ExecutorOperands

  // ----- Small facts about the digits -----

  /** OR-ing a mode below 4 into an opcode with two clear low bits adds it. */
  lemma {:induction false} OrLowBits(c: nat, m: nat)
    requires c % 4 == 0 && m < 4
    ensures BitOr(c, m) == c + m
  {
    var q := c / 4;
    assert c == 4 * q && c / 2 == 2 * q && c / 2 / 2 == q;
    OrZero(q);
    OrUnfold(c / 2, m / 2);
    assert BitOr(c / 2, m / 2) == 2 * q + m / 2;
    OrUnfold(c, m);
  }

  lemma {:induction false} OrZero(y: nat)
    ensures BitOr(y, 0) == y
    decreases y
  {
    OrUnfold(y, 0);
    if y > 0 {
      OrZero(y / 2);
    }
  }

  /** The opcode byte `{:02X}` of `hex|mode` is two digits. */
  lemma {:induction false} OpcodeByteDigits(c: nat, mode: nat)
    requires c < 0x100 && mode <= 3
    ensures BitOr(c, mode) < 0x100
    ensures HexPadded(BitOr(c, mode), 2) == [HexDigit(BitOr(c, mode) / 16), HexDigit(BitOr(c, mode) % 16)]
  {
    Pow2Values();
    OrBelow(c, mode, 8);
    HexPaddedByte(BitOr(c, mode));
  }

  /** Three pairs of digits decode to three bytes. */
  lemma {:induction false} DecodeThree(a: nat, b: nat, c: nat, d: nat, e: nat, f: nat)
    requires a < 16 && b < 16 && c < 16 && d < 16 && e < 16 && f < 16
    ensures DecodePairs([HexDigit(a), HexDigit(b), HexDigit(c), HexDigit(d), HexDigit(e), HexDigit(f)])
      == [(16 * a + b) as Byte, (16 * c + d) as Byte, (16 * e + f) as Byte]
    ensures NoWhitespace([HexDigit(a), HexDigit(b), HexDigit(c), HexDigit(d), HexDigit(e), HexDigit(f)])
  {
    var s := [HexDigit(a), HexDigit(b), HexDigit(c), HexDigit(d), HexDigit(e), HexDigit(f)];
    DecodeOne(e, f, "");
    assert s[4..] == [HexDigit(e), HexDigit(f)] + "";
    DecodeOne(c, d, s[4..]);
    assert s[2..] == [HexDigit(c), HexDigit(d)] + s[4..];
    DecodeOne(a, b, s[2..]);
    assert s == [HexDigit(a), HexDigit(b)] + s[2..];
    DigitsUntrimmed(e, f, "");
    DigitsUntrimmed(c, d, s[4..]);
    DigitsUntrimmed(a, b, s[2..]);
  }

  /** Four pairs of digits decode to four bytes. */
  lemma {:induction false} DecodeFour(a: nat, b: nat, c: nat, d: nat, e: nat, f: nat, g: nat, h: nat)
    requires a < 16 && b < 16 && c < 16 && d < 16 && e < 16 && f < 16 && g < 16 && h < 16
    ensures DecodePairs([HexDigit(a), HexDigit(b), HexDigit(c), HexDigit(d), HexDigit(e), HexDigit(f), HexDigit(g), HexDigit(h)])
      == [(16 * a + b) as Byte, (16 * c + d) as Byte, (16 * e + f) as Byte, (16 * g + h) as Byte]
    ensures NoWhitespace([HexDigit(a), HexDigit(b), HexDigit(c), HexDigit(d), HexDigit(e), HexDigit(f), HexDigit(g), HexDigit(h)])
  {
    var s := [HexDigit(a), HexDigit(b), HexDigit(c), HexDigit(d), HexDigit(e), HexDigit(f), HexDigit(g), HexDigit(h)];
    DecodeThree(c, d, e, f, g, h);
    assert s[2..] == [HexDigit(c), HexDigit(d), HexDigit(e), HexDigit(f), HexDigit(g), HexDigit(h)];
    DecodeOne(a, b, s[2..]);
    assert s == [HexDigit(a), HexDigit(b)] + s[2..];
    DigitsUntrimmed(a, b, s[2..]);
  }

  /** Hexadecimal digits carry no whitespace for the decoder's trim to remove. */
  lemma {:induction false} DigitsUntrimmed(a: nat, b: nat, rest: string)
    requires a < 16 && b < 16 && NoWhitespace(rest)
    ensures NoWhitespace([HexDigit(a), HexDigit(b)] + rest)
  {
    HexDigitNotWhitespace(a);
    HexDigitNotWhitespace(b);
  }

  lemma {:induction false} DecodeOne(hi: nat, lo: nat, rest: string)
    requires hi < 16 && lo < 16
    ensures DecodePairs([HexDigit(hi), HexDigit(lo)] + rest) == [(16 * hi + lo) as Byte] + DecodePairs(rest)
  {
    ParseHexPair(hi, lo);
    ValidPairKept([HexDigit(hi), HexDigit(lo)], rest);
  }

  // ----- Two-byte instructions -----

  /** Four digits of a two-byte instruction decode to the opcode and the byte of the two register nibbles. */
  lemma {:induction false} DecodeRegisters(c: nat, r1: nat, r2: nat)
    requires c < 0x100 && r1 < 16 && r2 < 16
    ensures var bytes := DecodeHex([HexDigit(c / 16), HexDigit(c % 16)] + [HexDigit(r1), HexDigit(r2)]);
      && |bytes| == 2 && bytes[0] as nat == c
      && Read(bytes, 8, 4) == Some(r1) && Read(bytes, 12, 4) == Some(r2)
  {
    var tail := [HexDigit(r1), HexDigit(r2)];
    var text := [HexDigit(c / 16), HexDigit(c % 16)] + tail;
    DigitsUntrimmed(r1, r2, "");
    assert tail == tail + "";
    DigitsUntrimmed(c / 16, c % 16, tail);
    TrimUnchanged(text);
    DecodeOne(r1, r2, "");
    DecodeOne(c / 16, c % 16, tail);
    var bytes := DecodeHex(text);
    assert bytes == [c as Byte] + [(16 * r1 + r2) as Byte];
    Nibbles(bytes);
    NibbleSplit(r1, r2);
  }

  /**
   * A two-byte instruction is four digits that decode to the opcode and a
   * byte whose nibbles are the two registers the executor reads; CLEAR and
   * TIXR have 0 as their second register.
   */
  lemma {:induction false} RegisterRoundTrip(codes: OpcodeTable, hex: Opcode, operand: string, text: string)
    requires codes(hex) < 0x100
    requires EncodeRegisters(codes, hex, operand) == Success(text)
    ensures |text| == 4
    ensures
      var bytes := DecodeHex(text);
      && |bytes| == 2 && bytes[0] as nat == codes(hex)
      && (codes(hex) == codes(CLEAR) || codes(hex) == codes(TIXR) ==>
            Read(bytes, 8, 4) == ResolveRegister(operand) && Read(bytes, 12, 4) == Some(0))
      && (codes(hex) != codes(CLEAR) && codes(hex) != codes(TIXR) ==>
            var pair := SplitOnce(Trim(operand), ',').value;
            Read(bytes, 8, 4) == ResolveRegister(pair.0) && Read(bytes, 12, 4) == ResolveRegister(pair.1))
  {
    var c := codes(hex);
    if c == codes(CLEAR) || c == codes(TIXR) {
      var r1 := ResolveRegister(operand).value;
      SingleRegisterText(codes, hex, operand);
      DecodeRegisters(c, r1, 0);
    } else {
      var pair := SplitOnce(Trim(operand), ',').value;
      PairRegisterText(codes, hex, operand);
      DecodeRegisters(c, ResolveRegister(pair.0).value, ResolveRegister(pair.1).value);
    }
  }

  /** The digits of CLEAR and TIXR: the opcode, the register, and 0. */
  lemma {:induction false} SingleRegisterText(codes: OpcodeTable, hex: Opcode, operand: string)
    requires codes(hex) < 0x100 && (codes(hex) == codes(CLEAR) || codes(hex) == codes(TIXR))
    requires ResolveRegister(operand).Some?
    ensures var c, r1 := codes(hex), ResolveRegister(operand).value;
      EncodeRegisters(codes, hex, operand) == Success([HexDigit(c / 16), HexDigit(c % 16)] + [HexDigit(r1), HexDigit(0)])
  {
    var c, r1 := codes(hex), ResolveRegister(operand).value;
    assert EncodeRegisters(codes, hex, operand) == Success(HexPadded(c, 2) + ToHex(r1) + "0");
    HexPaddedByte(c);
    ToHexDigit(r1);
    assert "0" == [HexDigit(0)];
    assert HexPadded(c, 2) + ToHex(r1) + "0" == [HexDigit(c / 16), HexDigit(c % 16)] + [HexDigit(r1), HexDigit(0)];
  }

  /** The digits of the other two-byte instructions: the opcode and the two registers. */
  lemma {:induction false} PairRegisterText(codes: OpcodeTable, hex: Opcode, operand: string)
    requires codes(hex) < 0x100 && codes(hex) != codes(CLEAR) && codes(hex) != codes(TIXR)
    requires EncodeRegisters(codes, hex, operand).Success?
    ensures SplitOnce(Trim(operand), ',').Some?
    ensures var pair := SplitOnce(Trim(operand), ',').value;
      && ResolveRegister(pair.0).Some? && ResolveRegister(pair.1).Some?
      && var c, r1, r2 := codes(hex), ResolveRegister(pair.0).value, ResolveRegister(pair.1).value;
      EncodeRegisters(codes, hex, operand) == Success([HexDigit(c / 16), HexDigit(c % 16)] + [HexDigit(r1), HexDigit(r2)])
  {
    var c := codes(hex);
    var opcode := HexPadded(c, 2);
    var pair := SplitOnce(Trim(operand), ',').value;
    var r1, r2 := ResolveRegister(pair.0).value, ResolveRegister(pair.1).value;
    assert EncodeRegisters(codes, hex, operand) == Success(opcode + ToHex(r1) + ToHex(r2));
    HexPaddedByte(c);
    ToHexDigit(r1);
    ToHexDigit(r2);
    assert opcode + ToHex(r1) + ToHex(r2) == [HexDigit(c / 16), HexDigit(c % 16)] + [HexDigit(r1), HexDigit(r2)];
  }

  /** A pair of digits at the front of the text is decoded first. */
  lemma {:induction false} PairAt(s: string, hi: nat, lo: nat)
    requires hi < 16 && lo < 16 && |s| >= 2 && s[0] == HexDigit(hi) && s[1] == HexDigit(lo)
    ensures DecodePairs(s) == [(16 * hi + lo) as Byte] + DecodePairs(s[2..])
  {
    assert s[..2] == [HexDigit(hi), HexDigit(lo)];
    ParseHexPair(hi, lo);
  }

  /** Text of whole pairs decodes on its own: what follows it starts at a pair boundary. */
  lemma {:induction false} DecodeAppend(a: string, b: string)
    requires |a| % 2 == 0
    ensures DecodePairs(a + b) == DecodePairs(a) + DecodePairs(b)
    decreases |a|
  {
    if |a| >= 2 {
      var ab := a + b;
      assert ab[..2] == a[..2];
      assert ab[2..] == a[2..] + b;
      DecodeAppend(a[2..], b);
      calc {
        DecodePairs(ab);
        Bytes(PairByte(a[..2])) + DecodePairs(a[2..] + b);
        Bytes(PairByte(a[..2])) + (DecodePairs(a[2..]) + DecodePairs(b));
        (Bytes(PairByte(a[..2])) + DecodePairs(a[2..])) + DecodePairs(b);
        DecodePairs(a) + DecodePairs(b);
      }
    } else {
      assert |a| == 0;
      assert a + b == b;
    }
  }

  /**
   * As written, CLEAR and TIXR are the four digits of the two bytes and one
   * more "0", so the code after them is read one digit out of step: the
   * decoder pairs that "0" with the first digit of the next instruction.
   */
  lemma {:induction false} SingleRegisterMisaligns(codes: OpcodeTable, hex: Opcode, operand: string, next: string)
    requires codes(hex) == codes(CLEAR) || codes(hex) == codes(TIXR)
    requires EncodeRegisters(codes, hex, operand).Success?
    ensures EncodeRegistersAsWritten(codes, hex, operand) == Success(EncodeRegisters(codes, hex, operand).value + "0")
    ensures codes(hex) < 0x100 ==>
      var text := EncodeRegisters(codes, hex, operand).value;
      DecodePairs(text + "0" + next) == DecodePairs(text) + DecodePairs("0" + next)
  {
    var text := EncodeRegisters(codes, hex, operand).value;
    var prefix := HexPadded(codes(hex), 2) + ToHex(ResolveRegister(operand).value);
    assert text == prefix + "0";
    assert EncodeRegistersAsWritten(codes, hex, operand) == Success(prefix + "00");
    assert prefix + "00" == text + "0";
    if codes(hex) < 0x100 {
      SingleRegisterText(codes, hex, operand);
      assert text + "0" + next == text + ("0" + next);
      DecodeAppend(text, "0" + next);
    }
  }

  /** With the standard opcodes, `CLEAR A` is written B4000 as the source has it, and B400 as corrected. */
  lemma {:induction false} ClearEncodings()
    ensures EncodeRegistersAsWritten(StandardCode, CLEAR, "A") == Success("B4000")
    ensures EncodeRegisters(StandardCode, CLEAR, "A") == Success("B400")
  {
    ClearDigits();
    SingleRegisterMisaligns(StandardCode, CLEAR, "A", "");
    assert "B400" + "0" == "B4000";
  }

  lemma {:induction false} ClearDigits()
    ensures EncodeRegisters(StandardCode, CLEAR, "A") == Success("B400")
  {
    HexPaddedByte(0xB4);
    assert RegisterIndex("A") == Some(0);
    assert ResolveRegister("A") == Some(0);
    assert ToHex(0) == "0";
    assert HexPadded(StandardCode(CLEAR), 2) + ToHex(0) + "0" == "B400";
  }

  /** `ADD #1` with the standard opcodes: 0x18 with immediate mode 1, the flag nibble 0 and the value 001. */
  lemma {:induction false} AddOneEncoding(table: SymbolTable)
    requires "1" !in table
    ensures EncodeOperand(StandardCode, table, ADD, 3, "#1") == Success("190001")
  {
    assert "#1"[..1] == "#" && "#1"[1..] == "1" && StartsWith("#1", "#");
    assert "1"[..1] != "#" && !StartsWith("1", "#") && !StartsWith("1", "@");
    assert TrimStartMatches("1", "#") == "1";
    assert TrimStartMatches("#1", "#") == "1";
    assert AddressingMode("#1") == (1, "1");
    assert !EndsWith("1", ",X");
    assert FlagNibble(3, "1") == (0, "1");
    assert "1"[..0] == [];
    assert ParseUsize("1") == Some(1);
    assert OperandValue(table, "1", 3) == Success(1);
    OrLowBits(0x18, 1);
    HexPaddedByte(0x19);
    HexPadded3(1);
    assert HexDigit(0) == '0' && HexDigit(1) == '1' && HexDigit(9) == '9';
    assert HexPadded(BitOr(StandardCode(ADD), 1), 2) == "19";
    assert ToHex(0) == "0";
    assert HexPadded(1, 3) == "001";
    assert "19" + "0" + "001" == "190001";
  }

  /**
   * `CLEAR A` followed by `ADD #1`: as written the text loads as
   * B4 00 01 90 00, the ADD read one digit out of step and its last digit
   * dropped; corrected it loads as B4 00 19 00 01.
   */
  lemma {:induction false} ClearThenAddLoads()
    ensures DecodeHex(EncodeRegistersAsWritten(StandardCode, CLEAR, "A").value + "190001") == [0xB4, 0x00, 0x01, 0x90, 0x00]
    ensures DecodeHex(EncodeRegisters(StandardCode, CLEAR, "A").value + "190001") == [0xB4, 0x00, 0x19, 0x00, 0x01]
  {
    ClearEncodings();
    assert HexDigit(11) == 'B' && HexDigit(4) == '4' && HexDigit(0) == '0' && HexDigit(1) == '1' && HexDigit(9) == '9';
    assert "B4000" + "190001"
      == [HexDigit(11), HexDigit(4), HexDigit(0), HexDigit(0), HexDigit(0), HexDigit(1), HexDigit(9), HexDigit(0)]
         + ([HexDigit(0), HexDigit(0)] + "1");
    assert "B400" + "190001"
      == [HexDigit(11), HexDigit(4), HexDigit(0), HexDigit(0), HexDigit(1), HexDigit(9), HexDigit(0), HexDigit(0)]
         + ([HexDigit(0), HexDigit(1)] + "");
    WrittenLoads();
    CorrectedLoads();
  }

  /** Eight digits and a short tail, none of them whitespace, decode piece by piece. */
  lemma {:induction false} DecodeSplit(head: string, tail: string)
    requires |head| % 2 == 0 && NoWhitespace(head) && NoWhitespace(tail)
    ensures DecodeHex(head + tail) == DecodePairs(head) + DecodePairs(tail)
  {
    assert NoWhitespace(head + tail) by {
      forall i | 0 <= i < |head + tail|
        ensures !IsWhitespace((head + tail)[i])
      {
        if i < |head| {
          assert (head + tail)[i] == head[i];
        } else {
          assert (head + tail)[i] == tail[i - |head|];
        }
      }
    }
    TrimUnchanged(head + tail);
    DecodeAppend(head, tail);
  }

  /** Ten digits followed by at most one more character load as five bytes. */
  lemma {:induction false} DecodeFive(a: nat, b: nat, c: nat, d: nat, e: nat, f: nat, g: nat, h: nat, i: nat, j: nat, rest: string)
    requires a < 16 && b < 16 && c < 16 && d < 16 && e < 16 && f < 16 && g < 16 && h < 16 && i < 16 && j < 16
    requires |rest| < 2 && NoWhitespace(rest)
    ensures DecodeHex([HexDigit(a), HexDigit(b), HexDigit(c), HexDigit(d), HexDigit(e), HexDigit(f), HexDigit(g), HexDigit(h)]
                      + ([HexDigit(i), HexDigit(j)] + rest))
      == [(16 * a + b) as Byte, (16 * c + d) as Byte, (16 * e + f) as Byte, (16 * g + h) as Byte, (16 * i + j) as Byte]
  {
    var head := [HexDigit(a), HexDigit(b), HexDigit(c), HexDigit(d), HexDigit(e), HexDigit(f), HexDigit(g), HexDigit(h)];
    DecodeFour(a, b, c, d, e, f, g, h);
    DecodeOne(i, j, rest);
    DigitsUntrimmed(i, j, rest);
    DecodeSplit(head, [HexDigit(i), HexDigit(j)] + rest);
  }

  lemma {:induction false} WrittenLoads()
    ensures DecodeHex([HexDigit(11), HexDigit(4), HexDigit(0), HexDigit(0), HexDigit(0), HexDigit(1), HexDigit(9), HexDigit(0)]
                      + ([HexDigit(0), HexDigit(0)] + "1")) == [0xB4, 0x00, 0x01, 0x90, 0x00]
  {
    assert NoWhitespace("1") by { assert "1"[0] == '1'; }
    DecodeFive(11, 4, 0, 0, 0, 1, 9, 0, 0, 0, "1");
  }

  lemma {:induction false} CorrectedLoads()
    ensures DecodeHex([HexDigit(11), HexDigit(4), HexDigit(0), HexDigit(0), HexDigit(1), HexDigit(9), HexDigit(0), HexDigit(0)]
                      + ([HexDigit(0), HexDigit(1)] + "")) == [0xB4, 0x00, 0x19, 0x00, 0x01]
  {
    DecodeFive(11, 4, 0, 0, 1, 9, 0, 0, 0, 1, "");
  }

  /**
   * Run from the bytes as written, CLEAR A clears A and moves PC past its
   * two bytes, and the next step reads 01 90 00: LDA in immediate mode with
   * the flag nibble 9, which immediate addressing rejects.
   */
  lemma {:induction false} ClearThenAddRuns(codes: OpcodeTable, regs: seq<nat>, mem: seq<Byte>)
    requires ValidCodes(codes) && codes(CLEAR) == 0xB4 && |regs| == REGISTER_COUNT
    requires regs[PC] + 4 < |mem| <= MEMORY_SIZE
    requires mem[regs[PC]..regs[PC] + 5] == [0xB4, 0x00, 0x01, 0x90, 0x00]
    ensures var after := SetReg(SetReg(regs, A, 0), PC, regs[PC] + 2);
      && Execute(codes, regs, mem) == Step(Pass, after)
      && after[PC] == regs[PC] + 2
      && Execute(codes, after, mem) == Step(Fail(InvalidAddressingMode), after)
  {
    ClearRuns(codes, regs, mem);
    ClearLeavesImmediate(codes, regs, mem);
  }

  /** The first step from B4 00: A is cleared and PC moves past the two bytes. */
  lemma {:induction false} ClearRuns(codes: OpcodeTable, regs: seq<nat>, mem: seq<Byte>)
    requires ValidCodes(codes) && codes(CLEAR) == 0xB4 && |regs| == REGISTER_COUNT
    requires regs[PC] + 1 < |mem| <= MEMORY_SIZE && mem[regs[PC]] == 0xB4 && mem[regs[PC] + 1] == 0x00
    ensures Execute(codes, regs, mem) == Step(Pass, SetReg(SetReg(regs, A, 0), PC, regs[PC] + 2))
  {
    assert mem[regs[PC] + 1] as nat / 16 == 0;
    ClearStep(codes, regs, mem);
  }

  /** After that step, PC is two bytes on and the machine meets 01 90. */
  lemma {:induction false} ClearLeavesImmediate(codes: OpcodeTable, regs: seq<nat>, mem: seq<Byte>)
    requires ValidCodes(codes) && |regs| == REGISTER_COUNT
    requires regs[PC] + 4 < |mem| <= MEMORY_SIZE
    requires mem[regs[PC]..regs[PC] + 5] == [0xB4, 0x00, 0x01, 0x90, 0x00]
    ensures var after := SetReg(SetReg(regs, A, 0), PC, regs[PC] + 2);
      && after[PC] == regs[PC] + 2
      && Execute(codes, after, mem) == Step(Fail(InvalidAddressingMode), after)
  {
    var pc := regs[PC];
    var cleared := SetReg(regs, A, 0);
    assert cleared[PC] == pc;
    NarrowAddress(pc + 2);
    var after := SetReg(cleared, PC, pc + 2);
    assert after[PC] == pc + 2;
    assert mem[pc + 2] == mem[pc..pc + 5][2] == 0x01;
    assert mem[pc + 3] == mem[pc..pc + 5][3] == 0x90;
    MisreadImmediate(codes, after, mem);
  }

  /** A memory address fits a word register unchanged. */
  lemma {:induction false} NarrowAddress(v: nat)
    requires v < MEMORY_SIZE
    ensures v % WORD_LIMIT == v
  {
  }

  /** The bytes 01 90 00 at PC: immediate LDA with the indexed, extended flag nibble 9, an invalid addressing mode. */
  lemma {:induction false} MisreadImmediate(codes: OpcodeTable, regs: seq<nat>, mem: seq<Byte>)
    requires ValidCodes(codes) && |regs| == REGISTER_COUNT
    requires regs[PC] + 2 < |mem| && mem[regs[PC]] == 0x01 && mem[regs[PC] + 1] == 0x90
    ensures Execute(codes, regs, mem) == Step(Fail(InvalidAddressingMode), regs)
  {
    ModeBitsNotFormat2(codes, 0x01);
    Format34Step(codes, regs, mem);
    MisreadEffect(codes, regs, mem, mem[regs[PC]..]);
  }

  lemma {:induction false} MisreadEffect(codes: OpcodeTable, regs: seq<nat>, mem: seq<Byte>, code: seq<Byte>)
    requires |regs| == REGISTER_COUNT && |code| >= 3 && code[0] == 0x01 && code[1] == 0x90
    ensures Format34(codes, regs, mem, code, 0x01) == Effect(Failure(InvalidAddressingMode), regs)
  {
    Format34Parts(codes, regs, mem, code, 0x01);
    ImmediateOperand(regs, mem, code, 9);
  }

  // ----- Three- and four-byte instructions -----

  /**
   * The bytes of a three- or four-byte instruction: `hex|mode`, the flag
   * nibble with the field's top digit, then the rest of the field (each
   * byte taken modulo 256, which leaves it unchanged for the values the
   * assembler writes).
   */
  function Layout(first: nat, flags: nat, v: nat, size: nat): (r: seq<Byte>)
    ensures |r| == if size == 3 then 3 else 4
  {
    if size == 3 then [(first % 0x100) as Byte, ((16 * flags + v / 0x100) % 0x100) as Byte, (v % 0x100) as Byte]
    else [(first % 0x100) as Byte, ((16 * flags + v / 0x1_0000) % 0x100) as Byte, (v / 0x100 % 0x100) as Byte, (v % 0x100) as Byte]
  }

  /** The text of a three-byte instruction decodes to its layout. */
  lemma {:induction false} DecodeShort(first: nat, flags: nat, v: nat)
    requires first < 0x100 && flags < 16 && v < 0x1000
    ensures DecodeHex(HexPadded(first, 2) + ToHex(flags) + HexPadded(v, 3)) == Layout(first, flags, v, 3)
  {
    HexPaddedByte(first);
    ToHexDigit(flags);
    HexPadded3(v);
    var text := HexPadded(first, 2) + ToHex(flags) + HexPadded(v, 3);
    assert text == [HexDigit(first / 16), HexDigit(first % 16), HexDigit(flags), HexDigit(v / 256), HexDigit(v / 16 % 16), HexDigit(v % 16)];
    DecodeThree(first / 16, first % 16, flags, v / 256, v / 16 % 16, v % 16);
    TrimUnchanged(text);
    ShortDigits(first, flags, v);
  }

  /** The three byte values the digits of a three-byte instruction spell. */
  lemma {:induction false} ShortDigits(first: nat, flags: nat, v: nat)
    requires first < 0x100 && flags < 16 && v < 0x1000
    ensures 16 * (first / 16) + first % 16 == first % 0x100
    ensures 16 * flags + v / 256 == (16 * flags + v / 0x100) % 0x100
    ensures 16 * (v / 16 % 16) + v % 16 == v % 0x100
  {
    PairDigits(v);
  }

  /** The text of a four-byte instruction decodes to its layout. */
  lemma {:induction false} DecodeLong(first: nat, flags: nat, v: nat)
    requires first < 0x100 && flags < 16 && v < 0x10_0000
    ensures DecodeHex(HexPadded(first, 2) + ToHex(flags) + HexPadded(v, 5)) == Layout(first, flags, v, 4)
  {
    LongText(first, flags, v);
    LongDecoded(first, flags, v);
    LongLayout(first, flags, v);
  }

  /** The digits of a four-byte instruction decode pair by pair. */
  lemma {:induction false} LongDecoded(first: nat, flags: nat, v: nat)
    requires first < 0x100 && flags < 16 && v < 0x10_0000
    ensures DecodeHex([HexDigit(first / 16), HexDigit(first % 16), HexDigit(flags), HexDigit(v / 0x1_0000),
                       HexDigit(v / 0x1000 % 16), HexDigit(v / 256 % 16), HexDigit(v / 16 % 16), HexDigit(v % 16)])
      == LongBytes(first, flags, v)
  {
    var text := [HexDigit(first / 16), HexDigit(first % 16), HexDigit(flags), HexDigit(v / 0x1_0000),
                 HexDigit(v / 0x1000 % 16), HexDigit(v / 256 % 16), HexDigit(v / 16 % 16), HexDigit(v % 16)];
    DecodeFour(first / 16, first % 16, flags, v / 0x1_0000, v / 0x1000 % 16, v / 256 % 16, v / 16 % 16, v % 16);
    TrimUnchanged(text);
  }

  /** Those bytes are the layout. */
  lemma {:induction false} LongLayout(first: nat, flags: nat, v: nat)
    requires first < 0x100 && flags < 16 && v < 0x10_0000
    ensures LongBytes(first, flags, v) == Layout(first, flags, v, 4)
  {
    LongDigits(first, flags, v);
  }

  /** The bytes the eight digits of a four-byte instruction spell, pair by pair. */
  function LongBytes(first: nat, flags: nat, v: nat): seq<Byte>
    requires first < 0x100 && flags < 16 && v < 0x10_0000
  {
    [(16 * (first / 16) + first % 16) as Byte, (16 * flags + v / 0x1_0000) as Byte,
     (16 * (v / 0x1000 % 16) + v / 256 % 16) as Byte, (16 * (v / 16 % 16) + v % 16) as Byte]
  }

  /** The eight digits of a four-byte instruction. */
  lemma {:induction false} LongText(first: nat, flags: nat, v: nat)
    requires first < 0x100 && flags < 16 && v < 0x10_0000
    ensures HexPadded(first, 2) + ToHex(flags) + HexPadded(v, 5) ==
      [HexDigit(first / 16), HexDigit(first % 16), HexDigit(flags), HexDigit(v / 0x1_0000),
       HexDigit(v / 0x1000 % 16), HexDigit(v / 256 % 16), HexDigit(v / 16 % 16), HexDigit(v % 16)]
  {
    HexPaddedByte(first);
    ToHexDigit(flags);
    HexPadded5(v);
  }

  /** The four byte values the digits of a four-byte instruction spell. */
  lemma {:induction false} LongDigits(first: nat, flags: nat, v: nat)
    requires first < 0x100 && flags < 16 && v < 0x10_0000
    ensures 16 * (first / 16) + first % 16 == first % 0x100
    ensures 16 * flags + v / 0x1_0000 == (16 * flags + v / 0x1_0000) % 0x100
    ensures 16 * (v / 0x1000 % 16) + v / 256 % 16 == v / 0x100 % 0x100
    ensures 16 * (v / 16 % 16) + v % 16 == v % 0x100
  {
    PairDigits(v / 256);
    PairDigits(v);
    assert v / 0x1000 == v / 256 / 16;
  }

  lemma {:induction false} NibbleSplit(hi: nat, lo: nat)
    requires lo < 16
    ensures (16 * hi + lo) / 16 == hi && (16 * hi + lo) % 16 == lo
  {
  }

  lemma {:induction false} NibbleJoin(n: nat)
    ensures 16 * (n / 16) + n % 16 == n
  {
  }

  lemma {:induction false} PairDigits(n: nat)
    ensures 16 * (n / 16 % 16) + n % 16 == n % 0x100
  {
  }

  /** The executor reads the layout's fields back: the opcode byte, the flag nibble and the 12- or 20-bit field. */
  lemma {:induction false} LayoutFields(first: nat, flags: nat, v: nat, size: nat, rest: seq<Byte>)
    requires first < 0x100 && flags < 16
    requires (size == 3 && v < 0x1000) || (size == 4 && v < 0x10_0000)
    ensures var code := Layout(first, flags, v, size) + rest;
      && code[0] as nat == first
      && Read(code, 8, 4) == Some(flags)
      && (size == 3 ==> Field12(code) == v)
      && (size == 4 ==> Field20(code) == v)
  {
    if size == 3 {
      ShortFields(first, flags, v, rest);
    } else {
      LongFields(first, flags, v, rest);
    }
  }

  lemma {:induction false} ShortFields(first: nat, flags: nat, v: nat, rest: seq<Byte>)
    requires first < 0x100 && flags < 16 && v < 0x1000
    ensures var code := Layout(first, flags, v, 3) + rest;
      && code[0] as nat == first
      && Read(code, 8, 4) == Some(flags)
      && Field12(code) == v
  {
    var code := Layout(first, flags, v, 3) + rest;
    Nibbles(code);
    NibbleSplit(flags, v / 0x100);
    assert code[1] as nat == 16 * flags + v / 0x100;
  }

  lemma {:induction false} LongFields(first: nat, flags: nat, v: nat, rest: seq<Byte>)
    requires first < 0x100 && flags < 16 && v < 0x10_0000
    ensures var code := Layout(first, flags, v, 4) + rest;
      && code[0] as nat == first
      && Read(code, 8, 4) == Some(flags)
      && Field20(code) == v
  {
    var code := Layout(first, flags, v, 4) + rest;
    Nibbles(code);
    NibbleSplit(flags, v / 0x1_0000);
    assert code[1] as nat == 16 * flags + v / 0x1_0000;
    WideField(v);
  }

  lemma {:induction false} WideField(v: nat)
    ensures v == v / 0x1_0000 * 0x1_0000 + (v / 0x100 % 0x100) * 0x100 + v % 0x100
  {
  }

  /** The flag nibbles 0, 1, 8 and 9 add X only when x is set. */
  lemma {:induction false} PlainBase(regs: seq<nat>, flags: nat)
    requires |regs| == REGISTER_COUNT && flags in {0, 1, 8, 9}
    ensures TargetBase(regs, flags) == if flags >= 8 then regs[X] else 0
  {
    if flags == 0 {
    } else if flags == 1 {
    } else if flags == 8 {
    } else {
    }
  }

  lemma {:induction false} ModeBits(opcode: nat, mode: nat)
    requires opcode % 4 == 0 && mode < 4
    ensures (opcode + mode) % 4 == mode
  {
  }

  /**
   * A three- or four-byte instruction assembles to the layout of its
   * opcode and mode, its flag nibble and its value, as text the loader
   * decodes back into those bytes.
   */
  lemma {:induction false} OperandRoundTrip(codes: OpcodeTable, table: SymbolTable, hex: Opcode, size: nat, operand: string,
                         mode: nat, unmoded: string, flags: nat, name: string, v: nat)
    requires codes(hex) < 0x100 && codes(hex) % 4 == 0 && (size == 3 || size == 4)
    requires AddressingMode(operand) == (mode, unmoded) && FlagNibble(size, unmoded) == (flags, name)
    requires OperandValue(table, name, size) == Success(v)
    requires size == 4 ==> v < 0x10_0000
    ensures size == 3 ==> v < 0x1000
    ensures EncodeOperand(codes, table, hex, size, operand).Success?
    ensures DecodeHex(EncodeOperand(codes, table, hex, size, operand).value) == Layout(codes(hex) + mode, flags, v, size)
  {
    EncodeOperandParts(codes, table, hex, size, operand, mode, unmoded, flags, name);
    OrLowBits(codes(hex), mode);
    if size == 3 {
      DecodeShort(codes(hex) + mode, flags, v);
    } else {
      DecodeLong(codes(hex) + mode, flags, v);
    }
  }

  /**
   * The executor's view of what the assembler wrote: the mode and opcode
   * come back from the first byte, and the target is the value (plus X for
   * `,X`) with the length the first pass counted. Immediate and indirect
   * operands accept no `,X`.
   */
  lemma {:induction false} AssembledTarget(regs: seq<nat>, opcode: nat, mode: nat, flags: nat, v: nat, size: nat, rest: seq<Byte>, e: ExecError)
    requires |regs| == REGISTER_COUNT
    requires opcode < 0x100 && opcode % 4 == 0 && 1 <= mode <= 3 && flags in {0, 1, 8, 9}
    requires flags % 2 == 1 <==> size == 4
    requires (size == 3 && v < 0x1000) || (size == 4 && v < 0x10_0000)
    ensures
      var code := Layout(opcode + mode, flags, v, size) + rest;
      && (code[0] as nat) % 4 == mode && code[0] as nat - mode == opcode
      && Read(code, 8, 4) == Some(flags)
      && Target(regs, code, flags, mode == 3, e) ==
           if flags >= 8 && mode != 3 then Failure(InvalidAddressingMode)
           else Success(((if flags >= 8 then regs[X] else 0) + v, size))
  {
    var code := Layout(opcode + mode, flags, v, size) + rest;
    LayoutFields(opcode + mode, flags, v, size, rest);
    ModeBits(opcode, mode);
    if flags >= 8 && mode != 3 {
      TargetFlags(regs, code, flags, false, e);
    } else {
      TargetOfField(regs, code, flags, mode == 3, v, size, e);
    }
  }

  /** An accepted x, b, p, e nibble among 0, 1, 8 and 9 puts X (for x) before the field the e bit picks. */
  lemma {:induction false} TargetOfField(regs: seq<nat>, code: seq<Byte>, flags: nat, indexed: bool, v: nat, size: nat, e: ExecError)
    requires |regs| == REGISTER_COUNT && flags in {0, 1, 8, 9} && (flags >= 8 ==> indexed)
    requires flags % 2 == 1 <==> size == 4
    requires size == 3 || size == 4
    requires size == 3 ==> |code| >= 3 && Field12(code) == v
    requires size == 4 ==> |code| >= 4 && Field20(code) == v
    ensures Target(regs, code, flags, indexed, e) == Success(((if flags >= 8 then regs[X] else 0) + v, size))
  {
    TargetFlags(regs, code, flags, indexed, e);
    PlainBase(regs, flags);
  }

  // ----- Lengths -----

  /**
   * A two- or three-byte instruction is written as twice its size in hex
   * digits and a four-byte one as at least eight, except that CLEAR and
   * TIXR as written take one digit more than their two bytes.
   */
  lemma {:induction false} InstructionLength(f: Format2, codes: OpcodeTable, table: SymbolTable, hex: Opcode, size: nat, operand: string)
    requires codes(hex) < 0x100 && 2 <= size <= 4
    requires EncodeInstruction(f, codes, table, hex, size, operand).Success?
    ensures var text := EncodeInstruction(f, codes, table, hex, size, operand).value;
      && (size == 3 || (size == 2 && (f == Corrected || !SingleRegister(codes, hex))) ==> |text| == 2 * size)
      && (size == 2 && f == AsWritten && SingleRegister(codes, hex) ==> |text| == 2 * size + 1)
      && (size == 4 ==> |text| >= 8)
  {
    if size == 2 {
      RegisterRoundTrip(codes, hex, operand, EncodeRegisters(codes, hex, operand).value);
    } else {
      var (mode, unmoded) := AddressingMode(operand);
      var (flags, name) := FlagNibble(size, unmoded);
      OpcodeByteDigits(codes(hex), mode);
      ToHexDigit(flags);
      var v := OperandValue(table, name, size).value;
      if size == 3 {
        HexPadded3(v);
      }
    }
  }

  /**
   * The code the second pass writes for an instruction against the size
   * the first pass counts: with the corrected encoding it is twice that
   * size in digits (at least eight for four bytes); as written, CLEAR and
   * TIXR are counted as two bytes but written as five digits.
   */
  lemma {:induction false} CodeMatchesCount(f: Format2, codes: OpcodeTable, symbols: SymbolTable, op: Operacao, operand: string,
                                            counter: nat, table: SymbolTable)
    requires op.Instrucao? && codes(op.hex) < 0x100 && 2 <= op.tamanho <= 4
    requires OperationStep(f, codes, symbols, op, operand).Emit?
    ensures Count(op, operand, counter, table) == Advance(counter + op.tamanho, table)
    ensures var size, text := op.tamanho, OperationStep(f, codes, symbols, op, operand).text;
      && (size == 3 || (size == 2 && (f == Corrected || !SingleRegister(codes, op.hex))) ==> |text| == 2 * size)
      && (size == 2 && f == AsWritten && SingleRegister(codes, op.hex) ==> |text| == 2 * size + 1)
      && (size == 4 ==> |text| >= 8)
  {
    var encoded := EncodeInstruction(f, codes, symbols, op.hex, op.tamanho, operand);
    assert encoded.Success?;
    assert OperationStep(f, codes, symbols, op, operand) == Emit(encoded.value);
    InstructionLength(f, codes, symbols, op.hex, op.tamanho, operand);
  }

  /**
   * On a line that starts with an instruction, the first pass advances the
   * counter by the size whose digits the corrected second pass writes; as
   * written, a CLEAR or TIXR line is written one digit longer.
   */
  lemma {:induction false} CounterMatchesCode(f: Format2, codes: OpcodeTable, symbols: SymbolTable, line: string, mnemonic: string,
                                              operand: string, counter: nat, table: SymbolTable)
    requires SplitLine(line) == Some((mnemonic, operand))
    requires Lookup(mnemonic).Some? && Lookup(mnemonic).value.Instrucao? && codes(Lookup(mnemonic).value.hex) < 0x100
    requires SecondPassLine(f, codes, symbols, line).Emit?
    ensures var op, text := Lookup(mnemonic).value, SecondPassLine(f, codes, symbols, line).text;
      && FirstPassLine(line, counter, table) == Advance(counter + op.tamanho, table)
      && (op.tamanho == 3 || (op.tamanho == 2 && (f == Corrected || !SingleRegister(codes, op.hex))) ==> |text| == 2 * op.tamanho)
      && (op.tamanho == 2 && f == AsWritten && SingleRegister(codes, op.hex) ==> |text| == 2 * op.tamanho + 1)
      && (op.tamanho == 4 ==> |text| >= 8)
  {
    var op := Lookup(mnemonic).value;
    Sizes(mnemonic);
    CodeMatchesCount(f, codes, symbols, op, operand, counter, table);
  }

  /** The same on a labelled line: the label gets the counter, which then advances by the size of the instruction. */
  lemma {:induction false} LabelledCounterMatchesCode(f: Format2, codes: OpcodeTable, symbols: SymbolTable, line: string, head: string,
                                                      rest: string, mnemonic: string, operand: string, counter: nat, table: SymbolTable)
    requires SplitLine(line) == Some((head, rest)) && Lookup(head).None? && head !in table
    requires SplitOnceWhitespace(Trim(rest)) == Some((mnemonic, operand))
    requires Lookup(mnemonic).Some? && Lookup(mnemonic).value.Instrucao? && codes(Lookup(mnemonic).value.hex) < 0x100
    requires SecondPassLine(f, codes, symbols, line).Emit?
    ensures var op, text := Lookup(mnemonic).value, SecondPassLine(f, codes, symbols, line).text;
      && FirstPassLine(line, counter, table) == Advance(counter + op.tamanho, table[head := counter])
      && (op.tamanho == 3 || (op.tamanho == 2 && (f == Corrected || !SingleRegister(codes, op.hex))) ==> |text| == 2 * op.tamanho)
      && (op.tamanho == 2 && f == AsWritten && SingleRegister(codes, op.hex) ==> |text| == 2 * op.tamanho + 1)
      && (op.tamanho == 4 ==> |text| >= 8)
  {
    var op := Lookup(mnemonic).value;
    Sizes(mnemonic);
    CodeMatchesCount(f, codes, symbols, op, operand, counter, table[head := counter]);
  }
}
