/**
 * The assembler's second pass: it re-reads the source lines, encodes every
 * instruction as upper-case hexadecimal text using the symbol table of the
 * first pass, and wraps the code in the H, T and E records of the object
 * program.
 */
module AssemblerEncoding {
  import opened Outcomes
  import opened Bits
  import opened Text
  import opened Constants
  import opened OperationTable
  import opened RegisterTable
  import opened Assembler

  // ----- Format 2 -----

  /** A register operand: a register name, or else a decimal `u8` no greater than 9. */
  function ResolveRegister(s: string): (r: Option<nat>)
    ensures r.Some? ==> r.value < REGISTER_COUNT
    ensures RegisterIndex(s).Some? ==> r == RegisterIndex(s)
    ensures RegisterIndex(s).None? ==> (r.Some? <==> ParseU8(s).Some? && ParseU8(s).value <= 9)
    ensures RegisterIndex(s).None? && r.Some? ==> r == ParseU8(s)
  {
    match RegisterIndex(s)
    case Some(n) => Some(n)
    case None =>
      match ParseU8(s)
      case None => None
      case Some(n) => if n > 9 then None else Some(n)
  }

  /**
   * A two-byte instruction: the opcode as two digits, then for CLEAR and
   * TIXR the register digit and a zero digit for the unused second
   * register, and for the others the two registers of the `r1,r2` operand.
   * The source writes "00" after the register of CLEAR and TIXR; that is
   * EncodeRegistersAsWritten, and this definition writes the single zero
   * digit that makes the instruction the two bytes the first pass counts.
   */
  function EncodeRegisters(codes: OpcodeTable, hex: Opcode, operand: string): Result<string, AsmError> {
    var opcode := HexPadded(codes(hex), 2);
    if codes(hex) == codes(CLEAR) || codes(hex) == codes(TIXR) then
      match ResolveRegister(operand)
      case None => Failure(InvalidRegister1)
      case Some(r1) => Success(opcode + ToHex(r1) + "0")
    else
      match SplitOnce(Trim(operand), ',')
      case None => Failure(InvalidOperand)
      case Some(pair) =>
        match ResolveRegister(pair.0)
        case None => Failure(InvalidRegister1)
        case Some(r1) =>
          match ResolveRegister(pair.1)
          case None => Failure(InvalidRegister2)
          case Some(r2) => Success(opcode + ToHex(r1) + ToHex(r2))
  }

  /** The two-byte encoding as the source writes it: "00" after the register of CLEAR and TIXR. */
  function EncodeRegistersAsWritten(codes: OpcodeTable, hex: Opcode, operand: string): (r: Result<string, AsmError>)
    ensures codes(hex) != codes(CLEAR) && codes(hex) != codes(TIXR) ==> r == EncodeRegisters(codes, hex, operand)
  {
    if codes(hex) == codes(CLEAR) || codes(hex) == codes(TIXR) then
      match ResolveRegister(operand)
      case None => Failure(InvalidRegister1)
      case Some(r1) => Success(HexPadded(codes(hex), 2) + ToHex(r1) + "00")
    else EncodeRegisters(codes, hex, operand)
  }

  // ----- Formats 3 and 4 -----

  /** The addressing mode a leading `#` (immediate, 1) or `@` (indirect, 2) selects, 3 otherwise, and the operand without it. */
  function AddressingMode(operand: string): (r: (nat, string))
    ensures 1 <= r.0 <= 3
  {
    if StartsWith(operand, "#") then (1, TrimStartMatches(operand, "#"))
    else if StartsWith(operand, "@") then (2, TrimStartMatches(operand, "@"))
    else (3, operand)
  }

  /** The flag nibble after the opcode byte: e (1) for a four-byte instruction, x (8) for a `,X` suffix, which is removed. */
  function FlagNibble(size: nat, operand: string): (r: (nat, string))
    ensures r.0 in {0, 1, 8, 9}
    ensures r.0 % 2 == 1 <==> size == 4
    ensures r.0 >= 8 <==> EndsWith(operand, ",X")
  {
    var e := if size == 4 then 1 else 0;
    if EndsWith(operand, ",X") then (e + 8, TrimEndMatches(operand, ",X")) else (e, operand)
  }

  /** The address field's value: the symbol's address, else the decimal operand; over 4095 is too large for three bytes. */
  function OperandValue(table: SymbolTable, operand: string, size: nat): (r: Result<nat, AsmError>)
    ensures r == Failure(InvalidOperand) <==> operand !in table && ParseUsize(operand).None?
    ensures r.Success? ==> r.value == if operand in table then table[operand] else ParseUsize(operand).value
    ensures r == Failure(OperandTooLarge) <==>
      size < 4 && (if operand in table then table[operand] > 4095 else ParseUsize(operand).Some? && ParseUsize(operand).value > 4095)
    ensures r.Success? || r == Failure(InvalidOperand) || r == Failure(OperandTooLarge)
    ensures r.Success? && size < 4 ==> r.value <= 4095
  {
    if operand in table then
      if table[operand] > 4095 && size < 4 then Failure(OperandTooLarge) else Success(table[operand])
    else
      match ParseUsize(operand)
      case None => Failure(InvalidOperand)
      case Some(v) => if v > 4095 && size < 4 then Failure(OperandTooLarge) else Success(v)
  }

  /** A three- or four-byte instruction: `hex|mode` as two digits, the flag nibble, then 3 or 5 digits of the value. */
  function EncodeOperand(codes: OpcodeTable, table: SymbolTable, hex: Opcode, size: nat, operand: string): Result<string, AsmError> {
    var (mode, unmoded) := AddressingMode(operand);
    var (flags, name) := FlagNibble(size, unmoded);
    match OperandValue(table, name, size)
    case Failure(e) => Failure(e)
    case Success(v) =>
      Success(HexPadded(BitOr(codes(hex), mode), 2) + ToHex(flags) + (if size < 4 then HexPadded(v, 3) else HexPadded(v, 5)))
  }

  /**
   * Which two-byte encoding a second pass writes: the source's, with "00"
   * after the register of CLEAR and TIXR, or the corrected one.
   */
  datatype Format2 = AsWritten | Corrected

  /** CLEAR and TIXR, the two-byte instructions with a single register. */
  predicate SingleRegister(codes: OpcodeTable, hex: Opcode) {
    codes(hex) == codes(CLEAR) || codes(hex) == codes(TIXR)
  }

  /**
   * An instruction of the table's size: two bytes by registers, otherwise
   * by addressing mode. Both two-byte encodings accept the same operands;
   * as written, CLEAR and TIXR get one "0" more than the corrected text,
   * and every other instruction is written the same way by both.
   */
  function EncodeInstruction(f: Format2, codes: OpcodeTable, table: SymbolTable, hex: Opcode, size: nat, operand: string)
    : (r: Result<string, AsmError>)
    ensures size != 2 ==> r == EncodeOperand(codes, table, hex, size, operand)
    ensures size == 2 ==> (r.Success? <==> EncodeRegisters(codes, hex, operand).Success?)
    ensures size == 2 && r.Failure? ==> r == EncodeRegisters(codes, hex, operand)
    ensures size == 2 && r.Success? ==>
      r.value == EncodeRegisters(codes, hex, operand).value + (if f == AsWritten && SingleRegister(codes, hex) then "0" else "")
  {
    if size == 2 then
      match f
      case AsWritten => EncodeRegistersAsWritten(codes, hex, operand)
      case Corrected => EncodeRegisters(codes, hex, operand)
    else EncodeOperand(codes, table, hex, size, operand)
  }

  // ----- Lines -----

  /** How one line leaves the second pass: code to append, END, or an error. */
  datatype Pass2Step = Emit(text: string) | Finish | Reject(error: AsmError)

  /** The code of a line whose operation is `op`: END stops, an instruction is encoded, directives give nothing. */
  function OperationStep(f: Format2, codes: OpcodeTable, table: SymbolTable, op: Operacao, operand: string): Pass2Step {
    match op
    case End => Finish
    case Instrucao(hex, size) =>
      (match EncodeInstruction(f, codes, table, hex, size, operand)
       case Failure(e) => Reject(e)
       case Success(text) => Emit(text))
    case _ => Emit("")
  }

  /** One body line of the second pass; unlike the first pass, an unknown operation after a label is an error. */
  function SecondPassLine(f: Format2, codes: OpcodeTable, table: SymbolTable, line: string): Pass2Step {
    match SplitLine(line)
    case None => Emit("")
    case Some(parts) =>
      match Lookup(parts.0)
      case Some(op) => OperationStep(f, codes, table, op, parts.1)
      case None => LabelledOperation(f, codes, table, parts.1)
  }

  /** The rest of a labelled line: its operation must be in the table. */
  function LabelledOperation(f: Format2, codes: OpcodeTable, table: SymbolTable, rest: string): Pass2Step {
    match SplitOnceWhitespace(Trim(rest))
    case None => Emit("")
    case Some(words) =>
      match Lookup(words.0)
      case None => Reject(InvalidOperation(words.0))
      case Some(op) => OperationStep(f, codes, table, op, words.1)
  }

  /** Code ahead of a result: the result's text with `code` in front, or the result's error. */
  function Prepend(code: string, r: Result<string, AsmError>): Result<string, AsmError> {
    match r
    case Success(text) => Success(code + text)
    case Failure(e) => Failure(e)
  }

  /** The code of the body lines: every line's code in order, up to END or the first error. */
  function SecondPassLines(f: Format2, codes: OpcodeTable, table: SymbolTable, lines: seq<string>): Result<string, AsmError>
    decreases |lines|
  {
    if lines == [] then Success("")
    else
      match SecondPassLine(f, codes, table, lines[0])
      case Emit(text) => Prepend(text, SecondPassLines(f, codes, table, lines[1..]))
      case Finish => Success("")
      case Reject(e) => Failure(e)
  }

  // ----- The object program -----

  /** The START operand of a header's tokens, read as hexadecimal here, or 0. */
  function StartAddress(tokens: seq<string>): nat {
    if |tokens| >= 3 && tokens[1] == "START" then
      match ParseUnsigned(tokens[2], 16, USIZE_LIMIT)
      case Some(n) => n
      case None => 0
    else 0
  }

  /** The program name and start address of the header line; a program without lines has the empty name and address 0. */
  function Header(lines: seq<string>): (r: Result<(string, nat), AsmError>)
    ensures lines != [] && SplitWhitespace(lines[0]) == [] <==> r == Failure(MissingName)
    ensures r == Failure(NameTooLong) <==> lines != [] && SplitWhitespace(lines[0]) != [] && ByteLen(SplitWhitespace(lines[0])[0]) > 6
    ensures r.Success? ==> ByteLen(r.value.0) <= 6
  {
    if lines == [] then Success(("", 0))
    else
      var tokens := SplitWhitespace(lines[0]);
      if tokens == [] then Failure(MissingName)
      else if ByteLen(tokens[0]) > 6 then Failure(NameTooLong)
      else Success((tokens[0], StartAddress(tokens)))
  }

  /** The first pass counting from the START operand read as hexadecimal, as the header record writes it. */
  function HexFirstPass(assembly: string): Result<SymbolTable, AsmError> {
    var lines := SourceLines(assembly);
    if lines == [] then Success(map[]) else FirstPassLines(lines[1..], StartAddress(SplitWhitespace(lines[0])), map[])
  }

  /** `H<name> <start><source length>`, `T<start><code length><code>`, `E<start>`, addresses and lengths in hexadecimal. */
  function ObjectProgram(name: string, start: nat, sourceLength: nat, code: string): string {
    "H" + name + " " + HexPadded(start, 6) + HexPadded(sourceLength, 6)
    + "\nT" + HexPadded(start, 6) + HexPadded(ByteLen(code), 2) + code
    + "\nE" + HexPadded(start, 6)
  }

  /**
   * The object program of an assembly text, given its symbol table, with
   * two-byte instructions written as `f` says; `segundo_passo` is the
   * `AsWritten` one.
   */
  function SecondPass(f: Format2, codes: OpcodeTable, table: SymbolTable, assembly: string): Result<string, AsmError> {
    var lines := SourceLines(assembly);
    match Header(lines)
    case Failure(e) => Failure(e)
    case Success(header) =>
      match SecondPassLines(f, codes, table, if lines == [] then [] else lines[1..])
      case Failure(e) => Failure(e)
      case Success(code) => Success(ObjectProgram(header.0, header.1, ByteLen(assembly), code))
  }

  // ----- The pass as a loop -----

  /** The second pass as a loop over the lines, appending to the object code. */
  method SegundoPasso(codes: OpcodeTable, tabela: SymbolTable, assembly: string) returns (r: Result<string, AsmError>)
    ensures r == SecondPass(AsWritten, codes, tabela, assembly)
  {
    var linhas := SourceLines(assembly);
    var cabecalho := LerCabecalho(linhas);
    if cabecalho.Failure? {
      return Failure(cabecalho.error);
    }
    var (nome, inicio) := cabecalho.value;
    var corpo := if linhas == [] then [] else linhas[1..];
    var codigo := CodigoObjeto(codes, tabela, corpo);
    if codigo.Failure? {
      return Failure(codigo.error);
    }
    r := Success(ObjectProgram(nome, inicio, ByteLen(assembly), codigo.value));
  }

  /** The loop over the body lines, appending each line's code; END leaves the loop. */
  method CodigoObjeto(codes: OpcodeTable, tabela: SymbolTable, corpo: seq<string>) returns (r: Result<string, AsmError>)
    ensures r == SecondPassLines(AsWritten, codes, tabela, corpo)
  {
    var codigo := "";
    var i := 0;
    PrependEmpty(SecondPassLines(AsWritten, codes, tabela, corpo));
    while i < |corpo|
      invariant 0 <= i <= |corpo|
      invariant Prepend(codigo, SecondPassLines(AsWritten, codes, tabela, corpo[i..])) == SecondPassLines(AsWritten, codes, tabela, corpo)
    {
      var passo := PassoSegundo(codes, tabela, corpo[i]);
      SecondPassTurn(AsWritten, codes, tabela, corpo, i, codigo, passo);
      match passo {
        case Emit(texto) =>
          codigo := codigo + texto;
        case Finish =>
          return Success(codigo);
        case Reject(e) =>
          return Failure(e);
      }
      i := i + 1;
    }
    assert corpo[i..] == [];
    assert codigo + "" == codigo;
    return Success(codigo);
  }

  /** The header line: the program name, which must exist and fit in 6 bytes, and the hexadecimal START address. */
  method LerCabecalho(linhas: seq<string>) returns (r: Result<(string, nat), AsmError>)
    ensures r == Header(linhas)
  {
    var nome := "";
    var inicio: nat := 0;
    if linhas != [] {
      var tokens := SplitWhitespace(linhas[0]);
      if tokens == [] {
        return Failure(MissingName);
      }
      if ByteLen(tokens[0]) > 6 {
        return Failure(NameTooLong);
      }
      nome := tokens[0];
      inicio := StartAddress(tokens);
    }
    return Success((nome, inicio));
  }

  /** One turn of the second-pass loop, for the step the line takes. */
  lemma {:induction false} SecondPassUnfold(f: Format2, codes: OpcodeTable, table: SymbolTable, lines: seq<string>, i: nat, step: Pass2Step)
    requires i < |lines| && step == SecondPassLine(f, codes, table, lines[i])
    ensures step.Emit? ==> SecondPassLines(f, codes, table, lines[i..]) == Prepend(step.text, SecondPassLines(f, codes, table, lines[i + 1..]))
    ensures step.Finish? ==> SecondPassLines(f, codes, table, lines[i..]) == Success("")
    ensures step.Reject? ==> SecondPassLines(f, codes, table, lines[i..]) == Failure(step.error)
  {
    assert lines[i..][1..] == lines[i + 1..];
  }

  /** What one turn of the second-pass loop does to the code gathered so far. */
  lemma {:induction false} SecondPassTurn(f: Format2, codes: OpcodeTable, table: SymbolTable, lines: seq<string>, i: nat,
                                          code: string, step: Pass2Step)
    requires i < |lines| && step == SecondPassLine(f, codes, table, lines[i])
    ensures step.Emit? ==>
      Prepend(code, SecondPassLines(f, codes, table, lines[i..])) == Prepend(code + step.text, SecondPassLines(f, codes, table, lines[i + 1..]))
    ensures step.Finish? ==> Prepend(code, SecondPassLines(f, codes, table, lines[i..])) == Success(code)
    ensures step.Reject? ==> Prepend(code, SecondPassLines(f, codes, table, lines[i..])) == Failure(step.error)
  {
    SecondPassUnfold(f, codes, table, lines, i, step);
    if step.Emit? {
      PrependAppend(code, step.text, SecondPassLines(f, codes, table, lines[i + 1..]));
    } else if step.Finish? {
      assert code + "" == code;
    }
  }

  /** Nothing ahead of a result leaves it as it is. */
  lemma {:induction false} PrependEmpty(r: Result<string, AsmError>)
    ensures Prepend("", r) == r
  {
    if r.Success? {
      assert "" + r.value == r.value;
    }
  }

  /** Appending to the code is prepending to the rest. */
  lemma {:induction false} PrependAppend(code: string, text: string, rest: Result<string, AsmError>)
    ensures Prepend(code, Prepend(text, rest)) == Prepend(code + text, rest)
  {
    if rest.Success? {
      assert code + (text + rest.value) == code + text + rest.value;
    }
  }

  /** The body of the second-pass loop: one line's operation, encoded. */
  method PassoSegundo(codes: OpcodeTable, tabela: SymbolTable, linha: string) returns (passo: Pass2Step)
    ensures passo == SecondPassLine(AsWritten, codes, tabela, linha)
  {
    var partes := SplitLine(linha);
    if partes.None? {
      return Emit("");
    }
    var entrada := Lookup(partes.value.0);
    if entrada.Some? {
      passo := Operar(codes, tabela, entrada.value, partes.value.1);
      return;
    }
    var palavras := SplitOnceWhitespace(Trim(partes.value.1));
    if palavras.None? {
      return Emit("");
    }
    var operacao := Lookup(palavras.value.0);
    if operacao.None? {
      return Reject(InvalidOperation(palavras.value.0));
    }
    passo := Operar(codes, tabela, operacao.value, palavras.value.1);
  }

  /** The `match` on the line's operation. */
  method Operar(codes: OpcodeTable, tabela: SymbolTable, operacao: Operacao, operando: string) returns (passo: Pass2Step)
    ensures passo == OperationStep(AsWritten, codes, tabela, operacao, operando)
  {
    match operacao {
      case End =>
        passo := Finish;
      case Instrucao(hex, tamanho) =>
        var codigo := CodificarInstrucao(codes, tabela, hex, tamanho, operando);
        passo := if codigo.Success? then Emit(codigo.value) else Reject(codigo.error);
      case _ =>
        passo := Emit("");
    }
  }

  /** Encoding one instruction as the source does: two-byte ones by registers, the others by addressing mode. */
  method CodificarInstrucao(codes: OpcodeTable, tabela: SymbolTable, hex: Opcode, tamanho: nat, operand: string)
    returns (r: Result<string, AsmError>)
    ensures r == EncodeInstruction(AsWritten, codes, tabela, hex, tamanho, operand)
  {
    if tamanho == 2 {
      return EncodeRegistersAsWritten(codes, hex, operand);
    }
    r := CodificarOperando(codes, tabela, hex, tamanho, operand);
  }

  /** A three- or four-byte instruction: addressing mode, flags and the value field. */
  method CodificarOperando(codes: OpcodeTable, tabela: SymbolTable, hex: Opcode, tamanho: nat, operand: string)
    returns (r: Result<string, AsmError>)
    ensures r == EncodeOperand(codes, tabela, hex, tamanho, operand)
  {
    var operando := operand;
    var enderecamento: nat;
    if StartsWith(operando, "#") {
      operando := TrimStartMatches(operando, "#");
      enderecamento := 1;
    } else if StartsWith(operando, "@") {
      operando := TrimStartMatches(operando, "@");
      enderecamento := 2;
    } else {
      enderecamento := 3;
    }
    ghost var semModo := operando;
    assert (enderecamento, semModo) == AddressingMode(operand);
    var codigo := HexPadded(BitOr(codes(hex), enderecamento), 2);
    var flags: nat := 0;
    if tamanho == 4 {
      flags := 1;
    }
    if EndsWith(operando, ",X") {
      operando := TrimEndMatches(operando, ",X");
      flags := flags + 8;
    }
    assert (flags, operando) == FlagNibble(tamanho, semModo);
    var valor := ValorOperando(tabela, operando, tamanho);
    EncodeOperandParts(codes, tabela, hex, tamanho, operand, enderecamento, semModo, flags, operando);
    if valor.Failure? {
      return Failure(valor.error);
    }
    codigo := codigo + ToHex(flags);
    if tamanho < 4 {
      codigo := codigo + HexPadded(valor.value, 3);
    } else {
      codigo := codigo + HexPadded(valor.value, 5);
    }
    return Success(codigo);
  }

  /** EncodeOperand from its three parts. */
  lemma {:induction false} EncodeOperandParts(codes: OpcodeTable, table: SymbolTable, hex: Opcode, size: nat, operand: string,
                           mode: nat, unmoded: string, flags: nat, name: string)
    requires AddressingMode(operand) == (mode, unmoded) && FlagNibble(size, unmoded) == (flags, name)
    ensures EncodeOperand(codes, table, hex, size, operand) ==
      match OperandValue(table, name, size)
      case Failure(e) => Failure(e)
      case Success(v) =>
        Success(HexPadded(BitOr(codes(hex), mode), 2) + ToHex(flags) + (if size < 4 then HexPadded(v, 3) else HexPadded(v, 5)))
  {
  }

  /** The operand's value: the symbol table first, then a decimal number, each checked against the three-byte limit. */
  method ValorOperando(tabela: SymbolTable, operando: string, tamanho: nat) returns (r: Result<nat, AsmError>)
    ensures r == OperandValue(tabela, operando, tamanho)
  {
    if operando in tabela {
      if tabela[operando] > 4095 && tamanho < 4 {
        return Failure(OperandTooLarge);
      }
      return Success(tabela[operando]);
    }
    var lido := ParseUsize(operando);
    if lido.None? {
      return Failure(InvalidOperand);
    }
    if lido.value > 4095 && tamanho < 4 {
      return Failure(OperandTooLarge);
    }
    return Success(lido.value);
  }
}
