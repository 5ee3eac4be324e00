/**
 * The two-pass assembler's line handling and its first pass, which walks
 * the source lines with a location counter and records every label in
 * the symbol table at the counter's value.
 */
module Assembler {
  import opened Outcomes
  import opened Text
  import opened OperationTable

  /** The assembler's errors. */
  datatype AsmError =
    | DuplicateSymbol(name: string)     // a label defined twice
    | MissingName                       // the header line has no program name
    | NameTooLong                       // the program name is longer than 6 bytes
    | InvalidOperation(name: string)    // a labelled line whose operation is not in the table
    | InvalidRegister1                  // the first register operand does not resolve
    | InvalidRegister2                  // the second register operand does not resolve
    | InvalidOperand                    // a malformed operand
    | OperandTooLarge                   // a value above 4095 in a three-byte instruction

  /** The symbol table: label to address. */
  type SymbolTable = map<string, nat>

  // ----- Lines -----

  /** The lines left after skipping the leading lines that, trimmed, start with `.`. */
  function SkipComments(lines: seq<string>): (r: seq<string>)
    ensures |r| <= |lines| && r == lines[|lines| - |r|..]
    ensures r == [] || !StartsWith(Trim(r[0]), ".")
  {
    if lines != [] && StartsWith(Trim(lines[0]), ".") then SkipComments(lines[1..]) else lines
  }

  /** Every line it skips, trimmed, starts with `.`. */
  lemma {:induction false} SkippedAreComments(lines: seq<string>)
    ensures forall i :: 0 <= i < |lines| - |SkipComments(lines)| ==> StartsWith(Trim(lines[i]), ".")
    decreases |lines|
  {
    if lines != [] && StartsWith(Trim(lines[0]), ".") {
      SkippedAreComments(lines[1..]);
      forall i | 1 <= i < |lines| - |SkipComments(lines)|
        ensures StartsWith(Trim(lines[i]), ".")
      {
        assert lines[1..][i - 1] == lines[i];
      }
    }
  }

  /** The source lines the passes read: the header first, then the body. */
  function SourceLines(assembly: string): seq<string> {
    SkipComments(Lines(assembly))
  }

  /** A line with its comment removed and trimmed, split at its first whitespace. */
  function SplitLine(line: string): Option<(string, string)> {
    SplitOnceWhitespace(Trim(Before(line, '.')))
  }

  /** Everything from the first `.` on is ignored. */
  lemma {:induction false} CommentIgnored(code: string, comment: string)
    requires '.' !in code
    ensures SplitLine(code + "." + comment) == SplitLine(code)
  {
    var s := code + "." + comment;
    var k := IndexOf(s, '.');
    assert s[|code|] == '.';
    assert forall i :: 0 <= i < |code| ==> s[i] == code[i];
    assert k == |code|;
    assert Before(s, '.') == code;
    assert Before(code, '.') == code;
  }

  // ----- First pass -----

  /** The location counter a header line sets: its decimal START operand, or 0. */
  function StartCounter(header: string): nat {
    var tokens := SplitWhitespace(header);
    if |tokens| >= 3 && tokens[1] == "START" then
      match ParseUsize(tokens[2])
      case Some(n) => n
      case None => 0
    else 0
  }

  /** The bytes a BYTE operand reserves: `C'..'` its text, `X'..'` half its digits rounded up. */
  function ByteSize(operand: string): nat {
    if |operand| > 0 && Utf8Len(operand[0]) == 1 then
      var n := ByteLen(TrimMatches(operand[1..], '\''));
      if operand[0] == 'C' then n else if operand[0] == 'X' then (n + 1) / 2 else 0
    else 0
  }

  /** `parse::<usize>().unwrap_or_default()`. */
  function CountOperand(operand: string): nat {
    match ParseUsize(operand)
    case Some(n) => n
    case None => 0
  }

  /** How one line leaves the first pass: go on with a counter and table, stop at END, or fail. */
  datatype Pass1Step = Advance(counter: nat, table: SymbolTable) | Halt(table: SymbolTable) | Abort(error: AsmError)

  /** The location counter after a line whose operation is `op`. */
  function Count(op: Operacao, operand: string, counter: nat, table: SymbolTable): (r: Pass1Step)
    ensures r.Halt? <==> op == End
    ensures !r.Abort? && r.table == table
    ensures r.Advance? ==> r.counter >= counter
    ensures op.Instrucao? ==> r == Advance(counter + op.tamanho, table)
  {
    match op
    case Start => Advance(counter, table)
    case End => Halt(table)
    case ByteData => Advance(counter + ByteSize(operand), table)
    case WordData => Advance(counter + 3, table)
    case ReserveWord => Advance(counter + 3 * CountOperand(operand), table)
    case ReserveBytes => Advance(counter + CountOperand(operand), table)
    case Instrucao(_, size) => Advance(counter + size, table)
  }

  /** One body line of the first pass. */
  function FirstPassLine(line: string, counter: nat, table: SymbolTable): Pass1Step {
    match SplitLine(line)
    case None => Advance(counter, table)
    case Some(parts) => LineStep(parts.0, parts.1, counter, table)
  }

  /** A line whose first word is `head`: an operation, or a label to record before the operation. */
  function LineStep(head: string, rest: string, counter: nat, table: SymbolTable): Pass1Step {
    match Lookup(head)
    case Some(op) => Count(op, rest, counter, table)
    case None =>
      if head in table then Abort(DuplicateSymbol(head))
      else LabelledStep(rest, counter, table[head := counter])
  }

  /** The rest of a labelled line, once the label is recorded. */
  function LabelledStep(rest: string, counter: nat, labelled: SymbolTable): (r: Pass1Step)
    ensures !r.Abort? && r.table == labelled
    ensures r.Advance? ==> r.counter >= counter
  {
    match SplitOnceWhitespace(Trim(rest))
    case None => Advance(counter, labelled)
    case Some(words) =>
      match Lookup(words.0)
      case None => Advance(counter, labelled)
      case Some(op) => Count(op, words.1, counter, labelled)
  }

  /** The first pass over the body lines from a counter and table. */
  function FirstPassLines(lines: seq<string>, counter: nat, table: SymbolTable): Result<SymbolTable, AsmError>
    decreases |lines|
  {
    if lines == [] then Success(table)
    else
      match FirstPassLine(lines[0], counter, table)
      case Advance(c, t) => FirstPassLines(lines[1..], c, t)
      case Halt(t) => Success(t)
      case Abort(e) => Failure(e)
  }

  /** `primeiro_passo`: the symbol table of a program, or the error that stops it. */
  function FirstPass(assembly: string): Result<SymbolTable, AsmError> {
    var lines := SourceLines(assembly);
    if lines == [] then Success(map[]) else FirstPassLines(lines[1..], StartCounter(lines[0]), map[])
  }

  /** The first pass as a loop over the lines, updating the counter and the table. */
  method PrimeiroPasso(assembly: string) returns (r: Result<SymbolTable, AsmError>)
    ensures r == FirstPass(assembly)
  {
    var linhas := SourceLines(assembly);
    if linhas == [] {
      return Success(map[]);
    }
    var contador: nat := StartCounter(linhas[0]);
    var tabela: SymbolTable := map[];
    var i := 1;
    while i < |linhas|
      invariant 1 <= i <= |linhas|
      invariant FirstPassLines(linhas[i..], contador, tabela) == FirstPass(assembly)
    {
      FirstPassUnfold(linhas, i, contador, tabela);
      var passo := PassoLinha(linhas[i], contador, tabela);
      match passo {
        case Advance(c, t) =>
          contador, tabela := c, t;
        case Halt(t) =>
          return Success(t);
        case Abort(e) =>
          return Failure(e);
      }
      i := i + 1;
    }
    assert linhas[i..] == [];
    return Success(tabela);
  }

  /** The body of the first-pass loop: one line's label, operation and counter advance. */
  method PassoLinha(linha: string, contador: nat, tabela: SymbolTable) returns (passo: Pass1Step)
    ensures passo == FirstPassLine(linha, contador, tabela)
  {
    var partes := SplitLine(linha);
    if partes.None? {
      return Advance(contador, tabela);
    }
    var (head, resto) := partes.value;
    var entrada := Lookup(head);
    if entrada.Some? {
      passo := Contar(entrada.value, resto, contador, tabela);
    } else if head in tabela {
      passo := Abort(DuplicateSymbol(head));
    } else {
      passo := PassoRotulo(resto, contador, tabela[head := contador]);
    }
  }

  /** A labelled line after its label is recorded: the operation, if the next word names one. */
  method PassoRotulo(resto: string, contador: nat, tabela: SymbolTable) returns (passo: Pass1Step)
    ensures passo == LabelledStep(resto, contador, tabela)
  {
    var partes := SplitOnceWhitespace(Trim(resto));
    if partes.None? {
      return Advance(contador, tabela);
    }
    var entrada := Lookup(partes.value.0);
    if entrada.None? {
      return Advance(contador, tabela);
    }
    passo := Contar(entrada.value, partes.value.1, contador, tabela);
  }

  /** The `match` on the operation: END stops the pass, every other operation advances the counter. */
  method Contar(operacao: Operacao, operando: string, contador: nat, tabela: SymbolTable) returns (passo: Pass1Step)
    ensures passo == Count(operacao, operando, contador, tabela)
  {
    match operacao {
      case Start =>
        passo := Advance(contador, tabela);
      case End =>
        passo := Halt(tabela);
      case ByteData =>
        passo := Advance(contador + ByteSize(operando), tabela);
      case WordData =>
        passo := Advance(contador + 3, tabela);
      case ReserveWord =>
        passo := Advance(contador + 3 * CountOperand(operando), tabela);
      case ReserveBytes =>
        passo := Advance(contador + CountOperand(operando), tabela);
      case Instrucao(_, tamanho) =>
        passo := Advance(contador + tamanho, tabela);
    }
  }

  /** One turn of the first-pass loop. */
  lemma {:induction false} FirstPassUnfold(lines: seq<string>, i: nat, counter: nat, table: SymbolTable)
    requires i < |lines|
    ensures FirstPassLines(lines[i..], counter, table) ==
      match FirstPassLine(lines[i], counter, table)
      case Advance(c, t) => FirstPassLines(lines[i + 1..], c, t)
      case Halt(t) => Success(t)
      case Abort(e) => Failure(e)
  {
    assert lines[i..][1..] == lines[i + 1..];
  }
}
