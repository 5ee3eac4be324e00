/**
 * What the two passes promise about one line and about a whole program:
 * labels, the location counter, the symbol table, the encodings and the
 * agreement of the first pass's counter with the second pass's code.
 */
module AssemblerProperties {
  import opened Outcomes
  import opened Bits
  import opened Text
  import opened Constants
  import opened OperationTable
  import opened RegisterTable
  import opened Assembler
  import opened AssemblerEncoding

  // ----- First pass: labels -----

  /** A first word that is not an operation is a label: recorded at the counter, before the line's own size is added. */
  lemma {:induction false} LabelRecorded(line: string, counter: nat, table: SymbolTable)
    requires SplitLine(line).Some? && Lookup(SplitLine(line).value.0).None?
    requires SplitLine(line).value.0 !in table
    ensures
      var s := FirstPassLine(line, counter, table);
      && !s.Abort?
      && s.table == table[SplitLine(line).value.0 := counter]
      && (s.Advance? ==> s.counter >= counter)
  {
    var (name, rest) := SplitLine(line).value;
    assert FirstPassLine(line, counter, table) == LabelledStep(rest, counter, table[name := counter]);
  }

  /** A label seen before is an error that names it. */
  lemma {:induction false} DuplicateLabel(line: string, counter: nat, table: SymbolTable)
    requires SplitLine(line).Some? && Lookup(SplitLine(line).value.0).None?
    requires SplitLine(line).value.0 in table
    ensures FirstPassLine(line, counter, table) == Abort(DuplicateSymbol(SplitLine(line).value.0))
  {
  }

  /** A label followed by one word, or by a word that is not an operation, leaves the counter where it was. */
  lemma {:induction false} LabelWithoutOperation(line: string, counter: nat, table: SymbolTable)
    requires SplitLine(line).Some? && Lookup(SplitLine(line).value.0).None?
    requires SplitLine(line).value.0 !in table
    requires
      var words := SplitOnceWhitespace(Trim(SplitLine(line).value.1));
      words.None? || Lookup(words.value.0).None?
    ensures FirstPassLine(line, counter, table) == Advance(counter, table[SplitLine(line).value.0 := counter])
  {
  }

  /** An entry of the symbol table is never replaced or removed by a line. */
  predicate Extends(bigger: SymbolTable, table: SymbolTable) {
    forall k :: k in table ==> k in bigger && bigger[k] == table[k]
  }

  lemma {:induction false} LineExtends(line: string, counter: nat, table: SymbolTable)
    ensures
      var s := FirstPassLine(line, counter, table);
      !s.Abort? ==> Extends(s.table, table) && (s.Advance? ==> s.counter >= counter)
  {
    match SplitLine(line)
    case None =>
    case Some(parts) =>
      if Lookup(parts.0).None? && parts.0 !in table {
        LabelRecorded(line, counter, table);
      }
  }

  /** Over a whole pass the table only grows: every entry it starts with is in the result unchanged. */
  lemma {:induction false} TableGrows(lines: seq<string>, counter: nat, table: SymbolTable)
    ensures FirstPassLines(lines, counter, table).Success? ==> Extends(FirstPassLines(lines, counter, table).value, table)
    decreases |lines|
  {
    if lines != [] {
      LineExtends(lines[0], counter, table);
      match FirstPassLine(lines[0], counter, table)
      case Advance(c, t) =>
        TableGrows(lines[1..], c, t);
      case Halt(t) =>
      case Abort(e) =>
    }
  }

  // ----- First pass: the counter -----

  /** An instruction line advances the counter by the instruction's size from the table. */
  lemma {:induction false} InstructionAdvances(line: string, counter: nat, table: SymbolTable)
    requires SplitLine(line).Some? && Lookup(SplitLine(line).value.0).Some?
    requires Lookup(SplitLine(line).value.0).value.Instrucao?
    ensures FirstPassLine(line, counter, table) == Advance(counter + Lookup(SplitLine(line).value.0).value.tamanho, table)
    ensures 2 <= Lookup(SplitLine(line).value.0).value.tamanho <= 4
  {
    Sizes(SplitLine(line).value.0);
  }

  /** A character Rust stores in one UTF-8 byte. */
  predicate Ascii(t: string) {
    forall i :: 0 <= i < |t| ==> t[i] as int < 0x80
  }

  lemma {:induction false} AsciiByteLen(t: string)
    requires Ascii(t)
    ensures ByteLen(t) == |t|
  {
    if t != [] {
      AsciiByteLen(t[1..]);
    }
  }

  /**
   * A quoted BYTE operand such as `C'EOF'` reserves the bytes of its text,
   * and one such as `X'F1'` half its digits rounded up; any other kind letter
   * reserves nothing.
   */
  lemma {:induction false} QuotedByteSize(kind: char, t: string)
    requires kind as int < 0x80 && Ascii(t)
    requires t != [] && t[0] != '\'' && t[|t| - 1] != '\''
    ensures ByteSize([kind] + "'" + t + "'") == if kind == 'C' then |t| else if kind == 'X' then (|t| + 1) / 2 else 0
  {
    var operand := [kind] + "'" + t + "'";
    assert operand[1..] == "'" + t + "'";
    assert ("'" + t + "'")[1..] == t + "'";
    assert TrimStartChar("'" + t + "'", '\'') == t + "'";
    assert (t + "'")[..|t|] == t;
    assert TrimEndChar(t + "'", '\'') == t;
    AsciiByteLen(t);
  }

  /**
   * A directive line moves the counter by a fixed amount or by its operand:
   * START by nothing, WORD by 3, RESW by three bytes per word and RESB by
   * one per byte. The operand is everything after the first whitespace, so
   * one that does not parse, or that starts with a second space, counts 0.
   */
  lemma {:induction false} DirectiveCounts(line: string, counter: nat, table: SymbolTable)
    requires SplitLine(line).Some? && Lookup(SplitLine(line).value.0).Some?
    ensures
      var (head, operand) := SplitLine(line).value;
      var r := FirstPassLine(line, counter, table);
      var n := if ParseUsize(operand).Some? then ParseUsize(operand).value else 0;
      && (Lookup(head) == Some(Start) ==> r == Advance(counter, table))
      && (Lookup(head) == Some(WordData) ==> r == Advance(counter + 3, table))
      && (Lookup(head) == Some(ReserveWord) ==> r == Advance(counter + 3 * n, table))
      && (Lookup(head) == Some(ReserveBytes) ==> r == Advance(counter + n, table))
    ensures
      var operand := SplitLine(line).value.1;
      operand != [] && IsWhitespace(operand[0]) ==> ParseUsize(operand).None?
  {
    var operand := SplitLine(line).value.1;
    if operand != [] && IsWhitespace(operand[0]) {
      assert operand[0] != '+';
      assert DigitValue(operand[0], 10).None?;
    }
  }

  /**
   * The first pass reads the START operand as decimal and the second as
   * hexadecimal: `START 1000` starts the counter at 1000 and writes a
   * start address of 0x1000, so the object program and the symbol table
   * disagree by 3096 for such a program.
   */
  lemma {:induction false} StartRadix(header: string)
    requires
      var tokens := SplitWhitespace(header);
      |tokens| >= 3 && tokens[1] == "START" && tokens[2] == "1000"
    ensures StartCounter(header) == 1000
    ensures StartAddress(SplitWhitespace(header)) == 0x1000
  {
    var d: string := "1000";
    assert d[..3] == "100" && d[..3][..2] == "10" && d[..3][..2][..1] == "1";
    assert "1"[..0] == [];
    assert AllDigits(d, 10) && AllDigits(d, 16);
    assert DigitsValue("1", 10) == 1 && DigitsValue("1", 16) == 1;
    assert DigitsValue("10", 10) == 10 && DigitsValue("10", 16) == 16;
    assert DigitsValue("100", 10) == 100 && DigitsValue("100", 16) == 256;
    assert DigitsValue(d, 10) == 1000 && DigitsValue(d, 16) == 4096;
  }

  /**
   * Read in one radix, the start agrees: the hexadecimal first pass counts
   * from the address the header record carries, and on `START 1000` that
   * is 0x1000 where the decimal first pass has 1000.
   */
  lemma {:induction false} HexStartAgrees(assembly: string)
    requires SourceLines(assembly) != [] && Header(SourceLines(assembly)).Success?
    ensures HexFirstPass(assembly)
      == FirstPassLines(SourceLines(assembly)[1..], Header(SourceLines(assembly)).value.1, map[])
    ensures
      var tokens := SplitWhitespace(SourceLines(assembly)[0]);
      |tokens| >= 3 && tokens[1] == "START" && tokens[2] == "1000" ==>
        Header(SourceLines(assembly)).value.1 == 0x1000 && StartCounter(SourceLines(assembly)[0]) == 1000
  {
    var lines := SourceLines(assembly);
    var tokens := SplitWhitespace(lines[0]);
    assert tokens != [];
    assert Header(lines).value.1 == StartAddress(tokens);
    if |tokens| >= 3 && tokens[1] == "START" && tokens[2] == "1000" {
      StartRadix(lines[0]);
    }
  }

  // ----- Both passes -----

  /** A line that is one word once its comment is gone is skipped by both passes, RSUB included. */
  lemma {:induction false} OneWordSkipped(f: Format2, codes: OpcodeTable, symbols: SymbolTable, line: string, counter: nat, table: SymbolTable)
    requires NoWhitespace(Trim(Before(line, '.')))
    ensures FirstPassLine(line, counter, table) == Advance(counter, table)
    ensures SecondPassLine(f, codes, symbols, line) == Emit("")
  {
    assert SplitLine(line).None?;
  }

  /** After a label, an operation missing from the table only leaves the label to the first pass, but fails the second. */
  lemma {:induction false} UnknownOperation(f: Format2, codes: OpcodeTable, symbols: SymbolTable, line: string, counter: nat, table: SymbolTable)
    requires SplitLine(line).Some? && Lookup(SplitLine(line).value.0).None?
    requires SplitLine(line).value.0 !in table
    requires
      var words := SplitOnceWhitespace(Trim(SplitLine(line).value.1));
      words.Some? && Lookup(words.value.0).None?
    ensures FirstPassLine(line, counter, table) == Advance(counter, table[SplitLine(line).value.0 := counter])
    ensures SecondPassLine(f, codes, symbols, line) ==
      Reject(InvalidOperation(SplitOnceWhitespace(Trim(SplitLine(line).value.1)).value.0))
  {
  }

  /** START, BYTE, WORD, RESW and RESB give no code in the second pass. */
  lemma {:induction false} DirectivesEmitNothing(f: Format2, codes: OpcodeTable, symbols: SymbolTable, op: Operacao, operand: string)
    requires op in {Start, ByteData, WordData, ReserveWord, ReserveBytes}
    ensures OperationStep(f, codes, symbols, op, operand) == Emit("")
  {
  }

  /** END stops both passes. */
  lemma {:induction false} EndStops(f: Format2, codes: OpcodeTable, symbols: SymbolTable, operand: string, counter: nat, table: SymbolTable)
    ensures Count(End, operand, counter, table) == Halt(table)
    ensures OperationStep(f, codes, symbols, End, operand) == Finish
  {
  }
}
