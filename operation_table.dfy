/**
 * The assembler's operation table: every mnemonic and directive it
 * recognises, with the opcode and size of each instruction. Lookup is
 * exact and case-sensitive, and the table never changes.
 */
module OperationTable {
  import opened Outcomes
  import opened Constants

  /** What a table key stands for: a directive, or an instruction with its size in bytes. */
  datatype Operacao =
    | Start
    | End
    | ByteData
    | WordData
    | ReserveWord
    | ReserveBytes
    | Instrucao(hex: Opcode, tamanho: nat)

  /**
   * `TABELA_OPERACOES.get(key)`. The table's entries are listed in three
   * groups: the directives, the plain mnemonics, and the `+` mnemonics
   * (written here without their `+`).
   */
  function Lookup(key: string): Option<Operacao> {
    match Directive(key)
    case Some(d) => Some(d)
    case None =>
      if |key| > 0 && key[0] == '+' then Extended(key[1..]) else Plain(key)
  }

  /** The directive entries. */
  function Directive(key: string): Option<Operacao> {
    match key
    case "START" => Some(Start)
    case "END" => Some(End)
    case "BYTE" => Some(ByteData)
    case "WORD" => Some(WordData)
    case "RESW" => Some(ReserveWord)
    case "RESB" => Some(ReserveBytes)
    case _ => None
  }

  /** The entries whose key is a plain mnemonic. */
  function Plain(key: string): Option<Operacao> {
    match key
    case "ADD" => Some(Instrucao(ADD, 3))
    case "CLEAR" => Some(Instrucao(CLEAR, 2))
    case "STA" => Some(Instrucao(STA, 3))
    case "ADDR" => Some(Instrucao(ADDR, 2))
    case "AND" => Some(Instrucao(AND, 3))
    case "COMP" => Some(Instrucao(COMP, 3))
    case "COMPR" => Some(Instrucao(COMPR, 2))
    case "DIV" => Some(Instrucao(DIV, 3))
    case "DIVR" => Some(Instrucao(DIVR, 2))
    case "J" => Some(Instrucao(J, 3))
    case "JEQ" => Some(Instrucao(JEQ, 3))
    case "JGT" => Some(Instrucao(JGT, 3))
    case "JLT" => Some(Instrucao(JLT, 3))
    case "JSUB" => Some(Instrucao(JSUB, 3))
    case "LDA" => Some(Instrucao(LDA, 3))
    case "LDB" => Some(Instrucao(LDB, 3))
    case "LDCH" => Some(Instrucao(LDCH, 3))
    case "LDL" => Some(Instrucao(LDL, 3))
    case "LDS" => Some(Instrucao(LDS, 3))
    case "LDT" => Some(Instrucao(LDT, 3))
    case "LDX" => Some(Instrucao(LDX, 3))
    case "MUL" => Some(Instrucao(MUL, 3))
    case "MULR" => Some(Instrucao(MULR, 2))
    case "OR" => Some(Instrucao(OR, 3))
    case "RMO" => Some(Instrucao(RMO, 2))
    case "RSUB" => Some(Instrucao(RSUB, 3))
    case "SHIFTL" => Some(Instrucao(SHIFTL, 2))
    case "SHIFTR" => Some(Instrucao(SHIFTR, 2))
    case "STB" => Some(Instrucao(STB, 3))
    case "STCH" => Some(Instrucao(STCH, 3))
    case "STL" => Some(Instrucao(STL, 3))
    case "STS" => Some(Instrucao(STS, 3))
    case "STT" => Some(Instrucao(STT, 3))
    case "STX" => Some(Instrucao(STX, 3))
    case "SUB" => Some(Instrucao(SUB, 3))
    case "SUBR" => Some(Instrucao(SUBR, 2))
    case "TIX" => Some(Instrucao(TIX, 3))
    case "TIXR" => Some(Instrucao(TIXR, 2))
    case _ => None
  }

  /** The entries whose key is `+` followed by `name`. */
  function Extended(name: string): Option<Operacao> {
    match name
    case "ADD" => Some(Instrucao(ADD, 4))
    case "AND" => Some(Instrucao(AND, 4))
    case "COMP" => Some(Instrucao(COMP, 4))
    case "DIV" => Some(Instrucao(DIV, 4))
    case "J" => Some(Instrucao(J, 4))
    case "JEQ" => Some(Instrucao(JEQ, 4))
    case "JGT" => Some(Instrucao(JGT, 4))
    case "JLT" => Some(Instrucao(JLT, 4))
    case "JSUB" => Some(Instrucao(JSUB, 4))
    case "LDA" => Some(Instrucao(LDA, 4))
    case "LDB" => Some(Instrucao(LDB, 4))
    case "LDCH" => Some(Instrucao(LDCH, 4))
    case "LDL" => Some(Instrucao(LDL, 4))
    case "LDS" => Some(Instrucao(LDS, 4))
    case "LDT" => Some(Instrucao(LDT, 4))
    case "LDX" => Some(Instrucao(LDX, 4))
    case "MUL" => Some(Instrucao(MUL, 4))
    case "OR" => Some(Instrucao(OR, 4))
    case "RSUB" => Some(Instrucao(RSUB, 4))
    case "STA" => Some(Instrucao(STA, 4))
    case "STB" => Some(Instrucao(STB, 4))
    case "STCH" => Some(Instrucao(STCH, 4))
    case "STL" => Some(Instrucao(STL, 4))
    case "STS" => Some(Instrucao(STS, 4))
    case "STT" => Some(Instrucao(STT, 4))
    case "STX" => Some(Instrucao(STX, 4))
    case "SUB" => Some(Instrucao(SUB, 4))
    case "TIX" => Some(Instrucao(TIX, 4))
    case _ => None
  }

  /** The mnemonic of each instruction, as the table spells it. */
  function Name(op: Opcode): string {
    match op
    case ADD => "ADD"
    case ADDR => "ADDR"
    case AND => "AND"
    case CLEAR => "CLEAR"
    case COMP => "COMP"
    case COMPR => "COMPR"
    case DIV => "DIV"
    case DIVR => "DIVR"
    case J => "J"
    case JEQ => "JEQ"
    case JGT => "JGT"
    case JLT => "JLT"
    case JSUB => "JSUB"
    case LDA => "LDA"
    case LDB => "LDB"
    case LDCH => "LDCH"
    case LDL => "LDL"
    case LDS => "LDS"
    case LDT => "LDT"
    case LDX => "LDX"
    case MUL => "MUL"
    case MULR => "MULR"
    case OR => "OR"
    case RMO => "RMO"
    case RSUB => "RSUB"
    case SHIFTL => "SHIFTL"
    case SHIFTR => "SHIFTR"
    case STA => "STA"
    case STB => "STB"
    case STCH => "STCH"
    case STL => "STL"
    case STS => "STS"
    case STT => "STT"
    case STX => "STX"
    case SUB => "SUB"
    case SUBR => "SUBR"
    case TIX => "TIX"
    case TIXR => "TIXR"
  }

  /** The size the table gives an instruction written without `+`. */
  function BaseSize(op: Opcode): nat {
    if IsFormat2(op) then 2 else 3
  }

  /** The six directives are exactly the keys START, END, BYTE, WORD, RESW and RESB. */
  lemma {:induction false} Directives(key: string)
    ensures Lookup(key) == Some(Start) <==> key == "START"
    ensures Lookup(key) == Some(End) <==> key == "END"
    ensures Lookup(key) == Some(ByteData) <==> key == "BYTE"
    ensures Lookup(key) == Some(WordData) <==> key == "WORD"
    ensures Lookup(key) == Some(ReserveWord) <==> key == "RESW"
    ensures Lookup(key) == Some(ReserveBytes) <==> key == "RESB"
  {
  }

  /** Every instruction is in the table under its own name, format-2 ones with size 2 and the others with 3. */
  lemma {:induction false} Named(op: Opcode)
    ensures Lookup(Name(op)) == Some(Instrucao(op, BaseSize(op)))
  {
    if op in {J, OR, CLEAR, COMPR, SHIFTL, SHIFTR} {
      NamedShort(op);
    } else if op in {ADDR, COMP, DIVR, JSUB, LDCH, MULR, RSUB, STCH, SUBR, TIXR} {
      NamedFour(op);
    } else if op in {ADD, AND, DIV, JEQ, JGT, JLT, LDA, LDB, LDL, LDS, LDT} {
      NamedThreeLow(op);
    } else {
      NamedThreeHigh(op);
    }
  }

  /** Named, for the names of one, two, five and six letters. */
  lemma {:induction false} NamedShort(op: Opcode)
    requires op in {J, OR, CLEAR, COMPR, SHIFTL, SHIFTR}
    ensures Lookup(Name(op)) == Some(Instrucao(op, BaseSize(op)))
  {
  }

  /** Named, for the four-letter names. */
  lemma {:induction false} NamedFour(op: Opcode)
    requires op in {ADDR, COMP, DIVR, JSUB, LDCH, MULR, RSUB, STCH, SUBR, TIXR}
    ensures Lookup(Name(op)) == Some(Instrucao(op, BaseSize(op)))
  {
  }

  /** Named, for the three-letter names up to LDT. */
  lemma {:induction false} NamedThreeLow(op: Opcode)
    requires op in {ADD, AND, DIV, JEQ, JGT, JLT, LDA, LDB, LDL, LDS, LDT}
    ensures Lookup(Name(op)) == Some(Instrucao(op, BaseSize(op)))
  {
  }

  /** Named, for the three-letter names from LDX on. */
  lemma {:induction false} NamedThreeHigh(op: Opcode)
    requires op in {LDX, MUL, RMO, STA, STB, STL, STS, STT, STX, SUB, TIX}
    ensures Lookup(Name(op)) == Some(Instrucao(op, BaseSize(op)))
  {
  }

  /** `+M` is M with size 4, for exactly the instructions that are not format 2. */
  lemma {:induction false} PlusForm(op: Opcode)
    ensures Lookup("+" + Name(op)) == if IsFormat2(op) then None else Some(Instrucao(op, 4))
  {
    PlusKey(Name(op));
    if IsFormat2(op) {
      NotExtended(op);
    } else if op in {ADD, AND, DIV, JEQ, JGT, JLT, LDA, LDB, LDL, LDS, LDT, LDX} {
      NamedExtendedThreeLow(op);
    } else if op in {MUL, STA, STB, STL, STS, STT, STX, SUB, TIX} {
      NamedExtendedThreeHigh(op);
    } else {
      NamedExtendedOther(op);
    }
  }

  /** A key that starts with `+` is looked up among the extended entries. */
  lemma {:induction false} PlusKey(name: string)
    ensures Lookup("+" + name) == Extended(name)
  {
    var key := "+" + name;
    assert key[0] == '+' && key[1..] == name;
    assert key != "START" && key != "END" && key != "BYTE" && key != "WORD" && key != "RESW" && key != "RESB" by {
      assert "START"[0] != '+' && "END"[0] != '+' && "BYTE"[0] != '+' && "WORD"[0] != '+' && "RESW"[0] != '+' && "RESB"[0] != '+';
    }
  }

  /** No format-2 instruction has a `+` entry. */
  lemma {:induction false} NotExtended(op: Opcode)
    requires IsFormat2(op)
    ensures Extended(Name(op)) == None
  {
  }

  lemma {:induction false} NamedExtendedThreeLow(op: Opcode)
    requires op in {ADD, AND, DIV, JEQ, JGT, JLT, LDA, LDB, LDL, LDS, LDT, LDX}
    ensures Extended(Name(op)) == Some(Instrucao(op, 4))
  {
  }

  lemma {:induction false} NamedExtendedThreeHigh(op: Opcode)
    requires op in {MUL, STA, STB, STL, STS, STT, STX, SUB, TIX}
    ensures Extended(Name(op)) == Some(Instrucao(op, 4))
  {
  }

  lemma {:induction false} NamedExtendedOther(op: Opcode)
    requires op in {J, OR, COMP, JSUB, LDCH, RSUB, STCH}
    ensures Extended(Name(op)) == Some(Instrucao(op, 4))
  {
  }

  /** The table has no other instruction keys: each is a name or a `+` name. */
  lemma {:induction false} OnlyNamed(key: string)
    ensures Lookup(key).Some? && Lookup(key).value.Instrucao? ==>
      var op := Lookup(key).value.hex;
      var size := Lookup(key).value.tamanho;
      || (key == Name(op) && size == BaseSize(op))
      || (key == "+" + Name(op) && size == 4 && !IsFormat2(op))
  {
    Directives(key);
    if |key| > 0 && key[0] == '+' {
      assert key == "+" + key[1..];
      OnlyNamedExtended(key[1..]);
    } else {
      OnlyNamedPlain(key);
    }
  }

  /** A plain entry is an instruction filed under its own name, with its base size. */
  predicate PlainEntry(key: string) {
    Plain(key).Some? ==>
      && Plain(key).value.Instrucao?
      && key == Name(Plain(key).value.hex)
      && Plain(key).value.tamanho == BaseSize(Plain(key).value.hex)
  }

  lemma {:induction false} OnlyNamedPlain(key: string)
    ensures PlainEntry(key)
  {
    if |key| == 3 {
      if key[0] <= 'L' {
        PlainThreeLow(key);
      } else {
        PlainThreeHigh(key);
      }
    } else if |key| == 4 {
      PlainFour(key);
    } else {
      PlainOther(key);
    }
  }

  lemma {:induction false} PlainThreeLow(key: string)
    requires |key| == 3 && key[0] <= 'L'
    ensures PlainEntry(key)
  {
  }

  lemma {:induction false} PlainThreeHigh(key: string)
    requires |key| == 3 && key[0] > 'L'
    ensures PlainEntry(key)
  {
  }

  lemma {:induction false} PlainFour(key: string)
    requires |key| == 4
    ensures PlainEntry(key)
  {
  }

  lemma {:induction false} PlainOther(key: string)
    requires |key| != 3 && |key| != 4
    ensures PlainEntry(key)
  {
  }

  /** A `+` entry is a format-3/4 instruction filed under its own name, with size 4. */
  predicate ExtendedEntry(name: string) {
    Extended(name).Some? ==>
      && Extended(name).value.Instrucao?
      && name == Name(Extended(name).value.hex)
      && Extended(name).value.tamanho == 4 && !IsFormat2(Extended(name).value.hex)
  }

  lemma {:induction false} OnlyNamedExtended(name: string)
    ensures ExtendedEntry(name)
  {
    if |name| == 3 {
      if name[0] <= 'L' {
        ExtendedThreeLow(name);
      } else {
        ExtendedThreeHigh(name);
      }
    } else if |name| == 4 {
      ExtendedFour(name);
    } else {
      ExtendedOther(name);
    }
  }

  lemma {:induction false} ExtendedThreeLow(name: string)
    requires |name| == 3 && name[0] <= 'L'
    ensures ExtendedEntry(name)
  {
  }

  lemma {:induction false} ExtendedThreeHigh(name: string)
    requires |name| == 3 && name[0] > 'L'
    ensures ExtendedEntry(name)
  {
  }

  lemma {:induction false} ExtendedFour(name: string)
    requires |name| == 4
    ensures ExtendedEntry(name)
  {
  }

  lemma {:induction false} ExtendedOther(name: string)
    requires |name| != 3 && |name| != 4
    ensures ExtendedEntry(name)
  {
  }

  /** Every instruction has size 2, 3 or 4. */
  lemma {:induction false} Sizes(key: string)
    ensures Lookup(key).Some? && Lookup(key).value.Instrucao? ==> 2 <= Lookup(key).value.tamanho <= 4
  {
    OnlyNamed(key);
  }
}
