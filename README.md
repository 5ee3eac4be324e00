# A verified model of a SIC/XE toolchain

This project is a Dafny model of the core of `maquina-virtual`, a small
SIC/XE toolchain written in Rust. The toolchain has seven parts:

- a machine with ten registers (`[u64; 10]`) and 32768 bytes of memory;
- an executor that runs one instruction at a time;
- a loader that reads a program from hexadecimal text;
- a two-pass assembler;
- the assembler's static operation and register tables;
- three independent macro processors.

Every part is sequential and deterministic, and every failure is a
returned error. The model keeps this structure:

| file | module | models |
|---|---|---|
| `outcomes.dfy` | `Outcomes` | `Option`, `Result` and a unit `Outcome` |
| `text.dfy` | `Text` | the Rust `str` operations the sources use: `trim`, `split_whitespace`, `split_once`, `split`, `replace`, `trim_matches`, `lines`, `join`, `parse`/`from_str_radix`, `{:X}` formatting |
| `bits.dfy` | `Bits` | `&`, `\|`, shifts and big-endian bit fields on naturals; this stands in for the `bitreader` crate |
| `constants.dfy` | `Constants` | register numbering, memory size and the opcode mnemonics |
| `register_table.dfy` | `RegisterTable` | `TABELA_REGISTRADORES` |
| `operation_table.dfy` | `OperationTable` | `TABELA_OPERACOES` |
| `executor.dfy` | `Executor` | `set_registrador` and `executar_instrucao` |
| `executor_operands.dfy`, `executor_properties.dfy`, `executor_errors.dfy` | `ExecutorOperands`, `ExecutorProperties`, `ExecutorErrors` | what one step does, family by family: operands and dispatch, format-2 instructions and the condition code, errors |
| `machine.dfy` | `Machine` | `Maquina` (`new`, `carregar`, `registrador`, `executar_instrucao`) and the machine's test program |
| `loader.dfy` | `Loader` | the hex-pair decoding loop of `carregar_programa` and its hand-off to `carregar` |
| `assembler.dfy`, `assembler_properties.dfy` | `Assembler`, `AssemblerProperties` | `primeiro_passo` and the line handling both passes share |
| `assembler_encoding.dfy`, `assembler_layout.dfy` | `AssemblerEncoding`, `AssemblerLayout` | `segundo_passo`, and how its code lines up with the loader and the executor |
| `macros_nested.dfy`, `macros_nested_properties.dfy` | `NestedMacros`, `NestedMacroProperties` | the recursive processor of `src/processador_macros/macros.rs` |
| `macros_buffer.dfy`, `macros_buffer_properties.dfy` | `BufferMacros`, `BufferMacroProperties` | the line-buffer processor of `src/montador/macros.rs` |
| `macro_processor.dfy`, `macro_processor_properties.dfy` | `CollectingMacros`, `CollectingMacroProperties` | `MacroProcessador` of `src/macro_pros/processador_macro.rs` |

## How the state-changing code is modelled

The state-changing code is written as methods that loop over arrays,
sequences and maps. Each method is proved equal to a specification
function:

- `Executor.ExecutarInstrucao` works on the register array in place and
  equals `Execute`.
- `Machine.Maquina.Carregar` copies into the memory array.
- `Assembler.PrimeiroPasso`, `AssemblerEncoding.SegundoPasso` and the
  three `Processar` methods loop over lines as the sources do.
- `BufferMacros.Processar` inserts macro bodies into the very line buffer
  it is walking.
- `CollectingMacros.MacroProcessador` is a class whose `macroDef` table
  is updated by `Processar` and `Limpar`.

The properties are lemmas about those functions.

The opcode values live in a constants module that is not part of this
model. They are therefore a parameter `codes: OpcodeTable`, constrained by
`ValidCodes`:

- every value fits in a byte and has its two low bits clear;
- distinct mnemonics have distinct values;
- ADD is 0x18, which the machine's tests fix by executing 0x19 as ADD
  immediate.

The SIC/XE values are shown to satisfy it (`Constants.StandardCodesValid`).
Register indices are the display order A, X, L, B, S, T, F, (unnamed 7),
PC, SW = 0..9.

## Model

| member | source | states |
|---|---|---|
| RegisterTable.Keys | src/montador/tabela_registradores.rs:4-14 | a name is in the register table iff it is one of A, X, L, B, S, T, F, PC, SW |
| RegisterTable.Indices | src/montador/tabela_registradores.rs:5-13 | every index is below 10 and is not the unnamed slot 7; distinct names have distinct indices |
| RegisterTable.Named | src/montador/tabela_registradores.rs:4-14 | every index below 10 other than 7 has a name |
| Constants.StandardCodesValid | src/maquina/tests.rs:5-9 | the SIC/XE opcode values satisfy `ValidCodes`, so the constraint on the unseen constants can be met |
| Constants.StandardRoundTrip | src/montador/tabela_operacoes.rs:22-350 | the standard value of each mnemonic maps back to that mnemonic, so the values are distinct |
| OperationTable.Directives | src/montador/tabela_operacoes.rs:15-20 | each of the six directive variants is found exactly under its key START, END, BYTE, WORD, RESW, RESB |
| OperationTable.Named | src/montador/tabela_operacoes.rs:22-350 | every instruction is in the table under its own name, with size 2 for the ten register instructions and 3 otherwise |
| OperationTable.PlusForm | src/montador/tabela_operacoes.rs:22-350 | `+M` is M's opcode with size 4 for every instruction that is not format 2, and is absent for the format-2 ones |
| OperationTable.PlusKey | src/montador/tabela_operacoes.rs:14-351 | a key starting with `+` is found only among the extended entries |
| OperationTable.NotExtended | src/montador/tabela_operacoes.rs:27-30 | no format-2 instruction has a `+` entry |
| OperationTable.OnlyNamed | src/montador/tabela_operacoes.rs:14-351 | the table has no other instruction keys: every instruction key is a mnemonic's name or `+` and that name |
| OperationTable.Sizes | src/montador/tabela_operacoes.rs:22-350 | every instruction entry has size 2, 3 or 4 |
| Executor.SetReg | src/maquina/executor.rs:7-16 | the register file after a write: slot n holds the value mod 2^48 for F and mod 2^24 otherwise, a slot of 10 or more is a no-op, no other slot changes, and every register stays within its width |
| Executor.SetRegistrador | src/maquina/executor.rs:7-16 | `set_registrador` on the register array leaves exactly `SetReg` of the old contents |
| Executor.Word | src/maquina/executor.rs:217-230 | the big-endian three-byte value at an address; it exists iff address + 2 is inside memory, and is below 2^24 |
| Executor.Execute | src/maquina/executor.rs:19-488 | the specification of one step; it keeps ten registers, each within its width |
| Executor.ExecutarInstrucao | src/maquina/executor.rs:19-488 | `executar_instrucao` on the register array gives exactly the outcome and registers of `Execute` on the old registers; memory is only read |
| Executor.ExecuteInstruction | src/maquina/executor.rs:30-476 | the opcode match on the register array agrees with the specification `Instruction` |
| Executor.UpdateConditionCode | src/maquina/executor.rs:66-77 | the three-way SW update on the array agrees with `SetConditionCode` |
| ExecutorProperties.DecodeFormat2 | src/maquina/executor.rs:32-41 | the opcode byte is read first and the two register nibbles are the high and low halves of the next byte |
| ExecutorProperties.DecodeFormat3 | src/maquina/executor.rs:197-209 | the flag bits and the 15- or 12-bit field are read from the second and third bytes |
| ExecutorProperties.DecodeFormat4 | src/maquina/executor.rs:242-246 | the 20-bit field is read from the low nibble of byte 1 and bytes 2 and 3 |
| ExecutorProperties.Format2Step | src/maquina/executor.rs:31-193 | with distinct opcode values, a format-2 opcode at PC runs that mnemonic's arm and then the PC advance |
| ExecutorProperties.BinaryStep | src/maquina/executor.rs:32-171 | ADDR, SUBR, MULR and DIVR write (r1 op r2) to the second nibble's register, reduced; a nibble of 10 or more is `RegisterNotFound`, a Rust panic is `ArithmeticPanic`, and both leave every register unchanged; on success PC advances by 2 |
| ExecutorProperties.ClearStep | src/maquina/executor.rs:50-53 | CLEAR zeroes the first nibble's register, and a nibble of 10 or more changes nothing; PC advances by 2 |
| ExecutorProperties.MoveStep | src/maquina/executor.rs:116-124 | RMO copies the first nibble's register into the second's; a bad first nibble is an error |
| ExecutorProperties.ShiftStep | src/maquina/executor.rs:126-152 | SHIFTL and SHIFTR shift the first nibble's register by the count in the second nibble, reduced |
| ExecutorProperties.CompareStep | src/maquina/executor.rs:55-78 | COMPR compares the two nibbles' registers and updates SW by `SetConditionCode` |
| ExecutorProperties.TestIndexStep | src/maquina/executor.rs:172-193 | TIXR writes X + 1 first, even when the nibble is bad, then compares the old X with the named register read after the increment |
| ExecutorProperties.JumpTests | src/maquina/executor.rs:461-473 | `SW & 0x018000 == 0` iff the condition code (bits 16 and 15) is 0, and `== 0x010000` iff it is 2 |
| ExecutorProperties.ConditionCodeAfter | src/maquina/executor.rs:66-77 | "greater" sets bit 16, "less" sets bits 15 and 16, "equal" clears bits 16 and 17, and no other bit or register changes; the first clear on the greater branch is overwritten, and bit 15 is never cleared (the TIXR arm repeats it at lines 181-192) |
| ExecutorProperties.CompareDecidesJumps | src/maquina/executor.rs:461-473 | with bit 15 clear, after a comparison JEQ jumps iff the operands were equal and JGT iff the first was greater; once bit 15 is set, neither ever jumps (the comparison is at lines 66-77) |
| ExecutorOperands.TargetFlags | src/maquina/executor.rs:234-413 | an accepted flag nibble adds X, B and PC as its x, b and p bits say, to a field 20 bits wide exactly when e is set; any other nibble is `InvalidAddressingMode` |
| ExecutorOperands.TargetLength | src/maquina/executor.rs:234-413 | the instruction is four bytes long exactly when the e flag is set, and three otherwise |
| ExecutorOperands.SimpleOperand | src/maquina/executor.rs:206-230 | mode 0: the 15-bit address, plus X when the flag bit is set, names a three-byte word; length 3; an address + 2 outside memory is an error |
| ExecutorOperands.ImmediateOperand | src/maquina/executor.rs:234-268 | mode 1: the target itself is the value, memory is not read, and the nibbles {8, 9, 10, 12} are rejected |
| ExecutorOperands.IndirectOperand | src/maquina/executor.rs:271-335 | mode 2: memory is read twice, and the indexed nibbles are rejected |
| ExecutorOperands.DirectOperand | src/maquina/executor.rs:339-428 | mode 3: the target, which may be indexed, names the operand's three-byte word |
| ExecutorOperands.FetchedBounds | src/maquina/executor.rs:416-428 | a three-byte read fails exactly when it reaches address 32768 or beyond |
| ExecutorOperands.DispatchArithmetic | src/maquina/executor.rs:435-451 | ADD, AND and OR combine the value into A, reduced; no other register changes |
| ExecutorOperands.DispatchJumps | src/maquina/executor.rs:453-459 | RSUB sets PC to L, and J sets PC to the value |
| ExecutorOperands.DispatchConditional | src/maquina/executor.rs:461-473 | JEQ jumps iff the condition code is 0 and JGT iff it is 2; otherwise nothing changes |
| ExecutorOperands.DispatchInvalid | src/maquina/executor.rs:475 | any other opcode is `InvalidInstruction` and changes nothing |
| ExecutorOperands.Format34Parts | src/maquina/executor.rs:197-203 | the mode is the low two bits of the opcode byte, and the dispatch uses `opcode & 0xFC` |
| ExecutorOperands.Format34Step | src/maquina/executor.rs:195-476 | a byte that is no format-2 opcode runs the format-3/4 decoder and then the PC advance |
| ExecutorOperands.JumpAdvance | src/maquina/executor.rs:459-485 | after a taken jump PC is (target + the jump's own length) mod 2^24, because the advance follows the dispatch |
| ExecutorOperands.ModeBitsNotFormat2 | src/maquina/executor.rs:31-195 | a byte with mode bits set is never a format-2 opcode |
| ExecutorOperands.AddImmediateStep | src/maquina/tests.rs:5-9 | bytes 19 00 01 are ADD immediate with the value 1: they add 1 to A and advance PC by 3 |
| ExecutorOperands.ZeroBytesStep | src/maquina/tests.rs:24-42 | three zero bytes (LDA in SIC format) are an invalid instruction for this machine |
| ExecutorErrors.InstructionKeeps | src/maquina/executor.rs:30-476 | a failing instruction changed no register, unless it was TIXR, which changed only X |
| ExecutorErrors.ErrorsKeepState | src/maquina/executor.rs:19-485 | a failing step leaves PC unchanged and every other register unchanged, except that a failing TIXR has already written X |
| ExecutorErrors.TestIndexFailure | src/maquina/executor.rs:172-179 | a TIXR failure keeps its X + 1 write |
| ExecutorErrors.PcPastMemory | src/maquina/executor.rs:23-25 | a PC beyond 32768 is `InvalidPc` and changes nothing |
| ExecutorErrors.PcAtMemoryEnd | src/maquina/executor.rs:23-30 | a PC of exactly 32768 fetches nothing, and the step succeeds with PC advanced by 2 (the advance is at lines 481-485) |
| Machine.Loaded | src/maquina/maquina.rs:21-24 | memory after the copy: `program[i]` at 0x6000 + i, every other byte unchanged, same size |
| Machine.Maquina.constructor | src/maquina/maquina.rs:12-17 | `new`: ten registers and 32768 bytes of memory, all zero |
| Machine.Maquina.Carregar | src/maquina/maquina.rs:20-28 | fails iff 0x6000 + len > 32768, and then changes nothing; on success memory is `Loaded` and PC is 0x6000 with every other register kept |
| Machine.Maquina.Registrador | src/maquina/maquina.rs:31-33 | `Some(reg[n])` iff n < 10, otherwise `None`; it reads only |
| Machine.Maquina.ExecutarInstrucao | src/maquina/maquina.rs:36-38 | the machine's step is the executor's step on its own registers; memory is unchanged |
| Machine.AddOneStep | src/maquina/tests.rs:5-9 | one ADD-immediate step adds 1 to A and moves PC past its three bytes |
| Machine.ThreeAdds | src/maquina/tests.rs:24-42 | from three copies of 19 00 01, A goes through 1, 2 and 3, and the fourth step fails |
| Machine.ProgramaComMultiplasInstrucoes | src/maquina/tests.rs:24-42 | the test itself: load the program into a new machine; three steps give A = 1, 2, 3, and the fourth step fails |
| Loader.PairAccepted | src/gui/carregar_programa.rs:19-21 | a pair parses iff it is two hex digits of either case, or `+` and one digit, and gives their value |
| Loader.DecodePairsBound | src/gui/carregar_programa.rs:15-23 | at most one byte per pair, so at most half the trimmed length; a trailing odd character gives nothing |
| Loader.InvalidPairSkipped | src/gui/carregar_programa.rs:20-22 | a pair that does not parse is neither an error nor a byte |
| Loader.ValidPairKept | src/gui/carregar_programa.rs:19-21 | a pair that parses contributes its byte ahead of the rest, in order |
| Loader.DecodeEncode | src/gui/carregar_programa.rs:13-23 | decoding the `{:02X}` text of any byte sequence returns that sequence |
| Loader.DecodificarHex | src/gui/carregar_programa.rs:13-23 | the two-characters-at-a-time loop over the trimmed text yields exactly `DecodeHex` |
| Loader.CarregarPrograma | src/gui/carregar_programa.rs:25 | loading the decoded bytes has `carregar`'s contract, with its error passed on unchanged |
| Assembler.SkipComments | src/montador/montador.rs:9 | the lines left are a suffix of the input whose first line does not start with `.` |
| Assembler.SkippedAreComments | src/montador/montador.rs:9 | every skipped leading line starts with `.` once trimmed |
| Assembler.CommentIgnored | src/montador/montador.rs:28-31 | everything from the first `.` on a line is ignored (pass 2 at lines 133-136) |
| Assembler.Count | src/montador/montador.rs:61-93 | END stops the pass, every other operation advances the counter and keeps the table, and an instruction adds its table size |
| Assembler.PrimeiroPasso | src/montador/montador.rs:7-97 | the first-pass loop, with its counter and symbol table, returns exactly `FirstPass` |
| AssemblerProperties.LabelRecorded | src/montador/montador.rs:40-59 | a first word that is not an operation is recorded at the current counter, before the line's own size is added |
| AssemblerProperties.DuplicateLabel | src/montador/montador.rs:44-46 | a label seen before is an error naming it |
| AssemblerProperties.LabelWithoutOperation | src/montador/montador.rs:48-55 | a label followed by one word, or by an unknown operation, is recorded and the counter does not move |
| AssemblerProperties.TableGrows | src/montador/montador.rs:25-96 | over a whole pass every entry the table starts with is kept unchanged |
| AssemblerProperties.InstructionAdvances | src/montador/montador.rs:90-92 | an instruction line advances the counter by the table size, which is 2, 3 or 4 |
| AssemblerProperties.QuotedByteSize | src/montador/montador.rs:65-76 | `C'..'` reserves the bytes of its text, `X'..'` half its digits rounded up, and any other kind letter nothing |
| AssemblerProperties.DirectiveCounts | src/montador/montador.rs:78-88 | START adds nothing, WORD 3, RESW 3·n and RESB n, where an operand that does not parse, or that keeps a second leading space, counts as 0 |
| AssemblerProperties.StartRadix | src/montador/montador.rs:17-22 | the same START operand is read as decimal by the first pass and as hexadecimal by the second: `START 1000` is 1000 and 0x1000 (the second pass at lines 121-127) |
| AssemblerProperties.HexStartAgrees | src/montador/montador.rs:121-127 | the first pass counting from the START operand read as hexadecimal starts at the header record's address, which on `START 1000` is 0x1000 where the decimal first pass (lines 17-22) has 1000 |
| AssemblerProperties.OneWordSkipped | src/montador/montador.rs:33-35 | a line that is one word once its comment is removed is skipped by both passes, RSUB included (pass 2 at lines 138-140) |
| AssemblerProperties.UnknownOperation | src/montador/montador.rs:53-55 | after a label, an unknown operation only leaves the label in the first pass, but is `InvalidOperation` in the second (pass 2 at lines 153-155) |
| AssemblerProperties.DirectivesEmitNothing | src/montador/montador.rs:276 | START, BYTE, WORD, RESW and RESB contribute no code in the second pass |
| AssemblerProperties.EndStops | src/montador/montador.rs:63 | END stops both passes (pass 2 at line 162) |
| AssemblerEncoding.ResolveRegister | src/montador/montador.rs:168-180 | a register operand is the table's index for a name, otherwise a decimal `u8` that is at most 9; the result is below 10 |
| AssemblerEncoding.EncodeRegistersAsWritten | src/montador/montador.rs:164-219 | the format-2 encoding as written; it differs from `EncodeRegisters` only for CLEAR and TIXR |
| AssemblerEncoding.AddressingMode | src/montador/montador.rs:223-231 | `#` gives mode 1, `@` mode 2, anything else mode 3 |
| AssemblerEncoding.FlagNibble | src/montador/montador.rs:235-243 | the nibble is one of 0, 1, 8, 9: its e bit is set iff the size is 4, and its x bit iff the operand ends in `,X` |
| AssemblerEncoding.OperandValue | src/montador/montador.rs:245-265 | the symbol's address, else the decimal operand; `InvalidOperand` iff it is neither; `OperandTooLarge` iff the value exceeds 4095 in a size-3 instruction |
| AssemblerEncoding.Header | src/montador/montador.rs:109-128 | a missing name is `MissingName`; a name longer than 6 bytes is `NameTooLong`; otherwise the name and the hex START address |
| AssemblerEncoding.SegundoPasso | src/montador/montador.rs:99-288 | the second-pass loop returns exactly `SecondPass(AsWritten, …)`, the `H`/`T`/`E` records of `ObjectProgram`, with CLEAR and TIXR written as the source writes them |
| AssemblerEncoding.EncodeInstruction | src/montador/montador.rs:163-273 | a size other than 2 is `EncodeOperand`; a size-2 instruction fails exactly when the register encoding fails, and as written gets one extra `0` exactly for CLEAR and TIXR |
| AssemblerEncoding.CodificarInstrucao | src/montador/montador.rs:163-273 | the instruction encoder, with the register text as written, returns exactly `EncodeInstruction(AsWritten, …)` |
| AssemblerEncoding.CodificarOperando | src/montador/montador.rs:222-272 | encoding a format-3/4 instruction while reassigning the operand gives exactly `EncodeOperand` |
| AssemblerLayout.RegisterRoundTrip | src/montador/montador.rs:164-219 | the corrected format-2 code is four digits that decode to the opcode and a byte whose nibbles are the registers the executor reads (decoded by src/maquina/executor.rs:32-41) |
| AssemblerLayout.SingleRegisterMisaligns | src/montador/montador.rs:182 | as written, CLEAR and TIXR have one digit too many, so the decoder pairs the extra `0` with the next instruction's first digit |
| AssemblerLayout.ClearEncodings | src/montador/montador.rs:182 | with the standard opcodes `CLEAR A` is written B4000 as written and B400 as corrected |
| AssemblerLayout.AddOneEncoding | src/montador/montador.rs:222-272 | with the standard opcodes `ADD #1` is written 190001 |
| AssemblerLayout.ClearThenAddLoads | src/montador/montador.rs:182 | `CLEAR A` then `ADD #1` loads (src/gui/carregar_programa.rs:13-23) as B4 00 01 90 00 as written, and as B4 00 19 00 01 corrected |
| AssemblerLayout.ClearThenAddRuns | src/maquina/executor.rs:19-488 | from B4 00 01 90 00 the machine clears A and moves 2 bytes on, and then rejects 01 90 00 with `InvalidAddressingMode`: the ADD is lost |
| AssemblerLayout.MisreadImmediate | src/maquina/executor.rs:197-204 | the bytes 01 90 read as an instruction are an immediate LDA whose flag nibble 9 immediate mode rejects with `InvalidAddressingMode` |
| AssemblerLayout.OperandRoundTrip | src/montador/montador.rs:222-272 | a format-3/4 instruction assembles to text that loads (src/gui/carregar_programa.rs:13-23) as the opcode with the mode in its low bits, the flag nibble with the field's top digit, and the rest of the field |
| AssemblerLayout.AssembledTarget | src/montador/montador.rs:222-272 | the executor reads back the mode, the opcode, the value (plus X for `,X`) and the length the first pass counted, for flags 0, 1, 8 and 9 (read back by src/maquina/executor.rs:197-204 and 340-389) |
| AssemblerLayout.CodeMatchesCount | src/montador/montador.rs:163-273 | an instruction's code is twice its size in digits, and at least eight for size 4; as written, CLEAR and TIXR are the exception with 2·size+1 digits |
| AssemblerLayout.CounterMatchesCode | src/montador/montador.rs:163-273 | on an instruction line the first pass advances the counter by the instruction's size (lines 90-92); the corrected second pass writes twice that many digits (at least eight for size 4), while as written CLEAR and TIXR write 2·size+1 |
| AssemblerLayout.LabelledCounterMatchesCode | src/montador/montador.rs:43-59 | the same on a labelled line, with the label recorded at the counter (pass 2 at lines 148-159): twice the size corrected, 2·size+1 for CLEAR and TIXR as written |
| NestedMacros.Substituir | src/processador_macros/macros.rs:83-99 | the substitution loop: under bindings and not a comment, each pair is replaced in declared order and then `->` is deleted; otherwise the line is unchanged (the copy at lines 145-161 is the same) |
| NestedMacros.CopiedVerbatim | src/processador_macros/macros.rs:145-161 | without bindings, or on a comment line, a line is copied as it is |
| NestedMacros.UntouchedLine | src/processador_macros/macros.rs:88-93 | a line in which no parameter and no `->` occurs is copied as it is |
| NestedMacros.ArgumentReplacesParameter | src/processador_macros/macros.rs:150-152 | a line that is just a parameter becomes its argument |
| NestedMacros.AmpersandedParts | src/processador_macros/macros.rs:40-47 | exactly the comma-split parts that are non-empty and start with `&` are the parameters, in order |
| NestedMacros.Processar | src/processador_macros/macros.rs:10-13 | `processar` is `passo` over the whole input with an empty table and no bindings |
| NestedMacros.Passo | src/processador_macros/macros.rs:15-169 | the loop over the lines with its level, open definition and output gives exactly `Run` |
| NestedMacroProperties.BlankLineDropped | src/processador_macros/macros.rs:24-26 | a blank or whitespace-only line changes nothing and emits nothing |
| NestedMacroProperties.HeaderOpens | src/processador_macros/macros.rs:31-55 | a header at level 0 defines the macro named by its first token, with the `&` parameters of its third token and an empty body; nothing is emitted |
| NestedMacroProperties.InertCaptured | src/processador_macros/macros.rs:80-101 | inside a definition, another line is appended to the body with a newline |
| NestedMacroProperties.HeaderCaptured | src/processador_macros/macros.rs:80-101 | a nested header is appended to the body and raises the level |
| NestedMacroProperties.MendCaptured | src/processador_macros/macros.rs:57-69 | a nested MEND is appended to the body and lowers the level |
| NestedMacroProperties.MendHeaderCaptured | src/processador_macros/macros.rs:31-69 | a header whose label is MEND raises and lowers the level, and is appended to the body |
| NestedMacroProperties.MendCloses | src/processador_macros/macros.rs:57-68 | at level 1, MEND as first or second token ends the definition; the table and the output are unchanged |
| NestedMacroProperties.UnmatchedMend | src/processador_macros/macros.rs:63-68 | a MEND outside any definition drives the level to -1 and is emitted |
| NestedMacroProperties.PlainLineCopied | src/processador_macros/macros.rs:144-164 | outside a definition, a line naming no macro is emitted, substituted, with a newline |
| NestedMacroProperties.CallReachesInvoke | src/processador_macros/macros.rs:71-107 | a call by the first token, or by the second after an unknown first token, reaches the expansion with its argument token; the label is dropped |
| NestedMacroProperties.CallExpands | src/processador_macros/macros.rs:140-143 | a call of a macro without parameters, or without an argument token, emits the body expanded without bindings, and the count is not checked |
| NestedMacroProperties.CallWithArguments | src/processador_macros/macros.rs:112-139 | a call with as many arguments as parameters emits the body expanded under the zipped (parameter, argument) pairs in declared order |
| NestedMacroProperties.ArgumentCountMismatch | src/processador_macros/macros.rs:109-124 | a macro with parameters called with an argument token of a different count is the error with name, expected and received counts |
| NestedMacroProperties.CallWithoutFuel | src/processador_macros/macros.rs:135-142 | once the expansion depth bound is used up, a call is reported as `DepthExceeded` |
| NestedMacroProperties.DefinitionRecorded | src/processador_macros/macros.rs:31-101 | a definition from header to MEND emits nothing and records the header's parameters and the body's non-blank lines, each with a newline |
| NestedMacroProperties.PlainPassesThrough | src/processador_macros/macros.rs:144-164 | outside a definition, lines naming no macro are emitted in order and the table is kept |
| NestedMacroProperties.LinesOfUnlines | src/processador_macros/macros.rs:24 | `lines` gives back lines joined with newlines, for lines without newline or trailing carriage return |
| NestedMacroProperties.DefineThenCall | src/processador_macros/tests.rs:4-8 | a parameterless macro defined and then called on its own line expands to its body line for line; header, MEND and call emit nothing |
| BufferMacros.FirstMacro | src/montador/macros.rs:79-80 | the index of the first word that names a macro: all earlier words are not names; `None` iff no word is a name |
| BufferMacros.Step | src/montador/macros.rs:27-106 | one pass of the loop keeps `Valid`: every NAMTAB entry points into DEFTAB, and a definition is open iff the level is 1 or more |
| BufferMacros.Processar | src/montador/macros.rs:16-107 | the loop over a buffer that grows under it gives exactly `Expand`, the text after at most `fuel` lines read |
| BufferMacros.Passo | src/montador/macros.rs:27-106 | one pass of the loop body on the loop's variables is exactly `Step` |
| BufferMacros.Procurar | src/montador/macros.rs:79-101 | the search loop over the words returns `FirstMacro` |
| BufferMacros.Inserir | src/montador/macros.rs:86-89 | inserting the body in reverse at i leaves it at i in its own order |
| BufferMacros.ReadOne | src/montador/macros.rs:86-89 | after a line is read and its body inserted, the buffer from i + 1 holds what `Run` reads next |
| BufferMacroProperties.BlankCopied | src/montador/macros.rs:33-40 | outside a definition, a blank or comment line is written with a newline |
| BufferMacroProperties.BlankCaptured | src/montador/macros.rs:37-40 | inside a definition, a blank or comment line goes to the body |
| BufferMacroProperties.HeaderOpens | src/montador/macros.rs:44-54 | outside a definition, any line that contains MACRO opens one at level 1, named by its first word or SEM_NOME; nothing is written |
| BufferMacroProperties.NestedHeader | src/montador/macros.rs:44-46 | inside a definition, a line containing MACRO raises the level and goes to the body |
| BufferMacroProperties.MendCloses | src/montador/macros.rs:58-66 | a trimmed MEND at level 1 appends the definition to DEFTAB and points NAMTAB's entry for its name at it, replacing any earlier one; nothing is written |
| BufferMacroProperties.NestedMend | src/montador/macros.rs:58-60 | deeper inside, MEND lowers the level and goes to the body |
| BufferMacroProperties.UnmatchedMend | src/montador/macros.rs:58-60 | outside a definition, MEND lowers the level below 0 and is written like any other line |
| BufferMacroProperties.InertCaptured | src/montador/macros.rs:70-73 | inside a definition, every other line goes to the body as read |
| BufferMacroProperties.CallAtStart | src/montador/macros.rs:79-90 | outside a definition, a line whose first word names a macro writes nothing, and that macro's body, without any substitution, is what is read next |
| BufferMacroProperties.CallAfterLabel | src/montador/macros.rs:91-96 | when the first macro word is not the first word, the first word and a space, with no newline, are written first |
| BufferMacroProperties.PlainCopied | src/montador/macros.rs:103-106 | outside a definition, a line that is not a call is written with a newline |
| BufferMacroProperties.BodyCaptured | src/montador/macros.rs:70-73 | inside a definition, a run of inert lines is added to the body, one line read per line |
| BufferMacroProperties.PlainPassesThrough | src/montador/macros.rs:26-107 | input with no definitions and no calls comes out line for line, each with a newline |
| BufferMacroProperties.DefinitionRecorded | src/montador/macros.rs:44-66 | a header, inert body lines and MEND record exactly one definition and write nothing |
| BufferMacroProperties.DefineThenCall | src/montador/macros.rs:44-106 | a macro defined and then called by its first word writes its body line by line and nothing else |
| BufferMacroProperties.DefineThenCallText | src/montador/macros.rs:44-106 | the same, on the text the pass returns |
| CollectingMacros.MacroProcessador.constructor | src/macro_pros/processador_macro.rs:22-26 | a new processor has an empty definitions table |
| CollectingMacros.MacroProcessador.Processar | src/macro_pros/processador_macro.rs:29-95 | the collecting loop updates the table in place and, with the expansion, gives exactly `Processed` from the old table |
| CollectingMacros.MacroProcessador.ExpandirMacros | src/macro_pros/processador_macro.rs:99-173 | the expansion loop gives exactly `ExpandAll`, its first failing line's error |
| CollectingMacros.MacroProcessador.ExpandirLinha | src/macro_pros/processador_macro.rs:104-169 | the loop body for one line gives exactly `ExpandLine` |
| CollectingMacros.MacroProcessador.Limpar | src/macro_pros/processador_macro.rs:180-182 | the table is empty afterwards |
| CollectingMacros.MacroProcessador.PegarNomeMacros | src/macro_pros/processador_macro.rs:185-187 | the names are exactly the table's keys, each once |
| CollectingMacros.Argumentos | src/macro_pros/processador_macro.rs:126-133 | the argument loop gives `Arguments`: the words after the name split on commas, empty pieces dropped |
| CollectingMacros.Substituir | src/macro_pros/processador_macro.rs:154-160 | the substitution loop over the pairs gives `Apply` |
| CollectingMacros.ExpandirCorpo | src/macro_pros/processador_macro.rs:153-162 | the loop over the body gives `ApplyAll` |
| CollectingMacros.FailureDecides | src/macro_pros/processador_macro.rs:136-143 | once a prefix of the list fails, the whole list fails with the same error |
| CollectingMacroProperties.HeaderOpens | src/macro_pros/processador_macro.rs:52-73 | outside a definition, a header opens one named by its second word, with the remaining words, commas trimmed from their ends, as its parameters; the header is not kept |
| CollectingMacroProperties.OutsideKept | src/macro_pros/processador_macro.rs:88-89 | outside a definition, every line that is not a header is kept as it is, MEND included |
| CollectingMacroProperties.BodyLine | src/macro_pros/processador_macro.rs:84-86 | inside a definition, every line except MEND goes to the body, blank lines, comments and MACRO lines included |
| CollectingMacroProperties.MendCommits | src/macro_pros/processador_macro.rs:76-83 | MEND stores the definition under its name, replacing an earlier one and keeping every other entry; nothing is kept |
| CollectingMacroProperties.DefinitionsPersist | src/macro_pros/processador_macro.rs:79 | collecting never removes a definition, and the kept lines only grow |
| CollectingMacroProperties.BlockRecorded | src/macro_pros/processador_macro.rs:52-87 | a header, body lines that are not MEND and a MEND store the definition with that body and keep none of those lines |
| CollectingMacroProperties.UnterminatedDropped | src/macro_pros/processador_macro.rs:37-90 | a definition with no MEND is never stored, and its lines are lost |
| CollectingMacroProperties.ApplyAbsent | src/macro_pros/processador_macro.rs:157-159 | a line in which no `&param` occurs is unchanged |
| CollectingMacroProperties.ParameterReplaced | src/macro_pros/processador_macro.rs:158 | a body line that is exactly `&param` becomes the argument |
| CollectingMacroProperties.AmpersandDeclared | src/macro_pros/processador_macro.rs:59-62 | a parameter declared with its `&` is searched for as `&&name`, so the body's `&name` is left as it is |
| CollectingMacroProperties.ApplyAllLines | src/macro_pros/processador_macro.rs:153-162 | one output line per body line, in order, each with the substitutions applied |
| CollectingMacroProperties.DistinctSubstitutions | src/macro_pros/processador_macro.rs:146-150 | with distinct parameter names, each parameter is paired with its own argument, in declared order |
| CollectingMacroProperties.RepeatedParameter | src/macro_pros/processador_macro.rs:146-150 | a parameter declared twice keeps one pair, with the later argument |
| CollectingMacroProperties.CommasInHeader | src/macro_pros/processador_macro.rs:59-62 | `MACRO SOMA A,B` declares the one parameter `A,B`, while the call `SOMA 1,2` passes two arguments (arguments are split at lines 129-133) |
| CollectingMacroProperties.NotACall | src/macro_pros/processador_macro.rs:107-121 | a blank line, a comment, or a line whose first word is not a defined name comes out as it is |
| CollectingMacroProperties.CallExpanded | src/macro_pros/processador_macro.rs:125-162 | a call with as many arguments as parameters becomes the body with the substitutions applied, line for line; the call line is gone |
| CollectingMacroProperties.ParameterlessCall | src/macro_pros/processador_macro.rs:125-162 | a call without parameters and arguments becomes the body exactly as written |
| CollectingMacroProperties.WrongCount | src/macro_pros/processador_macro.rs:136-143 | a call with a different number of arguments fails with the macro's name, its parameter count and the argument count |
| CollectingMacroProperties.OnlyCountFails | src/macro_pros/processador_macro.rs:103-173 | that is the only way a line fails |
| CollectingMacroProperties.ExpandAppend | src/macro_pros/processador_macro.rs:103-170 | expanding `a + b` is expanding `a`, then `b`: the first failure wins, and otherwise the lines are concatenated |
| CollectingMacroProperties.EmptyTableKeeps | src/macro_pros/processador_macro.rs:99-173 | with an empty table, as after `limpar`, expansion changes nothing |
| CollectingMacroProperties.DefineThenCall | src/macro_pros/processador_macro.rs:29-95 | a definition followed by a correct call gives the substituted body joined by newlines, and the table gains the definition |

## Findings

| source | as written | input that shows it | evidently intended | confidence | as-written member | corrected member |
|---|---|---|---|---|---|---|
| src/montador/montador.rs:21 | the first pass parses the START operand as decimal, while the header at line 125 parses it as hexadecimal | `PROG START 1000`: labels counted from 1000, program loaded at 0x1000 | the counter starts at the hexadecimal start address of the header record | not executed | AssemblerProperties.StartRadix | AssemblerProperties.HexStartAgrees |
| src/montador/montador.rs:182 | CLEAR and TIXR emit the register digit followed by "00", so a two-byte instruction takes five hex digits | `CLEAR A` with CLEAR = 0xB4 is written B4000 | the register digit and one 0 for the unused second register (B400), four digits like every other two-byte instruction, which the loader and the executor read back | not executed | AssemblerLayout.SingleRegisterMisaligns | AssemblerLayout.RegisterRoundTrip |

`AssemblerEncoding.EncodeRegistersAsWritten` is the encoding as written,
and the second pass `SecondPass(AsWritten, …)` and its loop
`SegundoPasso` use it. `AssemblerEncoding.EncodeRegisters` is the
corrected encoding, used by `SecondPass(Corrected, …)`; the agreement of
the counter with the code is proved for that pass. For `CLEAR A` followed
by `ADD #1`, `AssemblerLayout.ClearThenAddLoads` proves that the
as-written text loads as B4 00 01 90 00. `AssemblerLayout.ClearThenAddRuns`
proves that the machine then runs the CLEAR and rejects `01 90 00`, an
immediate LDA with flag nibble 9, with `InvalidAddressingMode`. The ADD
is lost.

The first pass reads the START operand as decimal, and the header record
as hexadecimal. A program that starts at `START 1000` therefore gets
labels counted from 1000 (0x3E8) but is loaded at 0x1000.
`AssemblerEncoding.HexFirstPass` counts from the hexadecimal operand, and
`AssemblerProperties.HexStartAgrees` proves that it counts from the
address in the header record.

## Left out

### I/O and external code

- File and GUI I/O are left out. This covers the file dialogs and
  `read_to_string` in `src/gui/carregar_programa.rs`, `File::open` and the
  MASMAPRG.ASM write in `src/montador/macros.rs`, and the GUI and run loop
  in `src/gui/janela.rs`, `src/janela.rs` and `src/main.rs`. Each
  processor takes its input as a string or a line sequence, and returns
  its output.
- The `bitreader` crate is not modelled as a library. Its reads are
  big-endian bit fields of the bytes at PC (`Bits.ReadBits`). A read past
  the end of memory is the error the source attaches to that read.
- The opcode constants module is not part of this model. Opcode values are
  a parameter constrained by `ValidCodes`.
- The test programs' assembly files are not part of this model. The
  first-pass test on `add.asm` is therefore not restated.
- The `clear` test of the machine depends on the unseen constants (it
  needs 0x04 to clear A), and is not restated.

### Rust semantics

- Rust arithmetic panics are modelled as the explicit error
  `ArithmeticPanic`, not as a crash. These are SUBR underflow, DIVR by
  zero, and MULR overflow of `u64`.
- Integer widths other than the register widths are not modelled. The
  `usize` counter of the first pass, the `u64` sums in address
  computations and the `i32` nesting levels are unbounded. The model
  keeps every register reduced as `set_registrador` does, and range
  checks such as `u8` parsing are kept.

### Termination bounds

- `BufferMacros.Processar` and `BufferMacros.Expand` give up (`None`)
  after `fuel` lines read. The source never stops on a self-calling
  macro.
- `NestedMacros.Processar` fails with `DepthExceeded` when expansion goes
  deeper than `fuel`. The source recurses without bound on a
  self-referential macro.

### Order and the source as written

- `CollectingMacros` substitutes through an association list, in the
  order of first insertion, where a repeated parameter keeps its first
  place with the later argument. The source iterates a `HashMap`, whose
  order is unspecified and only matters when one parameter pattern
  contains another.
- `CollectingMacros.MacroProcessador.PegarNomeMacros` returns the names in
  an order the model leaves unspecified, as `HashMap::keys` does.
- `src/macro_pros/processador_macro.rs` does not compile as written. Its
  `#[...]` lines are not valid attributes, and `new` initialises a field
  `MacroDef` where the struct's field is `macro_def`. The model follows
  the evident intent: comments, and an empty `macro_def` table.
- Object-program records are modelled as written. The T record's length
  field counts hex characters, not bytes. The H record has the name
  followed by a space, not a name padded to six characters.

### Known model limitations

- `Executor.Execute`: the model's register file is a sequence of
  naturals, each reduced to its width. Only states reachable through
  `set_registrador` and `new` are covered (`Reduced`).
- `AssemblerLayout.OperandRoundTrip`: a four-byte operand above 0xFFFFF
  makes `{:05X}` widen past five digits. The round trip is stated for
  values that fit the field.
- ZeroBytesStep, ThreeAdds and ProgramaComMultiplasInstrucoes require
  `codes(LDA) == 0`, the standard value, beyond `ValidCodes`. The test's
  fourth step reads three zero bytes, and what they do depends on which
  mnemonic has opcode 0. The constants module is not part of this model,
  so the lemmas name that value instead of fixing the whole table.
- `AssemblerEncoding.HexFirstPass`, the first pass counting from the
  hexadecimal START operand, is a corrected reference only. `FirstPass`
  and `PrimeiroPasso` stay decimal, as written.
- `Assembler.PrimeiroPasso` and `AssemblerEncoding.SegundoPasso`: RSUB
  alone on a line is one word, and both passes skip it, as written.
