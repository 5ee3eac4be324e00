/** The assembler's register-name table. */
module RegisterTable {
  import opened Outcomes
  import opened Constants

  /** `TABELA_REGISTRADORES.get(name)`: the register index a name stands for. */
  function RegisterIndex(name: string): Option<nat> {
    match name
    case "A" => Some(A)
    case "X" => Some(X)
    case "L" => Some(L)
    case "B" => Some(B)
    case "S" => Some(S)
    case "T" => Some(T)
    case "F" => Some(F)
    case "PC" => Some(PC)
    case "SW" => Some(SW)
    case _ => None
  }

  /** The keys are exactly A, X, L, B, S, T, F, PC and SW. */
  lemma {:induction false} Keys(name: string)
    ensures RegisterIndex(name).Some? <==> name in {"A", "X", "L", "B", "S", "T", "F", "PC", "SW"}
  {
  }

  /**
   * The values are the machine's register indices: below 10, never the
   * unnamed slot 7, and distinct names have distinct indices.
   */
  lemma {:induction false} Indices(name: string, other: string)
    ensures RegisterIndex(name).Some? ==> RegisterIndex(name).value < REGISTER_COUNT && RegisterIndex(name).value != 7
    ensures RegisterIndex(name).Some? && RegisterIndex(name) == RegisterIndex(other) ==> name == other
  {
  }

  /** Each index other than 7 has its name. */
  lemma {:induction false} Named(n: nat)
    requires n < REGISTER_COUNT && n != 7
    ensures exists name :: RegisterIndex(name) == Some(n)
  {
    var names := ["A", "X", "L", "B", "S", "T", "F", "", "PC", "SW"];
    assert RegisterIndex(names[n]) == Some(n);
  }
}
