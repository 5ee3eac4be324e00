/**
 * The assembler's own macro pass. It reads the whole input into a line
 * buffer and walks the buffer with an index. A definition runs from a line
 * containing MACRO to a line that is exactly MEND, with a nesting level in
 * between; it is recorded in NAMTAB (name to DEFTAB index) and DEFTAB (the
 * definitions, in order). A line in which some word names a defined macro is
 * not written out: the macro's body is inserted into the buffer right after
 * it, so the body is read next and calls inside it expand in turn. There
 * are no parameters.
 *
 * A macro whose body calls itself makes the source loop forever; the model
 * counts the lines it reads and gives up (`None`) after `fuel` of them.
 */
module BufferMacros {
  import opened Outcomes
  import opened Text

  /** A definition: its name and its body lines, as read. */
  datatype MacroDef = MacroDef(nome: string, instrucoes: seq<string>)

  /** What the loop keeps besides the buffer: NAMTAB, DEFTAB, the output, the open definition and the nesting level. */
  datatype State = State(namtab: map<string, nat>, deftab: seq<MacroDef>, codigo: string, definindo: Option<MacroDef>, nivel: int)

  /** The name a definition gets when its header starts with MACRO itself. */
  const NO_NAME: string := "SEM_NOME"

  const Initial: State := State(map[], [], "", None, 0)

  /**
   * What the loop keeps true: every NAMTAB entry points into DEFTAB, and a
   * definition is open exactly when the nesting level is 1 or more.
   */
  predicate Valid(s: State) {
    && (forall n :: n in s.namtab ==> s.namtab[n] < |s.deftab|)
    && (s.definindo.Some? <==> s.nivel >= 1)
  }

  // ----- One line -----

  /** The words of a trimmed, non-empty line: there is at least one, and the first is the text before the first whitespace. */
  lemma {:induction false} WordsOfTrimmed(t: string)
    requires t != [] && !IsWhitespace(t[0])
    ensures SplitWhitespace(t) != [] && SplitWhitespace(t)[0] == t[..FirstWhitespace(t)]
  {
    assert TrimStart(t) == t;
  }

  /** The name a header line opens: its first word, or SEM_NOME when that word is MACRO. */
  function HeaderName(t: string): string
    requires t != [] && !IsWhitespace(t[0])
  {
    WordsOfTrimmed(t);
    var partes := SplitWhitespace(t);
    if partes[0] == "MACRO" then NO_NAME else partes[0]
  }

  /** The index of the first word that names a macro, if there is one: the `for palavra in &partes` search. */
  function FirstMacro(partes: seq<string>, namtab: map<string, nat>): (r: Option<nat>)
    ensures r.Some? ==> r.value < |partes| && partes[r.value] in namtab
    ensures r.Some? ==> forall k :: 0 <= k < r.value ==> partes[k] !in namtab
    ensures r.None? ==> forall k :: 0 <= k < |partes| ==> partes[k] !in namtab
    decreases |partes|
  {
    if partes == [] then None
    else if partes[0] in namtab then Some(0)
    else
      match FirstMacro(partes[1..], namtab)
      case None => None
      case Some(k) => Some(k + 1)
  }

  function Appended(m: MacroDef, linha: string): MacroDef {
    m.(instrucoes := m.instrucoes + [linha])
  }

  /** MEND at level 0: the open definition goes to the end of DEFTAB and NAMTAB points its name at it. */
  function Closed(s: State): State {
    match s.definindo
    case Some(m) => State(s.namtab[m.nome := |s.deftab|], s.deftab + [m], s.codigo, None, 0)
    case None => s.(nivel := 0)
  }

  /**
   * One pass of the loop on `linha`: the new state, and the lines to insert
   * into the buffer right after it (a macro body, or nothing).
   */
  function Step(linha: string, s: State): (r: (State, seq<string>))
    requires Valid(s)
    ensures Valid(r.0)
  {
    var t := Trim(linha);
    if t == [] || t[0] == '.' then
      if s.definindo.None? then (s.(codigo := s.codigo + linha + "\n"), [])
      else (s.(definindo := Some(Appended(s.definindo.value, linha))), [])
    else
      var abre := Contains(t, "MACRO");
      var nivel := if abre then s.nivel + 1 else s.nivel;
      if abre && nivel == 1 then (s.(nivel := nivel, definindo := Some(MacroDef(HeaderName(t), []))), [])
      else
        var fecha := t == "MEND";
        var nivel' := if fecha then nivel - 1 else nivel;
        if fecha && nivel' == 0 then (Closed(s), [])
        else if s.definindo.Some? then (s.(nivel := nivel', definindo := Some(Appended(s.definindo.value, linha))), [])
        else
          var partes := SplitWhitespace(t);
          match FirstMacro(partes, s.namtab)
          case Some(j) =>
            var codigo := if partes[0] != partes[j] then s.codigo + partes[0] + " " else s.codigo;
            (s.(nivel := nivel', codigo := codigo), s.deftab[s.namtab[partes[j]]].instrucoes)
          case None => (s.(nivel := nivel', codigo := s.codigo + linha + "\n"), [])
  }

  /** The loop over the buffer: it stops when the buffer is used up, or gives up when `fuel` lines have been read. */
  function Run(pending: seq<string>, s: State, fuel: nat): Option<State>
    requires Valid(s)
    decreases fuel, 1
  {
    if pending == [] then Some(s)
    else if fuel == 0 then None
    else ReadFirst(pending, s, fuel)
  }

  /** One more pass: the first pending line is read, and what it inserts is read before the rest. */
  function ReadFirst(pending: seq<string>, s: State, fuel: nat): Option<State>
    requires Valid(s) && pending != [] && fuel > 0
    decreases fuel, 0
  {
    var (s', inserted) := Step(pending[0], s);
    Run(inserted + pending[1..], s', fuel - 1)
  }

  /** The text `processar` writes, when the input is read within `fuel` lines. */
  function Expand(linhas: seq<string>, fuel: nat): Option<string> {
    match Run(linhas, Initial, fuel)
    case Some(s) => Some(s.codigo)
    case None => None
  }

  // ----- The loop -----

  /** `processar` from the line buffer on: the while loop over `linhas`, which grows as calls insert bodies. */
  method Processar(entrada: seq<string>, fuel: nat) returns (saida: Option<string>)
    ensures saida == Expand(entrada, fuel)
  {
    var linhas := entrada;
    var namtab: map<string, nat> := map[];
    var deftab: seq<MacroDef> := [];
    var codigo := "";
    var definindo: Option<MacroDef> := None;
    var nivel: int := 0;
    var i := 0;
    var resta: nat := fuel;
    while i < |linhas|
      invariant 0 <= i <= |linhas|
      invariant Valid(State(namtab, deftab, codigo, definindo, nivel))
      invariant Run(linhas[i..], State(namtab, deftab, codigo, definindo, nivel), resta) == Run(entrada, Initial, fuel)
      decreases resta
    {
      if resta == 0 {
        return None;
      }
      var antes := State(namtab, deftab, codigo, definindo, nivel);
      var lido := linhas;
      var linha := linhas[i];
      var s, corpo := Passo(linha, antes);
      namtab, deftab, codigo, definindo, nivel := s.namtab, s.deftab, s.codigo, s.definindo, s.nivel;
      assert State(namtab, deftab, codigo, definindo, nivel) == s;
      linhas := Inserir(linhas, i + 1, corpo);
      ReadOne(lido, i, antes, resta, s, corpo);
      i := i + 1;
      resta := resta - 1;
    }
    assert linhas[i..] == [];
    saida := Some(codigo);
  }

  /** The body of the loop for one line, on the state the loop keeps. */
  method Passo(linha: string, s: State) returns (r: State, corpo: seq<string>)
    requires Valid(s)
    ensures (r, corpo) == Step(linha, s)
  {
    var linhaTrim := Trim(linha);
    r, corpo := s, [];
    if linhaTrim == [] || linhaTrim[0] == '.' {
      if s.definindo.None? {
        r := s.(codigo := s.codigo + linha + "\n");
      } else {
        r := s.(definindo := Some(Appended(s.definindo.value, linha)));
      }
      return;
    }
    var nivel := s.nivel;
    var abre := Contains(linhaTrim, "MACRO");
    if abre {
      nivel := nivel + 1;
      if nivel == 1 {
        r := s.(nivel := nivel, definindo := Some(MacroDef(HeaderName(linhaTrim), [])));
        return;
      }
    }
    if linhaTrim == "MEND" {
      nivel := nivel - 1;
      if nivel == 0 {
        r := Closed(s);
        return;
      }
    }
    if s.definindo.Some? {
      r := s.(nivel := nivel, definindo := Some(Appended(s.definindo.value, linha)));
      return;
    }
    var partes := SplitWhitespace(linhaTrim);
    var achada := Procurar(partes, s.namtab);
    match achada {
      case Some(j) =>
        corpo := s.deftab[s.namtab[partes[j]]].instrucoes;
        r := s.(nivel := nivel);
        if partes[0] != partes[j] {
          r := r.(codigo := r.codigo + partes[0] + " ");
        }
      case None =>
        r := s.(nivel := nivel, codigo := s.codigo + linha + "\n");
    }
  }

  /** The search for the first word in NAMTAB. */
  method Procurar(partes: seq<string>, namtab: map<string, nat>) returns (r: Option<nat>)
    ensures r == FirstMacro(partes, namtab)
  {
    var j := 0;
    while j < |partes| && partes[j] !in namtab
      invariant 0 <= j <= |partes|
      invariant forall k :: 0 <= k < j ==> partes[k] !in namtab
    {
      j := j + 1;
    }
    r := if j < |partes| then Some(j) else None;
    FirstMacroIs(partes, namtab, j);
  }

  /** FirstMacro is the first index whose word is in NAMTAB, and None when there is none. */
  lemma {:induction false} FirstMacroIs(partes: seq<string>, namtab: map<string, nat>, j: nat)
    requires j <= |partes| && (j < |partes| ==> partes[j] in namtab)
    requires forall k :: 0 <= k < j ==> partes[k] !in namtab
    ensures FirstMacro(partes, namtab) == if j < |partes| then Some(j) else None
  {
  }

  /** One pass of the loop: the buffer with the body inserted after line i holds, from i + 1 on, what Run reads next. */
  lemma {:induction false} ReadOne(linhas: seq<string>, i: nat, s: State, fuel: nat, s': State, corpo: seq<string>)
    requires Valid(s) && i < |linhas| && fuel > 0 && (s', corpo) == Step(linhas[i], s)
    ensures Valid(s')
    ensures Run((linhas[..i + 1] + corpo + linhas[i + 1..])[i + 1..], s', fuel - 1) == Run(linhas[i..], s, fuel)
  {
    RunNext(linhas[i..], s, fuel);
    InsertedAfter(linhas, i, corpo);
  }

  lemma {:induction false} InsertedAfter(linhas: seq<string>, i: nat, corpo: seq<string>)
    requires i < |linhas|
    ensures linhas[i..][0] == linhas[i] && linhas[i..][1..] == linhas[i + 1..]
    ensures (linhas[..i + 1] + corpo + linhas[i + 1..])[i + 1..] == corpo + linhas[i + 1..]
  {
  }

  /** Reading one line: the lines it inserts come before the rest of the buffer. */
  lemma {:induction false} RunNext(pending: seq<string>, s: State, fuel: nat)
    requires Valid(s) && pending != [] && fuel > 0
    ensures Run(pending, s, fuel) == Run(Step(pending[0], s).1 + pending[1..], Step(pending[0], s).0, fuel - 1)
  {
  }

  /** `for inst in corpo.iter().rev() { linhas.insert(i, inst) }`: the body goes in at i, in its own order. */
  method Inserir(linhas: seq<string>, i: nat, corpo: seq<string>) returns (r: seq<string>)
    requires i <= |linhas|
    ensures r == linhas[..i] + corpo + linhas[i..]
  {
    r := linhas;
    var k := |corpo|;
    while k > 0
      invariant 0 <= k <= |corpo|
      invariant r == linhas[..i] + corpo[k..] + linhas[i..]
    {
      k := k - 1;
      assert corpo[k..] == [corpo[k]] + corpo[k + 1..];
      r := r[..i] + [corpo[k]] + r[i..];
    }
  }
}
