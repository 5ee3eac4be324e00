/**
 * What the line-buffer macro pass does with each kind of line, and what it
 * makes of a whole definition followed by a call.
 */
module BufferMacroProperties {
  import opened Outcomes
  import opened Text
  import opened BufferMacros

  /** A line kept as it is wherever it appears in a body: blank, a comment, or free of MACRO and not MEND. */
  predicate Inert(linha: string) {
    var t := Trim(linha);
    t == [] || t[0] == '.' || (!Contains(t, "MACRO") && t != "MEND")
  }

  /** A line written out as it is: blank, a comment, or free of MACRO, not MEND and with no word in NAMTAB. */
  predicate Plain(linha: string, namtab: map<string, nat>) {
    var t := Trim(linha);
    t == [] || t[0] == '.' || (!Contains(t, "MACRO") && t != "MEND" && FirstMacro(SplitWhitespace(t), namtab).None?)
  }

  predicate AllInert(linhas: seq<string>)
    decreases |linhas|
  {
    linhas == [] || (Inert(linhas[0]) && AllInert(linhas[1..]))
  }

  predicate AllPlain(linhas: seq<string>, namtab: map<string, nat>)
    decreases |linhas|
  {
    linhas == [] || (Plain(linhas[0], namtab) && AllPlain(linhas[1..], namtab))
  }

  // ----- Blank and comment lines -----

  /** Outside a definition, a blank or comment line is written out as it is, with a newline. */
  lemma {:induction false} BlankCopied(linha: string, s: State)
    requires Valid(s) && s.definindo.None?
    requires Trim(linha) == [] || Trim(linha)[0] == '.'
    ensures Step(linha, s) == (s.(codigo := s.codigo + linha + "\n"), [])
  {
  }

  /** Inside a definition, a blank or comment line goes to the body. */
  lemma {:induction false} BlankCaptured(linha: string, s: State)
    requires Valid(s) && s.definindo.Some?
    requires Trim(linha) == [] || Trim(linha)[0] == '.'
    ensures Step(linha, s) ==
      (s.(definindo := Some(MacroDef(s.definindo.value.nome, s.definindo.value.instrucoes + [linha]))), [])
  {
  }

  // ----- MACRO and MEND -----

  /**
   * Outside a definition, any line that contains MACRO opens one at level
   * 1, named by its first word (SEM_NOME when that word is MACRO); the line
   * itself is not written.
   */
  lemma {:induction false} HeaderOpens(linha: string, s: State)
    requires Valid(s) && s.nivel == 0
    requires var t := Trim(linha); t != [] && t[0] != '.' && Contains(t, "MACRO")
    ensures Step(linha, s) == (s.(nivel := 1, definindo := Some(MacroDef(HeaderName(Trim(linha)), []))), [])
  {
  }

  /** Inside a definition, a line containing MACRO raises the level and goes to the body. */
  lemma {:induction false} NestedHeader(linha: string, s: State)
    requires Valid(s) && s.nivel >= 1
    requires var t := Trim(linha); t != [] && t[0] != '.' && Contains(t, "MACRO")
    ensures Step(linha, s) ==
      (s.(nivel := s.nivel + 1, definindo := Some(MacroDef(s.definindo.value.nome, s.definindo.value.instrucoes + [linha]))), [])
  {
    MendHasNoMacro();
  }

  /**
   * A line that is MEND once trimmed, at level 1, closes the definition:
   * it goes to the end of DEFTAB and NAMTAB points its name at it,
   * replacing any earlier definition of that name; nothing is written.
   */
  lemma {:induction false} MendCloses(linha: string, s: State)
    requires Valid(s) && s.nivel == 1 && Trim(linha) == "MEND"
    ensures
      var m := s.definindo.value;
      var r := Step(linha, s).0;
      && Step(linha, s).1 == []
      && r == State(s.namtab[m.nome := |s.deftab|], s.deftab + [m], s.codigo, None, 0)
      && r.deftab[r.namtab[m.nome]] == m
  {
    MendHasNoMacro();
  }

  /** Deeper inside, MEND lowers the level and goes to the body. */
  lemma {:induction false} NestedMend(linha: string, s: State)
    requires Valid(s) && s.nivel >= 2 && Trim(linha) == "MEND"
    ensures Step(linha, s) ==
      (s.(nivel := s.nivel - 1, definindo := Some(MacroDef(s.definindo.value.nome, s.definindo.value.instrucoes + [linha]))), [])
  {
    MendHasNoMacro();
  }

  /** Outside a definition, MEND lowers the level below 0 and is then read like any other line. */
  lemma {:induction false} UnmatchedMend(linha: string, s: State)
    requires Valid(s) && s.nivel <= 0 && Trim(linha) == "MEND" && "MEND" !in s.namtab
    ensures Step(linha, s) == (s.(nivel := s.nivel - 1, codigo := s.codigo + linha + "\n"), [])
  {
    MendHasNoMacro();
    assert NoWhitespace("MEND");
    SingleWord("MEND");
  }

  lemma {:induction false} MendHasNoMacro()
    ensures !Contains("MEND", "MACRO")
  {
    assert !StartsWith("MEND", "MACRO");
    assert "MEND"[1..] == "END";
    assert "END"[1..] == "ND";
    assert "ND"[1..] == "D";
    assert "D"[1..] == [];
  }

  /** A non-empty text without whitespace is one word. */
  lemma {:induction false} SingleWord(w: string)
    requires w != [] && NoWhitespace(w)
    ensures SplitWhitespace(w) == [w]
  {
    assert TrimStart(w) == w;
    assert FirstWhitespace(w) == |w|;
    assert w[|w|..] == [];
    assert w[..|w|] == w;
  }

  /** Inside a definition, every other line goes to the body as it was read. */
  lemma {:induction false} InertCaptured(linha: string, s: State)
    requires Valid(s) && s.nivel >= 1 && Inert(linha)
    ensures Step(linha, s) ==
      (s.(definindo := Some(MacroDef(s.definindo.value.nome, s.definindo.value.instrucoes + [linha]))), [])
  {
  }

  // ----- Calls and other lines -----

  /**
   * Outside a definition, a line whose first word names a macro is not
   * written: the lines to read next are that macro's body, with no
   * substitution.
   */
  lemma {:induction false} CallAtStart(linha: string, s: State)
    requires Valid(s) && s.definindo.None?
    requires var t := Trim(linha); t != [] && t[0] != '.' && !Contains(t, "MACRO") && t != "MEND"
    requires FirstMacro(SplitWhitespace(Trim(linha)), s.namtab) == Some(0)
    ensures Step(linha, s) == (s, s.deftab[s.namtab[SplitWhitespace(Trim(linha))[0]]].instrucoes)
  {
  }

  /**
   * When the first word naming a macro is not the first word, that first
   * word and a space (no newline) are written before the body is read.
   */
  lemma {:induction false} CallAfterLabel(linha: string, s: State, j: nat)
    requires Valid(s) && s.definindo.None?
    requires var t := Trim(linha); t != [] && t[0] != '.' && !Contains(t, "MACRO") && t != "MEND"
    requires FirstMacro(SplitWhitespace(Trim(linha)), s.namtab) == Some(j) && j > 0
    ensures
      var partes := SplitWhitespace(Trim(linha));
      Step(linha, s) == (s.(codigo := s.codigo + partes[0] + " "), s.deftab[s.namtab[partes[j]]].instrucoes)
  {
    var partes := SplitWhitespace(Trim(linha));
    assert partes[0] !in s.namtab;
  }

  /** Outside a definition, a line that is not a call is written out as it is, with a newline. */
  lemma {:induction false} PlainCopied(linha: string, s: State)
    requires Valid(s) && s.definindo.None? && Plain(linha, s.namtab)
    ensures Step(linha, s) == (s.(codigo := s.codigo + linha + "\n"), [])
  {
  }

  // ----- Runs of lines -----

  lemma {:induction false} Regrouped<T>(a: seq<T>, b: seq<T>, c: seq<T>)
    ensures a + b + c == a + (b + c)
  {
  }

  lemma {:induction false} HeadTail<T>(a: seq<T>, b: seq<T>)
    requires a != []
    ensures (a + b)[0] == a[0] && (a + b)[1..] == a[1..] + b
  {
  }

  /** Reading the first pending line, given what Step does with it. */
  lemma {:induction false} Next(pending: seq<string>, s: State, fuel: nat, s': State, inserted: seq<string>)
    requires Valid(s) && pending != [] && fuel > 0 && Step(pending[0], s) == (s', inserted)
    ensures Valid(s') && Run(pending, s, fuel) == Run(inserted + pending[1..], s', fuel - 1)
  {
    RunNext(pending, s, fuel);
  }

  /** The state with `more` added to the body being defined. */
  function Capturing(s: State, more: seq<string>): State
    requires s.definindo.Some?
  {
    s.(definindo := Some(MacroDef(s.definindo.value.nome, s.definindo.value.instrucoes + more)))
  }

  /** Inside a definition, a run of inert lines is added to the body, one line read per line. */
  lemma {:induction false} BodyCaptured(body: seq<string>, rest: seq<string>, s: State, fuel: nat, left: nat)
    requires Valid(s) && s.nivel == 1 && AllInert(body) && fuel == |body| + left
    ensures Valid(Capturing(s, body))
    ensures Run(body + rest, s, fuel) == Run(rest, Capturing(s, body), left)
    decreases |body|
  {
    if body == [] {
      NothingCaptured(rest, s);
    } else {
      CaptureOne(body, rest, s, fuel);
      BodyCaptured(body[1..], rest, Capturing(s, [body[0]]), fuel - 1, left);
      CapturedInTurn(body, s);
    }
  }

  lemma {:induction false} NothingCaptured(rest: seq<string>, s: State)
    requires s.definindo.Some?
    ensures Capturing(s, []) == s && [] + rest == rest
  {
    assert s.definindo.value.instrucoes + [] == s.definindo.value.instrucoes;
  }

  lemma {:induction false} CapturedInTurn(body: seq<string>, s: State)
    requires s.definindo.Some? && body != []
    ensures Capturing(Capturing(s, [body[0]]), body[1..]) == Capturing(s, body)
  {
    Regrouped(s.definindo.value.instrucoes, [body[0]], body[1..]);
    assert [body[0]] + body[1..] == body;
  }

  lemma {:induction false} CaptureOne(body: seq<string>, rest: seq<string>, s: State, fuel: nat)
    requires Valid(s) && s.nivel == 1 && body != [] && Inert(body[0]) && fuel > 0
    ensures Valid(Capturing(s, [body[0]])) && Capturing(s, [body[0]]).nivel == 1
    ensures Run(body + rest, s, fuel) == Run(body[1..] + rest, Capturing(s, [body[0]]), fuel - 1)
  {
    var p := body + rest;
    HeadTail(body, rest);
    InertCaptured(body[0], s);
    Next(p, s, fuel, Capturing(s, [body[0]]), []);
    assert [] + p[1..] == body[1..] + rest;
  }

  /** The state with `text` added to the output. */
  function Writing(s: State, text: string): State {
    s.(codigo := s.codigo + text)
  }

  /** Outside a definition, a run of plain lines is written out, each with a newline. */
  lemma {:induction false} PlainWritten(linhas: seq<string>, rest: seq<string>, s: State, fuel: nat, left: nat)
    requires Valid(s) && s.definindo.None? && AllPlain(linhas, s.namtab) && fuel == |linhas| + left
    ensures Valid(Writing(s, Unlines(linhas)))
    ensures Run(linhas + rest, s, fuel) == Run(rest, Writing(s, Unlines(linhas)), left)
    decreases |linhas|
  {
    if linhas == [] {
      NothingWritten(rest, s);
    } else {
      WriteOne(linhas, rest, s, fuel);
      PlainWritten(linhas[1..], rest, Writing(s, linhas[0] + "\n"), fuel - 1, left);
      WrittenInTurn(linhas, s);
    }
  }

  lemma {:induction false} NothingWritten(rest: seq<string>, s: State)
    ensures Writing(s, Unlines([])) == s && [] + rest == rest
  {
    assert s.codigo + "" == s.codigo;
  }

  lemma {:induction false} WrittenInTurn(linhas: seq<string>, s: State)
    requires linhas != []
    ensures Writing(Writing(s, linhas[0] + "\n"), Unlines(linhas[1..])) == Writing(s, Unlines(linhas))
  {
    Regrouped(s.codigo, linhas[0] + "\n", Unlines(linhas[1..]));
  }

  lemma {:induction false} WriteOne(linhas: seq<string>, rest: seq<string>, s: State, fuel: nat)
    requires Valid(s) && s.definindo.None? && linhas != [] && Plain(linhas[0], s.namtab) && fuel > 0
    ensures Valid(Writing(s, linhas[0] + "\n")) && Writing(s, linhas[0] + "\n").definindo.None?
    ensures Writing(s, linhas[0] + "\n").namtab == s.namtab
    ensures Run(linhas + rest, s, fuel) == Run(linhas[1..] + rest, Writing(s, linhas[0] + "\n"), fuel - 1)
  {
    var p := linhas + rest;
    HeadTail(linhas, rest);
    PlainCopied(linhas[0], s);
    Regrouped(s.codigo, linhas[0], "\n");
    Next(p, s, fuel, Writing(s, linhas[0] + "\n"), []);
    assert [] + p[1..] == linhas[1..] + rest;
  }

  /** Input with no definitions and no calls comes out line for line, each line followed by a newline. */
  lemma {:induction false} PlainPassesThrough(linhas: seq<string>, fuel: nat)
    requires AllPlain(linhas, map[]) && fuel >= |linhas|
    ensures Expand(linhas, fuel) == Some(Unlines(linhas))
  {
    PlainWritten(linhas, [], Initial, fuel, fuel - |linhas|);
    assert linhas + [] == linhas;
    assert Writing(Initial, Unlines(linhas)).codigo == Unlines(linhas);
  }

  // ----- A definition and a call -----

  /** The state once `header`, `body` and MEND have been read from the start. */
  function Defined(header: string, body: seq<string>): State
    requires var t := Trim(header); t != [] && t[0] != '.'
  {
    var nome := HeaderName(Trim(header));
    State(map[nome := 0], [MacroDef(nome, body)], "", None, 0)
  }

  /** A header, a body of inert lines and MEND record one definition and write nothing. */
  lemma {:induction false} DefinitionRecorded(header: string, body: seq<string>, mend: string, rest: seq<string>, fuel: nat, left: nat)
    requires var t := Trim(header); t != [] && t[0] != '.' && Contains(t, "MACRO")
    requires AllInert(body) && Trim(mend) == "MEND" && fuel == |body| + 2 + left
    ensures Run([header] + body + [mend] + rest, Initial, fuel) == Run(rest, Defined(header, body), left)
  {
    var s1 := Opened(header);
    HeaderRead(header, body + ([mend] + rest), fuel);
    Spliced(header, body, mend, rest);
    BodyThenMend(body, mend, rest, s1, fuel - 1, left);
    ClosedOpened(header, body);
  }

  lemma {:induction false} Spliced(header: string, body: seq<string>, mend: string, rest: seq<string>)
    ensures [header] + body + [mend] + rest == [header] + (body + ([mend] + rest))
  {
  }

  /** The state once a header has been read from the start. */
  function Opened(header: string): State
    requires var t := Trim(header); t != [] && t[0] != '.'
  {
    State(map[], [], "", Some(MacroDef(HeaderName(Trim(header)), [])), 1)
  }

  lemma {:induction false} ClosedOpened(header: string, body: seq<string>)
    requires var t := Trim(header); t != [] && t[0] != '.'
    ensures Closed(Capturing(Opened(header), body)) == Defined(header, body)
  {
    assert [] + body == body;
    assert |Capturing(Opened(header), body).deftab| == 0;
  }

  lemma {:induction false} HeaderRead(header: string, rest: seq<string>, fuel: nat)
    requires var t := Trim(header); t != [] && t[0] != '.' && Contains(t, "MACRO")
    requires fuel > 0
    ensures Run([header] + rest, Initial, fuel) == Run(rest, Opened(header), fuel - 1)
  {
    HeadTail([header], rest);
    HeaderOpens(header, Initial);
    Next([header] + rest, Initial, fuel, Opened(header), []);
    assert [] + [header][1..] + rest == rest;
  }

  lemma {:induction false} BodyThenMend(body: seq<string>, mend: string, rest: seq<string>, s: State, fuel: nat, left: nat)
    requires Valid(s) && s.nivel == 1
    requires AllInert(body) && Trim(mend) == "MEND" && fuel == |body| + 1 + left
    ensures Run(body + ([mend] + rest), s, fuel) == Run(rest, Closed(Capturing(s, body)), left)
  {
    BodyCaptured(body, [mend] + rest, s, fuel, left + 1);
    MendRead(mend, rest, Capturing(s, body), left + 1);
  }

  lemma {:induction false} MendRead(mend: string, rest: seq<string>, s: State, fuel: nat)
    requires Valid(s) && s.nivel == 1 && Trim(mend) == "MEND" && fuel > 0
    ensures Run([mend] + rest, s, fuel) == Run(rest, Closed(s), fuel - 1)
  {
    HeadTail([mend], rest);
    MendCloses(mend, s);
    Next([mend] + rest, s, fuel, Closed(s), []);
    assert [] + [mend][1..] + rest == rest;
  }

  /**
   * Defining a macro whose body is plain and then calling it by its name
   * as the first word writes the body, line by line, and nothing else, and
   * leaves that one definition in NAMTAB and DEFTAB.
   */
  lemma {:induction false} DefineThenCall(header: string, body: seq<string>, mend: string, call: string, fuel: nat)
    requires var t := Trim(header); t != [] && t[0] != '.' && Contains(t, "MACRO")
    requires AllInert(body) && AllPlain(body, map[HeaderName(Trim(header)) := 0]) && Trim(mend) == "MEND"
    requires var c := Trim(call); c != [] && c[0] != '.' && !Contains(c, "MACRO") && c != "MEND"
    requires SplitWhitespace(Trim(call)) != [] && SplitWhitespace(Trim(call))[0] == HeaderName(Trim(header))
    requires fuel >= 2 * |body| + 3
    ensures Run([header] + body + [mend] + [call], Initial, fuel) == Some(Writing(Defined(header, body), Unlines(body)))
  {
    var left: nat := fuel - 2 * |body| - 3;
    var mid: nat := |body| + 1 + left;
    DefinitionRecorded(header, body, mend, [call], fuel, mid);
    assert Run([header] + body + [mend] + [call], Initial, fuel) == Run([call], Defined(header, body), mid);
    CalledOnce(call, Defined(header, body), mid, left);
  }

  /** The same, on the text `processar` returns. */
  lemma {:induction false} DefineThenCallText(header: string, body: seq<string>, mend: string, call: string, fuel: nat)
    requires var t := Trim(header); t != [] && t[0] != '.' && Contains(t, "MACRO")
    requires AllInert(body) && AllPlain(body, map[HeaderName(Trim(header)) := 0]) && Trim(mend) == "MEND"
    requires var c := Trim(call); c != [] && c[0] != '.' && !Contains(c, "MACRO") && c != "MEND"
    requires SplitWhitespace(Trim(call)) != [] && SplitWhitespace(Trim(call))[0] == HeaderName(Trim(header))
    requires fuel >= 2 * |body| + 3
    ensures Expand([header] + body + [mend] + [call], fuel) == Some(Unlines(body))
  {
    DefineThenCall(header, body, mend, call, fuel);
    assert Writing(Defined(header, body), Unlines(body)).codigo == Unlines(body);
  }

  lemma {:induction false} CalledOnce(call: string, s: State, fuel: nat, left: nat)
    requires s.definindo.None? && s.nivel == 0 && |s.deftab| == 1 && s.namtab == map[s.deftab[0].nome := 0] && s.codigo == ""
    requires AllPlain(s.deftab[0].instrucoes, s.namtab)
    requires var c := Trim(call); c != [] && c[0] != '.' && !Contains(c, "MACRO") && c != "MEND"
    requires SplitWhitespace(Trim(call)) != [] && SplitWhitespace(Trim(call))[0] == s.deftab[0].nome
    requires fuel == |s.deftab[0].instrucoes| + 1 + left
    ensures Run([call], s, fuel) == Some(Writing(s, Unlines(s.deftab[0].instrucoes)))
  {
    var body := s.deftab[0].instrucoes;
    assert FirstMacro(SplitWhitespace(Trim(call)), s.namtab) == Some(0);
    CallAtStart(call, s);
    Next([call], s, fuel, s, body);
    assert body + [call][1..] == body + [];
    PlainWritten(body, [], s, fuel - 1, left);
  }
}
