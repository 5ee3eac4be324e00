/**
 * The recursive macro processor: `processar` runs `passo` over the whole
 * input with an empty definitions table. `passo` walks the lines with a
 * nesting level, the name of the definition being captured and the output
 * so far; it records definitions in the shared table, and expands a call by
 * running itself on the macro's body with (parameter, argument) pairs.
 *
 * Self-referential macros make the source recurse forever; the model takes a
 * `fuel` bound on the depth of expansion and fails with `DepthExceeded` when
 * it runs out.
 */
module NestedMacros {
  import opened Outcomes
  import opened Text

  /** A definition: its body (each line followed by a newline) and its declared `&` parameters. */
  datatype Definicao = Definicao(corpo: string, parametros: seq<string>)

  /** The definitions table, shared by every level of the recursion. */
  type Table = map<string, Definicao>

  /** The (parameter, argument) pairs of one expansion, in declared order. */
  type Bindings = seq<(string, string)>

  datatype MacroError =
    | WrongArgumentCount(name: string, expected: nat, received: nat)  // a call with the wrong number of arguments
    | DepthExceeded                                                    // the expansion went deeper than the fuel allows

  // ----- Substitution -----

  /** `str::replace` with an empty pattern: the replacement goes before every character and at the end. */
  function Interleave(s: string, rep: string): (r: string)
    ensures |r| == |s| + (|s| + 1) * |rep|
  {
    if s == [] then rep else rep + [s[0]] + Interleave(s[1..], rep)
  }

  /** `str::replace` for any pattern. */
  function ReplaceStr(s: string, pat: string, rep: string): string {
    if pat == [] then Interleave(s, rep) else Replace(s, pat, rep)
  }

  /** The `for (parametro, valor)` loop: each pair replaced in the line in turn. */
  function ReplaceAll(s: string, pairs: Bindings): string
    decreases |pairs|
  {
    if pairs == [] then s else ReplaceAll(ReplaceStr(s, pairs[0].0, pairs[0].1), pairs[1..])
  }

  /** A line as `passo` copies it: under bindings and not a comment, parameters replaced and then `->` deleted. */
  function Substituted(line: string, params: Option<Bindings>): string {
    match params
    case None => line
    case Some(pairs) => if StartsWith(line, ".") then line else Replace(ReplaceAll(line, pairs), "->", "")
  }

  /** Without bindings, and for a comment line, a line is copied as it is. */
  lemma {:induction false} CopiedVerbatim(line: string, params: Option<Bindings>)
    requires params.None? || StartsWith(line, ".")
    ensures Substituted(line, params) == line
  {
  }

  /** A line in which no parameter and no `->` occurs is copied as it is. */
  lemma {:induction false} UntouchedLine(line: string, pairs: Bindings)
    requires forall k :: 0 <= k < |pairs| ==> |pairs[k].0| > 0 && !Contains(line, pairs[k].0)
    requires !Contains(line, "->")
    ensures Substituted(line, Some(pairs)) == line
  {
    NoParameterOccurs(line, pairs);
    ReplaceAbsent(line, "->", "");
  }

  lemma {:induction false} NoParameterOccurs(line: string, pairs: Bindings)
    requires forall k :: 0 <= k < |pairs| ==> |pairs[k].0| > 0 && !Contains(line, pairs[k].0)
    ensures ReplaceAll(line, pairs) == line
    decreases |pairs|
  {
    if pairs != [] {
      ReplaceAbsent(line, pairs[0].0, pairs[0].1);
      forall k | 0 <= k < |pairs[1..]|
        ensures |pairs[1..][k].0| > 0 && !Contains(line, pairs[1..][k].0)
      {
        assert pairs[1..][k] == pairs[k + 1];
      }
      NoParameterOccurs(line, pairs[1..]);
    }
  }

  /** A line that is just a parameter becomes its argument. */
  lemma {:induction false} ArgumentReplacesParameter(param: string, arg: string)
    requires |param| > 0 && param[0] == '&' && !Contains(arg, "->")
    ensures Substituted(param, Some([(param, arg)])) == arg
  {
    var pairs := [(param, arg)];
    assert param[..|param|] == param;
    assert param[|param|..] == [];
    assert Replace(param, param, arg) == arg + Replace([], param, arg);
    assert ReplaceAll(param, pairs) == ReplaceAll(arg, pairs[1..]);
    ReplaceAbsent(arg, "->", "");
  }

  /** The substitution loop of `passo`, over the pairs in declared order. */
  method Substituir(linha: string, parametros: Option<Bindings>) returns (r: string)
    ensures r == Substituted(linha, parametros)
  {
    r := linha;
    if parametros.Some? && !StartsWith(linha, ".") {
      var pares := parametros.value;
      var k := 0;
      while k < |pares|
        invariant 0 <= k <= |pares|
        invariant ReplaceAll(r, pares[k..]) == ReplaceAll(linha, pares)
      {
        assert pares[k..][1..] == pares[k + 1..];
        r := ReplaceStr(r, pares[k].0, pares[k].1);
        k := k + 1;
      }
      assert pares[k..] == [];
      r := Replace(r, "->", "");
    }
  }

  // ----- Tokens -----

  /** The parts of a header's third token that are non-empty and start with `&`, in order. */
  function Ampersanded(parts: seq<string>): (r: seq<string>)
    ensures |r| <= |parts|
  {
    if parts == [] then []
    else (if |parts[0]| > 0 && parts[0][0] == '&' then [parts[0]] else []) + Ampersanded(parts[1..])
  }

  /** The parameters a header declares: the `&` parts of its comma-split third token, or none. */
  function DeclaredParams(token: Option<string>): (r: seq<string>)
    ensures token.None? ==> r == []
  {
    match token
    case None => []
    case Some(t) => Ampersanded(Split(t, ','))
  }

  /** Exactly the parts that are non-empty and start with `&` are kept. */
  lemma {:induction false} AmpersandedParts(parts: seq<string>, p: string)
    ensures p in Ampersanded(parts) <==> p in parts && |p| > 0 && p[0] == '&'
    decreases |parts|
  {
    if parts != [] {
      AmpersandedParts(parts[1..], p);
      assert parts == [parts[0]] + parts[1..];
    }
  }

  /** The declared parameters are the `&` parts of the third token, and each is a non-empty pattern. */
  lemma {:induction false} DeclaredParamsParts(t: string, p: string)
    ensures p in DeclaredParams(Some(t)) <==> p in Split(t, ',') && |p| > 0 && p[0] == '&'
  {
    AmpersandedParts(Split(t, ','), p);
  }

  /** The k-th whitespace-separated token, if there is one. */
  function Token(tokens: seq<string>, k: nat): (r: Option<string>)
    ensures r.Some? <==> k < |tokens|
  {
    if k < |tokens| then Some(tokens[k]) else None
  }

  /** A definition header: the second token is MACRO. */
  predicate Opens(tokens: seq<string>) {
    |tokens| >= 2 && tokens[1] == "MACRO"
  }

  /** The token compared with MEND: the second one when it is MEND (a label before MEND is skipped), else the first. */
  function MendLabel(tokens: seq<string>): string
    requires tokens != []
  {
    if |tokens| >= 2 && tokens[1] == "MEND" then "MEND" else tokens[0]
  }

  /** `Iterator::zip` of two sequences of the same length. */
  function Zip(ps: seq<string>, vs: seq<string>): (r: Bindings)
    requires |ps| == |vs|
    ensures |r| == |ps| && forall k :: 0 <= k < |r| ==> r[k] == (ps[k], vs[k])
  {
    if ps == [] then [] else [(ps[0], vs[0])] + Zip(ps[1..], vs[1..])
  }

  // ----- One line -----

  /** `passo`'s loop variables: the nesting level, the macro being defined, and the output so far. */
  datatype Scan = Scan(level: int, defining: Option<string>, out: string)

  /** The loop variables on entry to `passo`. */
  const Start := Scan(0, None, "")

  /** The outcome of one line: the next loop variables and table, or the error `passo` returns. */
  datatype Step = Next(scan: Scan, table: Table) | Stop(error: MacroError)

  /** The outcome of a whole `passo`: the output with the table as it is left, or the error. */
  datatype Expansion = Done(out: string, table: Table) | Failed(error: MacroError)

  /** `passo` over the lines from the given loop variables. */
  function Run(lines: seq<string>, s: Scan, table: Table, params: Option<Bindings>, fuel: nat): Expansion
    decreases fuel, |lines| + 5
  {
    if lines == [] then Done(s.out, table)
    else
      match LineStep(lines[0], s, table, params, fuel)
      case Next(s', t') => Run(lines[1..], s', t', params, fuel)
      case Stop(e) => Failed(e)
  }

  /** One line of `passo`: blank lines are dropped, a header at level 0 opens a definition, the rest go on. */
  function LineStep(line: string, s: Scan, table: Table, params: Option<Bindings>, fuel: nat): Step
    decreases fuel, 4
  {
    var tokens := SplitWhitespace(line);
    if tokens == [] then Next(s, table)
    else if Opens(tokens) && s.level + 1 == 1 then
      Next(Scan(1, Some(tokens[0]), s.out), table[tokens[0] := Definicao("", DeclaredParams(Token(tokens, 2)))])
    else Close(line, tokens, s.(level := if Opens(tokens) then s.level + 1 else s.level), table, params, fuel)
  }

  /** A MEND (first or second token) lowers the level; reaching 0 ends the definition, and the line goes no further. */
  function Close(line: string, tokens: seq<string>, s: Scan, table: Table, params: Option<Bindings>, fuel: nat): Step
    requires tokens != []
    decreases fuel, 3
  {
    var head := MendLabel(tokens);
    if head == "MEND" && s.level - 1 == 0 then Next(Scan(0, None, s.out), table)
    else Dispatch(line, tokens, head, s.(level := if head == "MEND" then s.level - 1 else s.level), table, params, fuel)
  }

  /**
   * A line that neither opens nor closes a definition: appended to the body
   * being captured, expanded when it calls a macro (its first token, or the
   * second after an unknown head), and otherwise copied to the output.
   */
  function Dispatch(line: string, tokens: seq<string>, head: string, s: Scan, table: Table, params: Option<Bindings>, fuel: nat): Step
    requires tokens != []
    decreases fuel, 2
  {
    var skipped := head !in table && |tokens| >= 2;
    var name := if skipped then tokens[1] else head;
    if s.defining.Some? && s.defining.value in table then
      var d := table[s.defining.value];
      Next(s, table[s.defining.value := d.(corpo := d.corpo + Substituted(line, params) + "\n")])
    else if name in table then
      Invoke(name, table[name], if skipped then Token(tokens, 2) else Token(tokens, 1), s, table, fuel)
    else Next(s.(out := s.out + Substituted(line, params) + "\n"), table)
  }

  /** A call: the argument count is checked only when the macro declares parameters and an argument token is present. */
  function Invoke(name: string, d: Definicao, argument: Option<string>, s: Scan, table: Table, fuel: nat): Step
    decreases fuel, 1
  {
    if d.parametros != [] && argument.Some? then
      var args := NonEmpty(Split(argument.value, ','));
      if |args| != |d.parametros| then Stop(WrongArgumentCount(name, |d.parametros|, |args|))
      else Expand(d.corpo, s, table, Some(Zip(d.parametros, args)), fuel)
    else Expand(d.corpo, s, table, None, fuel)
  }

  /** The recursive `passo` on a body; its output is appended, and its table changes are kept. */
  function Expand(body: string, s: Scan, table: Table, params: Option<Bindings>, fuel: nat): Step
    decreases fuel, 0
  {
    if fuel == 0 then Stop(DepthExceeded)
    else
      match Run(Lines(body), Start, table, params, fuel - 1)
      case Done(out, t') => Next(s.(out := s.out + out), t')
      case Failed(e) => Stop(e)
  }

  // ----- The loop and the recursion -----

  /** `processar`: `passo` over the whole input with an empty table and no bindings. */
  method Processar(entrada: string, fuel: nat) returns (r: Result<string, MacroError>)
    ensures r.Success? <==> Run(Lines(entrada), Start, map[], None, fuel).Done?
    ensures r.Success? ==> r.value == Run(Lines(entrada), Start, map[], None, fuel).out
    ensures r.Failure? ==> r.error == Run(Lines(entrada), Start, map[], None, fuel).error
  {
    var e := Passo(entrada, map[], None, fuel);
    match e {
      case Done(saida, _) => r := Success(saida);
      case Failed(erro) => r := Failure(erro);
    }
  }

  /** `passo`: the loop over the lines of its input. */
  method Passo(entrada: string, tabela: Table, parametros: Option<Bindings>, fuel: nat) returns (r: Expansion)
    ensures r == Run(Lines(entrada), Start, tabela, parametros, fuel)
    decreases fuel, 5
  {
    var linhas := Lines(entrada);
    var nivel: int := 0;
    var definindo: Option<string> := None;
    var saida := "";
    var tab := tabela;
    var i := 0;
    while i < |linhas|
      invariant 0 <= i <= |linhas|
      invariant Run(linhas[i..], Scan(nivel, definindo, saida), tab, parametros, fuel) == Run(linhas, Start, tabela, parametros, fuel)
    {
      assert linhas[i..][1..] == linhas[i + 1..];
      var passo := PassoLinha(linhas[i], Scan(nivel, definindo, saida), tab, parametros, fuel);
      match passo {
        case Stop(erro) =>
          return Failed(erro);
        case Next(s, t) =>
          nivel, definindo, saida, tab := s.level, s.defining, s.out, t;
      }
      i := i + 1;
    }
    assert linhas[i..] == [];
    return Done(saida, tab);
  }

  /** The body of `passo`'s loop for one line. */
  method PassoLinha(linha: string, s: Scan, tabela: Table, parametros: Option<Bindings>, fuel: nat) returns (passo: Step)
    ensures passo == LineStep(linha, s, tabela, parametros, fuel)
    decreases fuel, 4
  {
    var conteudos := SplitWhitespace(linha);
    if conteudos == [] {
      return Next(s, tabela);
    }
    var nivel := s.level;
    if Opens(conteudos) {
      nivel := nivel + 1;
      if nivel == 1 {
        var parametros := DeclaredParams(Token(conteudos, 2));
        return Next(Scan(1, Some(conteudos[0]), s.out), tabela[conteudos[0] := Definicao("", parametros)]);
      }
    }
    passo := Fechar(linha, conteudos, s.(level := nivel), tabela, parametros, fuel);
  }

  /** The MEND test of `passo`'s loop. */
  method Fechar(linha: string, conteudos: seq<string>, s: Scan, tabela: Table, parametros: Option<Bindings>, fuel: nat) returns (passo: Step)
    requires conteudos != []
    ensures passo == Close(linha, conteudos, s, tabela, parametros, fuel)
    decreases fuel, 3
  {
    var head := MendLabel(conteudos);
    var nivel := s.level;
    if head == "MEND" {
      nivel := nivel - 1;
      if nivel == 0 {
        return Next(Scan(0, None, s.out), tabela);
      }
    }
    passo := Despachar(linha, conteudos, head, s.(level := nivel), tabela, parametros, fuel);
  }

  /** Capture, call or copy of a line that neither opens nor closes a definition. */
  method Despachar(linha: string, conteudos: seq<string>, head: string, s: Scan, tabela: Table, parametros: Option<Bindings>, fuel: nat)
    returns (passo: Step)
    requires conteudos != []
    ensures passo == Dispatch(linha, conteudos, head, s, tabela, parametros, fuel)
    decreases fuel, 2
  {
    var nome := head;
    var pulado := false;
    if nome !in tabela && |conteudos| >= 2 {
      nome := conteudos[1];
      pulado := true;
    }
    if s.defining.Some? && s.defining.value in tabela {
      var definicao := tabela[s.defining.value];
      var copia := Substituir(linha, parametros);
      return Next(s, tabela[s.defining.value := definicao.(corpo := definicao.corpo + copia + "\n")]);
    }
    if nome in tabela {
      var argumento := if pulado then Token(conteudos, 2) else Token(conteudos, 1);
      passo := Invocar(nome, tabela[nome], argumento, s, tabela, fuel);
      return;
    }
    var copia := Substituir(linha, parametros);
    return Next(s.(out := s.out + copia + "\n"), tabela);
  }

  /** A call: the argument check, then `passo` on the body. */
  method Invocar(nome: string, definicao: Definicao, argumento: Option<string>, s: Scan, tabela: Table, fuel: nat) returns (passo: Step)
    ensures passo == Invoke(nome, definicao, argumento, s, tabela, fuel)
    decreases fuel, 1
  {
    var pares: Option<Bindings> := None;
    if definicao.parametros != [] && argumento.Some? {
      var argumentos := NonEmpty(Split(argumento.value, ','));
      if |argumentos| != |definicao.parametros| {
        return Stop(WrongArgumentCount(nome, |definicao.parametros|, |argumentos|));
      }
      pares := Some(Zip(definicao.parametros, argumentos));
    }
    passo := Expandir(definicao.corpo, s, tabela, pares, fuel);
  }

  /** The recursive call of `passo` on a macro body, its output appended to this level's. */
  method Expandir(corpo: string, s: Scan, tabela: Table, pares: Option<Bindings>, fuel: nat) returns (passo: Step)
    ensures passo == Expand(corpo, s, tabela, pares, fuel)
    decreases fuel, 0
  {
    if fuel == 0 {
      return Stop(DepthExceeded);
    }
    var expansao := Passo(corpo, tabela, pares, fuel - 1);
    if expansao.Failed? {
      return Stop(expansao.error);
    }
    return Next(s.(out := s.out + expansao.out), expansao.table);
  }
}
