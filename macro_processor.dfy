/**
 * The two-phase macro processor `MacroProcessador`. `processar` first walks
 * the input's lines: a line outside a definition goes to an output list, and
 * a `MACRO name params…` … `MEND` block is recorded in the processor's own
 * table, which keeps its entries from one call to the next. It then walks
 * that list once (`expandir_macros`): a line whose first word names a
 * definition is replaced by the definition's body, with each `&param`
 * replaced by the call's argument. Bodies are not expanded again, and
 * definitions do not nest.
 */
module CollectingMacros {
  import opened Outcomes
  import opened Text

  /** A definition: its name, its declared parameters and its body lines, as read. */
  datatype MacroDef = MacroDef(nome: string, param: seq<string>, body: seq<string>)

  /** The processor's table: a definition per name. */
  type Table = map<string, MacroDef>

  /** The substitution map of one call, as (parameter, argument) pairs in the order they are applied. */
  type Substitutions = seq<(string, string)>

  /** A call whose argument count differs from the definition's parameter count. */
  datatype MacroError = ArgumentCount(nome: string, esperados: nat, recebidos: nat)

  // ----- Collecting definitions -----

  /** The parameters of a header: each word after the name, with the commas at its ends trimmed. */
  function Params(tokens: seq<string>): seq<string> {
    seq(|tokens|, k requires 0 <= k < |tokens| => TrimMatches(tokens[k], ','))
  }

  /** A header is a line of at least two words whose first word is exactly MACRO; it opens an empty definition. */
  function Header(t: string): Option<MacroDef> {
    var parts := SplitWhitespace(t);
    if |parts| >= 2 && parts[0] == "MACRO" then Some(MacroDef(parts[1], Params(parts[2..]), [])) else None
  }

  /** What the collecting loop keeps: the output list, the table and the definition being read. */
  datatype Collection = Collection(saida: seq<string>, defs: Table, atual: Option<MacroDef>)

  function Added(m: MacroDef, linha: string): MacroDef {
    m.(body := m.body + [linha])
  }

  /** One pass of the collecting loop. */
  function CollectLine(linha: string, c: Collection): Collection {
    var t := Trim(linha);
    if t == [] || t[0] == '.' then
      match c.atual
      case Some(m) => c.(atual := Some(Added(m, linha)))
      case None => c.(saida := c.saida + [linha])
    else
      match c.atual
      case None =>
        (match Header(t)
         case Some(m) => c.(atual := Some(m))
         case None => c.(saida := c.saida + [linha]))
      case Some(m) =>
        if t == "MEND" then c.(defs := c.defs[m.nome := m], atual := None)
        else c.(atual := Some(Added(m, linha)))
  }

  /** The collecting loop over the remaining lines. */
  function Collect(linhas: seq<string>, c: Collection): Collection
    decreases |linhas|
  {
    if linhas == [] then c else Collect(linhas[1..], CollectLine(linhas[0], c))
  }

  // ----- Expanding calls -----

  /** The arguments of a call: the words after its name split on commas, with the empty pieces dropped. */
  function Arguments(words: seq<string>): seq<string>
    decreases |words|
  {
    if words == [] then [] else Arguments(words[..|words| - 1]) + NonEmpty(Split(words[|words| - 1], ','))
  }

  /** Inserting a pair into the substitution map: a parameter already there gets the new argument in its place. */
  function Bind(subs: Substitutions, p: string, a: string): Substitutions
    decreases |subs|
  {
    if subs == [] then [(p, a)]
    else if subs[0].0 == p then [(p, a)] + subs[1..]
    else [subs[0]] + Bind(subs[1..], p, a)
  }

  /** The map collected from the parameters zipped with the arguments. */
  function SubstitutionsOf(params: seq<string>, args: seq<string>): Substitutions
    requires |params| == |args|
    decreases |params|
  {
    if params == [] then []
    else Bind(SubstitutionsOf(params[..|params| - 1], args[..|args| - 1]), params[|params| - 1], args[|args| - 1])
  }

  /** The parameters a substitution map holds. */
  function Keys(subs: Substitutions): seq<string> {
    seq(|subs|, k requires 0 <= k < |subs| => subs[k].0)
  }

  /** A body line with each pair's `&param` replaced by its argument, pair after pair. */
  function Apply(linha: string, subs: Substitutions): string
    decreases |subs|
  {
    if subs == [] then linha else Apply(Replace(linha, "&" + subs[0].0, subs[0].1), subs[1..])
  }

  /** Every body line with the substitutions applied, in order. */
  function ApplyAll(body: seq<string>, subs: Substitutions): seq<string>
    decreases |body|
  {
    if body == [] then [] else ApplyAll(body[..|body| - 1], subs) + [Apply(body[|body| - 1], subs)]
  }

  /** What one collected line becomes: itself, or the body of the definition its first word names. */
  function ExpandLine(linha: string, defs: Table): Result<seq<string>, MacroError> {
    var t := Trim(linha);
    if t == [] || t[0] == '.' then Success([linha])
    else
      var parts := SplitWhitespace(t);
      if parts == [] then Success([linha])
      else if parts[0] in defs then
        var m := defs[parts[0]];
        var args := Arguments(parts[1..]);
        if |args| != |m.param| then Failure(ArgumentCount(m.nome, |m.param|, |args|))
        else Success(ApplyAll(m.body, SubstitutionsOf(m.param, args)))
      else Success([linha])
  }

  /** `expandir_macros` over the collected list: the lines in order, or the error of the first line that fails. */
  function ExpandAll(saida: seq<string>, defs: Table): Result<seq<string>, MacroError>
    decreases |saida|
  {
    if saida == [] then Success([])
    else
      match ExpandAll(saida[..|saida| - 1], defs)
      case Failure(e) => Failure(e)
      case Success(antes) =>
        match ExpandLine(saida[|saida| - 1], defs)
        case Failure(e) => Failure(e)
        case Success(linhas) => Success(antes + linhas)
  }

  /** `processar` with the table `defs`: the text it returns, and the table it leaves. */
  function Processed(entrada: string, defs: Table): (Result<string, MacroError>, Table) {
    var c := Collect(Lines(entrada), Collection([], defs, None));
    var r := match ExpandAll(c.saida, c.defs)
      case Success(linhas) => Success(Join(linhas, "\n"))
      case Failure(e) => Failure(e);
    (r, c.defs)
  }

  // ----- The processor -----

  class MacroProcessador {
    var macroDef: Table

    constructor ()
      ensures macroDef == map[]
    {
      macroDef := map[];
    }

    /** `processar`: collect the definitions into the table, then expand the calls once. */
    method Processar(entrada: string) returns (r: Result<string, MacroError>)
      modifies this
      ensures (r, macroDef) == Processed(entrada, old(macroDef))
    {
      var saida: seq<string> := [];
      var linhas := Lines(entrada);
      var emDefMacro := false;
      var macroAtual: Option<MacroDef> := None;
      var i := 0;
      while i < |linhas|
        invariant 0 <= i <= |linhas|
        invariant emDefMacro <==> macroAtual.Some?
        invariant Collect(linhas[i..], Collection(saida, macroDef, macroAtual)) == Collect(linhas, Collection([], old(macroDef), None))
      {
        var linha := linhas[i];
        ghost var antes := Collection(saida, macroDef, macroAtual);
        var trimmed := Trim(linha);
        if trimmed == [] || trimmed[0] == '.' {
          if emDefMacro {
            macroAtual := Some(Added(macroAtual.value, linha));
          } else {
            saida := saida + [linha];
          }
        } else if !emDefMacro {
          var parts := SplitWhitespace(trimmed);
          if |parts| >= 2 && parts[0] == "MACRO" {
            emDefMacro := true;
            macroAtual := Some(MacroDef(parts[1], Params(parts[2..]), []));
          } else {
            saida := saida + [linha];
          }
        } else if trimmed == "MEND" {
          macroDef := macroDef[macroAtual.value.nome := macroAtual.value];
          macroAtual := None;
          emDefMacro := false;
        } else {
          macroAtual := Some(Added(macroAtual.value, linha));
        }
        assert Collection(saida, macroDef, macroAtual) == CollectLine(linha, antes);
        CollectNext(linhas, i, antes);
        i := i + 1;
      }
      assert linhas[i..] == [];
      var expandida := ExpandirMacros(saida);
      match expandida {
        case Success(ls) => r := Success(Join(ls, "\n"));
        case Failure(e) => r := Failure(e);
      }
    }

    /** `expandir_macros`: every collected line in turn, stopping at the first error. */
    method ExpandirMacros(saida: seq<string>) returns (r: Result<seq<string>, MacroError>)
      ensures r == ExpandAll(saida, macroDef)
    {
      var saidaExpandida: seq<string> := [];
      var i := 0;
      while i < |saida|
        invariant 0 <= i <= |saida|
        invariant ExpandAll(saida[..i], macroDef) == Success(saidaExpandida)
      {
        var passo := ExpandirLinha(saida[i]);
        assert saida[..i + 1][..i] == saida[..i];
        match passo {
          case Failure(e) =>
            FailureDecides(saida, i + 1, macroDef);
            return Failure(e);
          case Success(ls) =>
            saidaExpandida := saidaExpandida + ls;
        }
        i := i + 1;
      }
      assert saida[..i] == saida;
      r := Success(saidaExpandida);
    }

    /** The body of the expansion loop for one line. */
    method ExpandirLinha(linha: string) returns (r: Result<seq<string>, MacroError>)
      ensures r == ExpandLine(linha, macroDef)
    {
      var trimmed := Trim(linha);
      if trimmed == [] || trimmed[0] == '.' {
        return Success([linha]);
      }
      var parts := SplitWhitespace(trimmed);
      if parts == [] {
        return Success([linha]);
      }
      if parts[0] in macroDef {
        var m := macroDef[parts[0]];
        var argumentos := Argumentos(parts);
        if |argumentos| != |m.param| {
          return Failure(ArgumentCount(m.nome, |m.param|, |argumentos|));
        }
        var substituicoes := SubstitutionsOf(m.param, argumentos);
        var corpo := ExpandirCorpo(m.body, substituicoes);
        return Success(corpo);
      }
      return Success([linha]);
    }

    /** `limpar`: forget every definition. */
    method Limpar()
      modifies this
      ensures macroDef == map[]
    {
      macroDef := map[];
    }

    /** `pegar_nome_macros`: the defined names, each once, in the table's own order. */
    method PegarNomeMacros() returns (nomes: seq<string>)
      ensures |nomes| == |macroDef|
      ensures forall n :: n in nomes <==> n in macroDef
      ensures forall j, k :: 0 <= j < k < |nomes| ==> nomes[j] != nomes[k]
    {
      nomes := [];
      var resto := macroDef.Keys;
      while resto != {}
        invariant resto <= macroDef.Keys
        invariant forall n :: n in nomes <==> n in macroDef.Keys - resto
        invariant forall j, k :: 0 <= j < k < |nomes| ==> nomes[j] != nomes[k]
        invariant |nomes| + |resto| == |macroDef.Keys|
        decreases |resto|
      {
        var n :| n in resto;
        nomes := nomes + [n];
        resto := resto - {n};
      }
      assert macroDef.Keys - resto == macroDef.Keys;
    }
  }

  /** The argument loop: the words after the call's name, each split on commas, empty pieces dropped. */
  method Argumentos(parts: seq<string>) returns (argumentos: seq<string>)
    requires parts != []
    ensures argumentos == Arguments(parts[1..])
  {
    argumentos := [];
    var k := 1;
    while k < |parts|
      invariant 1 <= k <= |parts|
      invariant argumentos == Arguments(parts[1..k])
    {
      ArgumentsNext(parts, k);
      argumentos := argumentos + NonEmpty(Split(parts[k], ','));
      k := k + 1;
    }
    assert parts[1..k] == parts[1..];
  }

  lemma {:induction false} ArgumentsNext(parts: seq<string>, k: nat)
    requires 1 <= k < |parts|
    ensures Arguments(parts[1..k + 1]) == Arguments(parts[1..k]) + NonEmpty(Split(parts[k], ','))
  {
    var w := parts[1..k + 1];
    assert w[..|w| - 1] == parts[1..k];
    assert w[|w| - 1] == parts[k];
  }

  /** The substitution loop for one body line. */
  method Substituir(linha: string, subs: Substitutions) returns (r: string)
    ensures r == Apply(linha, subs)
  {
    r := linha;
    var k := 0;
    while k < |subs|
      invariant 0 <= k <= |subs|
      invariant Apply(r, subs[k..]) == Apply(linha, subs)
    {
      assert subs[k..][1..] == subs[k + 1..];
      r := Replace(r, "&" + subs[k].0, subs[k].1);
      k := k + 1;
    }
  }

  /** The loop over a definition's body. */
  method ExpandirCorpo(body: seq<string>, subs: Substitutions) returns (linhas: seq<string>)
    ensures linhas == ApplyAll(body, subs)
  {
    linhas := [];
    var k := 0;
    while k < |body|
      invariant 0 <= k <= |body|
      invariant linhas == ApplyAll(body[..k], subs)
    {
      assert body[..k + 1][..k] == body[..k];
      var linha := Substituir(body[k], subs);
      linhas := linhas + [linha];
      k := k + 1;
    }
    assert body[..k] == body;
  }

  /** One pass of the collecting loop, as Collect reads it. */
  lemma {:induction false} CollectNext(linhas: seq<string>, i: nat, c: Collection)
    requires i < |linhas|
    ensures Collect(linhas[i..], c) == Collect(linhas[i + 1..], CollectLine(linhas[i], c))
  {
    assert linhas[i..][0] == linhas[i];
    assert linhas[i..][1..] == linhas[i + 1..];
  }

  /** Once a prefix of the list fails, the whole list fails with the same error. */
  lemma {:induction false} FailureDecides(saida: seq<string>, k: nat, defs: Table)
    requires k <= |saida| && ExpandAll(saida[..k], defs).Failure?
    ensures ExpandAll(saida, defs) == ExpandAll(saida[..k], defs)
    decreases |saida| - k
  {
    if k < |saida| {
      assert saida[..k + 1][..k] == saida[..k];
      FailureDecides(saida, k + 1, defs);
    } else {
      assert saida[..k] == saida;
    }
  }
}
