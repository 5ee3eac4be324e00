/**
 * What `MacroProcessador` does with each kind of line while collecting,
 * what a call expands to, and what a definition followed by a call gives.
 */
module CollectingMacroProperties {
  import opened Outcomes
  import opened Text
  import opened CollectingMacros

  // ----- Collecting, one line at a time -----

  /**
   * Outside a definition, a header opens one named by its second word, with
   * the remaining words, commas trimmed from their ends, as parameters; the
   * header is not kept.
   */
  lemma {:induction false} HeaderOpens(linha: string, c: Collection)
    requires c.atual.None?
    requires var t := Trim(linha); t != [] && t[0] != '.'
    requires var parts := SplitWhitespace(Trim(linha)); |parts| >= 2 && parts[0] == "MACRO"
    ensures
      var parts := SplitWhitespace(Trim(linha));
      var r := CollectLine(linha, c);
      && r == c.(atual := Some(MacroDef(parts[1], Params(parts[2..]), [])))
      && |r.atual.value.param| == |parts| - 2
      && (forall k :: 0 <= k < |parts| - 2 ==> r.atual.value.param[k] == TrimMatches(parts[k + 2], ','))
  {
  }

  /** Outside a definition, a line that is not a header is kept as it is, MEND included. */
  lemma {:induction false} OutsideKept(linha: string, c: Collection)
    requires c.atual.None?
    requires var t := Trim(linha); t == [] || t[0] == '.' || (var parts := SplitWhitespace(t); |parts| < 2 || parts[0] != "MACRO")
    ensures CollectLine(linha, c) == c.(saida := c.saida + [linha])
  {
  }

  /** Inside a definition, every line but MEND goes to the body: blank lines, comments and MACRO lines too. */
  lemma {:induction false} BodyLine(linha: string, c: Collection)
    requires c.atual.Some? && Trim(linha) != "MEND"
    ensures CollectLine(linha, c) == c.(atual := Some(c.atual.value.(body := c.atual.value.body + [linha])))
  {
  }

  /** MEND stores the definition under its name, replacing any earlier one, and nothing is kept. */
  lemma {:induction false} MendCommits(linha: string, c: Collection)
    requires c.atual.Some? && Trim(linha) == "MEND"
    ensures
      var m := c.atual.value;
      var r := CollectLine(linha, c);
      && r == Collection(c.saida, c.defs[m.nome := m], None)
      && r.defs[m.nome] == m
      && (forall n :: n in c.defs && n != m.nome ==> n in r.defs && r.defs[n] == c.defs[n])
  {
  }

  // ----- Collecting, whole inputs -----

  /** Every name in `old` is still defined in `new`. */
  predicate KeepsNames(after: Table, before: Table) {
    forall n :: n in before ==> n in after
  }

  lemma {:induction false} LineKeepsNames(linha: string, c: Collection)
    ensures KeepsNames(CollectLine(linha, c).defs, c.defs)
    ensures c.saida <= CollectLine(linha, c).saida
  {
  }

  /** Definitions are never removed while collecting: each name defined before is defined after. */
  lemma {:induction false} DefinitionsPersist(linhas: seq<string>, c: Collection)
    ensures KeepsNames(Collect(linhas, c).defs, c.defs)
    ensures c.saida <= Collect(linhas, c).saida
    decreases |linhas|
  {
    if linhas != [] {
      LineKeepsNames(linhas[0], c);
      DefinitionsPersist(linhas[1..], CollectLine(linhas[0], c));
    }
  }

  /** No line of `body` is MEND once trimmed. */
  predicate NoMend(body: seq<string>)
    decreases |body|
  {
    body == [] || (Trim(body[0]) != "MEND" && NoMend(body[1..]))
  }

  /** The state with `more` added to the body being read. */
  function Reading(c: Collection, more: seq<string>): Collection
    requires c.atual.Some?
  {
    c.(atual := Some(c.atual.value.(body := c.atual.value.body + more)))
  }

  /** Inside a definition, lines that are not MEND all go to the body, in order. */
  lemma {:induction false} BodyCollected(body: seq<string>, rest: seq<string>, c: Collection)
    requires c.atual.Some? && NoMend(body)
    ensures Collect(body + rest, c) == Collect(rest, Reading(c, body))
    decreases |body|
  {
    if body == [] {
      assert body + rest == rest;
      assert c.atual.value.body + body == c.atual.value.body;
    } else {
      BodyLine(body[0], c);
      assert (body + rest)[0] == body[0] && (body + rest)[1..] == body[1..] + rest;
      BodyCollected(body[1..], rest, Reading(c, [body[0]]));
      ReadInTurn(body, c);
    }
  }

  lemma {:induction false} ReadInTurn(body: seq<string>, c: Collection)
    requires c.atual.Some? && body != []
    ensures Reading(Reading(c, [body[0]]), body[1..]) == Reading(c, body)
  {
    assert c.atual.value.body + [body[0]] + body[1..] == c.atual.value.body + body;
  }

  /** The definition a header opens. */
  function Opened(header: string): MacroDef
    requires var t := Trim(header); t != [] && t[0] != '.'
    requires var parts := SplitWhitespace(Trim(header)); |parts| >= 2 && parts[0] == "MACRO"
  {
    var parts := SplitWhitespace(Trim(header));
    MacroDef(parts[1], Params(parts[2..]), [])
  }

  /**
   * A header, body lines that are not MEND and a MEND store the definition
   * with that body under the header's name, and keep none of those lines.
   */
  lemma {:induction false} BlockRecorded(header: string, body: seq<string>, mend: string, rest: seq<string>, c: Collection)
    requires c.atual.None?
    requires var t := Trim(header); t != [] && t[0] != '.'
    requires var parts := SplitWhitespace(Trim(header)); |parts| >= 2 && parts[0] == "MACRO"
    requires NoMend(body) && Trim(mend) == "MEND"
    ensures Collect([header] + body + [mend] + rest, c) ==
      Collect(rest, c.(defs := c.defs[Opened(header).nome := Opened(header).(body := body)]))
  {
    var m := Opened(header);
    var open := c.(atual := Some(m));
    HeaderOpens(header, c);
    assert [header] + body + [mend] + rest == [header] + (body + ([mend] + rest));
    BodyCollected(body, [mend] + rest, open);
    assert [] + body == body;
    MendCommits(mend, Reading(open, body));
    assert ([mend] + rest)[1..] == rest;
  }

  /** A definition with no MEND after it is never stored, and its lines are not kept either. */
  lemma {:induction false} UnterminatedDropped(header: string, body: seq<string>, c: Collection)
    requires c.atual.None?
    requires var t := Trim(header); t != [] && t[0] != '.'
    requires var parts := SplitWhitespace(Trim(header)); |parts| >= 2 && parts[0] == "MACRO"
    requires NoMend(body)
    ensures Collect([header] + body, c) == c.(atual := Some(Opened(header).(body := body)))
  {
    HeaderOpens(header, c);
    BodyCollected(body, [], c.(atual := Some(Opened(header))));
    assert body + [] == body;
    assert [] + body == body;
  }

  // ----- Substitution -----

  /** A line in which no `&param` of the map occurs comes out unchanged. */
  lemma {:induction false} ApplyAbsent(linha: string, subs: Substitutions)
    requires forall k :: 0 <= k < |subs| ==> !Contains(linha, "&" + subs[k].0)
    ensures Apply(linha, subs) == linha
    decreases |subs|
  {
    if subs != [] {
      ReplaceAbsent(linha, "&" + subs[0].0, subs[0].1);
      forall k | 0 <= k < |subs[1..]|
        ensures !Contains(linha, "&" + subs[1..][k].0)
      {
        assert subs[1..][k] == subs[k + 1];
      }
      ApplyAbsent(linha, subs[1..]);
    }
  }

  /** A body line that is exactly `&param` becomes the argument. */
  lemma {:induction false} ParameterReplaced(p: string, a: string)
    ensures Apply("&" + p, [(p, a)]) == a
  {
    var pat := "&" + p;
    assert pat[..|pat|] == pat;
    assert pat[|pat|..] == [];
    assert Replace(pat, pat, a) == a + Replace([], pat, a);
    assert a + [] == a;
  }

  /**
   * A parameter declared with its `&`, as in `MACRO INC &X`, is looked for
   * as `&&X`, so a body line `&X` is left as it is.
   */
  lemma {:induction false} AmpersandDeclared(p: string, a: string)
    ensures Apply("&" + p, [("&" + p, a)]) == "&" + p
  {
    assert |"&" + p| < |"&" + ("&" + p)|;
  }

  /** The body lines with the map applied: one line per body line, in order. */
  lemma {:induction false} ApplyAllLines(body: seq<string>, subs: Substitutions)
    ensures |ApplyAll(body, subs)| == |body|
    ensures forall k :: 0 <= k < |body| ==> ApplyAll(body, subs)[k] == Apply(body[k], subs)
    decreases |body|
  {
    if body != [] {
      var init := body[..|body| - 1];
      ApplyAllLines(init, subs);
      forall k | 0 <= k < |init|
        ensures ApplyAll(body, subs)[k] == Apply(body[k], subs)
      {
        assert init[k] == body[k];
      }
    }
  }

  /** With no substitutions the body comes out exactly as written. */
  lemma {:induction false} ApplyNothing(body: seq<string>)
    ensures ApplyAll(body, []) == body
    decreases |body|
  {
    if body != [] {
      ApplyNothing(body[..|body| - 1]);
      assert body[..|body| - 1] + [body[|body| - 1]] == body;
    }
  }

  // ----- The substitution map -----

  predicate Distinct(ps: seq<string>) {
    forall j, k :: 0 <= j < k < |ps| ==> ps[j] != ps[k]
  }

  /** With distinct parameter names, the map pairs each parameter with its own argument, in declared order. */
  lemma {:induction false} DistinctSubstitutions(params: seq<string>, args: seq<string>)
    requires |params| == |args| && Distinct(params)
    ensures |SubstitutionsOf(params, args)| == |params|
    ensures forall k :: 0 <= k < |params| ==> SubstitutionsOf(params, args)[k] == (params[k], args[k])
    decreases |params|
  {
    if params != [] {
      var n := |params| - 1;
      var ps, vs := params[..n], args[..n];
      assert Distinct(ps) by {
        forall j, k | 0 <= j < k < |ps| ensures ps[j] != ps[k] {
          assert ps[j] == params[j] && ps[k] == params[k];
        }
      }
      DistinctSubstitutions(ps, vs);
      forall k | 0 <= k < n
        ensures SubstitutionsOf(ps, vs)[k].0 != params[n]
      {
        assert SubstitutionsOf(ps, vs)[k].0 == params[k];
      }
      BindNew(SubstitutionsOf(ps, vs), params[n], args[n]);
    }
  }

  /** Binding a parameter not yet in the map puts it at the end. */
  lemma {:induction false} BindNew(subs: Substitutions, p: string, a: string)
    requires forall k :: 0 <= k < |subs| ==> subs[k].0 != p
    ensures Bind(subs, p, a) == subs + [(p, a)]
    decreases |subs|
  {
    if subs != [] {
      forall k | 0 <= k < |subs[1..]|
        ensures subs[1..][k].0 != p
      {
        assert subs[1..][k] == subs[k + 1];
      }
      BindNew(subs[1..], p, a);
      assert [subs[0]] + (subs[1..] + [(p, a)]) == subs + [(p, a)];
    }
  }

  /** A parameter declared twice keeps one place in the map, with the later argument. */
  lemma {:induction false} RepeatedParameter(p: string, a: string, b: string)
    ensures SubstitutionsOf([p, p], [a, b]) == [(p, b)]
  {
    assert [p, p][..1] == [p] && [a, b][..1] == [a];
    assert [p][..0] == [] && [a][..0] == [];
    assert SubstitutionsOf([p], [a]) == [(p, a)];
  }

  /**
   * A header's parameters are its words with commas trimmed, but a call's
   * arguments are split on commas: `MACRO SOMA A,B` declares the one
   * parameter `A,B`, while the call `SOMA 1,2` passes two arguments.
   */
  lemma {:induction false} CommasInHeader()
    ensures Params(["A,B"]) == ["A,B"]
    ensures Arguments(["1,2"]) == ["1", "2"]
  {
    assert TrimStartChar("A,B", ',') == "A,B";
    assert TrimEndChar("A,B", ',') == "A,B";
    assert IndexOf("1,2", ',') == 1;
    assert "1,2"[..1] == "1" && "1,2"[2..] == "2";
    assert IndexOf("2", ',') == 1;
    assert Split("2", ',') == ["2"];
    assert Split("1,2", ',') == ["1,2"[..1]] + Split("1,2"[2..], ',');
    assert Split("1,2", ',') == ["1", "2"];
    assert NonEmpty(["1", "2"]) == ["1", "2"] by {
      assert ["1", "2"][1..] == ["2"];
      assert ["2"][1..] == [];
    }
    assert ["1,2"][..0] == [];
  }

  // ----- Expanding -----

  /** A blank line, a comment, or a line whose first word is not a defined name comes out as it is. */
  lemma {:induction false} NotACall(linha: string, defs: Table)
    requires var t := Trim(linha); t == [] || t[0] == '.' || SplitWhitespace(t) == [] || SplitWhitespace(t)[0] !in defs
    ensures ExpandLine(linha, defs) == Success([linha])
  {
  }

  /**
   * A call with as many arguments as parameters comes out as the body, one
   * line per body line, each with the substitutions applied; the call line
   * itself is gone, and the body lines are not expanded again.
   */
  lemma {:induction false} CallExpanded(linha: string, defs: Table)
    requires var t := Trim(linha); t != [] && t[0] != '.' && SplitWhitespace(t) != [] && SplitWhitespace(t)[0] in defs
    requires
      var parts := SplitWhitespace(Trim(linha));
      |Arguments(parts[1..])| == |defs[parts[0]].param|
    ensures
      var parts := SplitWhitespace(Trim(linha));
      var m := defs[parts[0]];
      var subs := SubstitutionsOf(m.param, Arguments(parts[1..]));
      && ExpandLine(linha, defs).Success?
      && |ExpandLine(linha, defs).value| == |m.body|
      && (forall k :: 0 <= k < |m.body| ==> ExpandLine(linha, defs).value[k] == Apply(m.body[k], subs))
  {
    var parts := SplitWhitespace(Trim(linha));
    var m := defs[parts[0]];
    ApplyAllLines(m.body, SubstitutionsOf(m.param, Arguments(parts[1..])));
  }

  /** A call to a macro without parameters and without arguments gives the body exactly as written. */
  lemma {:induction false} ParameterlessCall(linha: string, defs: Table)
    requires var t := Trim(linha); t != [] && t[0] != '.' && SplitWhitespace(t) != [] && SplitWhitespace(t)[0] in defs
    requires
      var parts := SplitWhitespace(Trim(linha));
      defs[parts[0]].param == [] && Arguments(parts[1..]) == []
    ensures ExpandLine(linha, defs) == Success(defs[SplitWhitespace(Trim(linha))[0]].body)
  {
    ApplyNothing(defs[SplitWhitespace(Trim(linha))[0]].body);
  }

  /** A call with the wrong number of arguments fails, naming the macro, its parameter count and the argument count. */
  lemma {:induction false} WrongCount(linha: string, defs: Table)
    requires var t := Trim(linha); t != [] && t[0] != '.' && SplitWhitespace(t) != [] && SplitWhitespace(t)[0] in defs
    requires
      var parts := SplitWhitespace(Trim(linha));
      |Arguments(parts[1..])| != |defs[parts[0]].param|
    ensures
      var parts := SplitWhitespace(Trim(linha));
      var m := defs[parts[0]];
      ExpandLine(linha, defs) == Failure(ArgumentCount(m.nome, |m.param|, |Arguments(parts[1..])|))
  {
  }

  /** And that is the only way a line fails. */
  lemma {:induction false} OnlyCountFails(linha: string, defs: Table)
    requires ExpandLine(linha, defs).Failure?
    ensures
      var t := Trim(linha);
      && t != [] && t[0] != '.' && SplitWhitespace(t) != [] && SplitWhitespace(t)[0] in defs
      && |Arguments(SplitWhitespace(t)[1..])| != |defs[SplitWhitespace(t)[0]].param|
  {
  }

  /** Two expansion results in sequence: the first failure wins, and otherwise the lines join up. */
  function Then(first: Result<seq<string>, MacroError>, second: Result<seq<string>, MacroError>): Result<seq<string>, MacroError> {
    match first
    case Failure(e) => Failure(e)
    case Success(x) =>
      match second
      case Failure(e) => Failure(e)
      case Success(y) => Success(x + y)
  }

  lemma {:induction false} ThenAssociates(r1: Result<seq<string>, MacroError>, r2: Result<seq<string>, MacroError>, r3: Result<seq<string>, MacroError>)
    ensures Then(Then(r1, r2), r3) == Then(r1, Then(r2, r3))
  {
    if r1.Success? && r2.Success? && r3.Success? {
      assert r1.value + r2.value + r3.value == r1.value + (r2.value + r3.value);
    }
  }

  lemma {:induction false} ExpandLast(saida: seq<string>, defs: Table)
    requires saida != []
    ensures ExpandAll(saida, defs) == Then(ExpandAll(saida[..|saida| - 1], defs), ExpandLine(saida[|saida| - 1], defs))
  {
  }

  /** Expanding a list is expanding its parts: the lines join up, and the first failure wins. */
  lemma {:induction false} ExpandAppend(a: seq<string>, b: seq<string>, defs: Table)
    ensures ExpandAll(a + b, defs) == Then(ExpandAll(a, defs), ExpandAll(b, defs))
    decreases |b|
  {
    if b == [] {
      assert a + b == a;
      assert ExpandAll(b, defs) == Success([]);
      if ExpandAll(a, defs).Success? {
        assert ExpandAll(a, defs).value + [] == ExpandAll(a, defs).value;
      }
    } else {
      var n := |b| - 1;
      var ab := a + b;
      assert ab[..|ab| - 1] == a + b[..n];
      assert ab[|ab| - 1] == b[n];
      ExpandLast(ab, defs);
      ExpandLast(b, defs);
      ExpandAppend(a, b[..n], defs);
      ThenAssociates(ExpandAll(a, defs), ExpandAll(b[..n], defs), ExpandLine(b[n], defs));
    }
  }

  /** A single line expands as that line does. */
  lemma {:induction false} ExpandSingle(linha: string, defs: Table)
    ensures ExpandAll([linha], defs) == ExpandLine(linha, defs)
  {
    assert [linha][..0] == [];
    if ExpandLine(linha, defs).Success? {
      assert [] + ExpandLine(linha, defs).value == ExpandLine(linha, defs).value;
    }
  }

  /** With an empty table, as after `limpar`, expansion changes nothing. */
  lemma {:induction false} EmptyTableKeeps(saida: seq<string>)
    ensures ExpandAll(saida, map[]) == Success(saida)
    decreases |saida|
  {
    if saida != [] {
      var n := |saida| - 1;
      EmptyTableKeeps(saida[..n]);
      NotACall(saida[n], map[]);
      assert saida[..n] + [saida[n]] == saida;
    }
  }

  // ----- A definition and a call -----

  /** Collecting a definition followed by a call keeps only the call and stores the definition. */
  lemma {:induction false} DefinitionThenCallCollected(header: string, body: seq<string>, mend: string, call: string, defs: Table)
    requires var t := Trim(header); t != [] && t[0] != '.'
    requires var parts := SplitWhitespace(Trim(header)); |parts| >= 2 && parts[0] == "MACRO"
    requires NoMend(body) && Trim(mend) == "MEND"
    requires var t := Trim(call); t != [] && t[0] != '.' && SplitWhitespace(t) != [] && SplitWhitespace(t)[0] == Opened(header).nome
    requires Opened(header).nome != "MACRO"
    ensures Collect([header] + body + [mend, call], Collection([], defs, None)) ==
      Collection([call], defs[Opened(header).nome := Opened(header).(body := body)], None)
  {
    var m := Opened(header);
    var c := Collection([], defs, None);
    BlockRecorded(header, body, mend, [call], c);
    assert [header] + body + [mend, call] == [header] + body + [mend] + [call];
    var after := c.(defs := defs[m.nome := m.(body := body)]);
    assert Collect([call], after) == Collect([], CollectLine(call, after));
    OutsideKept(call, after);
  }

  /**
   * Processing a definition followed by a call with the right number of
   * arguments: the table stores the definition, and the text is the body
   * with the arguments substituted, joined by newlines.
   */
  lemma {:induction false} DefineThenCall(entrada: string, header: string, body: seq<string>, mend: string, call: string, defs: Table)
    requires Lines(entrada) == [header] + body + [mend, call]
    requires var t := Trim(header); t != [] && t[0] != '.'
    requires var parts := SplitWhitespace(Trim(header)); |parts| >= 2 && parts[0] == "MACRO"
    requires NoMend(body) && Trim(mend) == "MEND"
    requires var t := Trim(call); t != [] && t[0] != '.' && SplitWhitespace(t) != [] && SplitWhitespace(t)[0] == Opened(header).nome
    requires Opened(header).nome != "MACRO"
    requires |Arguments(SplitWhitespace(Trim(call))[1..])| == |Opened(header).param|
    ensures
      var m := Opened(header);
      var subs := SubstitutionsOf(m.param, Arguments(SplitWhitespace(Trim(call))[1..]));
      Processed(entrada, defs) == (Success(Join(ApplyAll(body, subs), "\n")), defs[m.nome := m.(body := body)])
  {
    var m := Opened(header);
    var stored := defs[m.nome := m.(body := body)];
    DefinitionThenCallCollected(header, body, mend, call, defs);
    ExpandSingle(call, stored);
  }
}
