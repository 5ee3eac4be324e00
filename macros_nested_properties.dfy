/**
 * What the recursive macro processor promises: blank lines vanish, a
 * MACRO..MEND block emits nothing and records its body, a call is replaced
 * by the expansion of the body (its label dropped), the argument count is
 * checked only for macros with parameters, an unmatched MEND is copied out,
 * and macro-free input comes out line for line.
 */
module NestedMacroProperties {
  import opened Outcomes
  import opened Text
  import opened NestedMacros

  /** A line that neither opens nor closes a definition. */
  predicate Inert(line: string) {
    var t := SplitWhitespace(line);
    t == [] || (!Opens(t) && MendLabel(t) != "MEND")
  }

  /** A line that closes a definition at level 1: MEND as its first or second token, and not a header. */
  predicate Closes(line: string) {
    var t := SplitWhitespace(line);
    t != [] && !Opens(t) && MendLabel(t) == "MEND"
  }

  /** An inert line whose first two tokens are none of the names. */
  predicate Plain(line: string, names: set<string>) {
    var t := SplitWhitespace(line);
    t == [] || (!Opens(t) && MendLabel(t) != "MEND" && t[0] !in names && (|t| >= 2 ==> t[1] !in names))
  }

  /** Every line is inert. */
  predicate AllInert(lines: seq<string>) {
    lines == [] || (Inert(lines[0]) && AllInert(lines[1..]))
  }

  /** Every line is plain for the names. */
  predicate AllPlain(lines: seq<string>, names: set<string>) {
    lines == [] || (Plain(lines[0], names) && AllPlain(lines[1..], names))
  }

  /** The text `passo` appends for lines it copies: each non-blank line, substituted, with a newline. */
  function Copied(lines: seq<string>, params: Option<Bindings>): string {
    if lines == [] then ""
    else (if SplitWhitespace(lines[0]) == [] then "" else Substituted(lines[0], params) + "\n") + Copied(lines[1..], params)
  }

  lemma {:induction false} Associative(a: string, b: string, c: string)
    ensures a + b + c == a + (b + c)
  {
  }

  /** Appending to a body twice is appending once with both pieces. */
  lemma {:induction false} Overwrite(table: Table, name: string, d: Definicao, a: string, b: string)
    ensures
      var next := table[name := d.(corpo := a)];
      next[name := next[name].(corpo := next[name].corpo + b)] == table[name := d.(corpo := a + b)]
  {
  }

  lemma {:induction false} EmptyPrefix(a: string)
    ensures "" + a == a
  {
  }

  /** A blank first line adds nothing to the copied text. */
  lemma {:induction false} BlankCopied(lines: seq<string>, params: Option<Bindings>)
    requires lines != [] && SplitWhitespace(lines[0]) == []
    ensures Copied(lines, params) == Copied(lines[1..], params)
  {
  }

  /** A non-blank first line is copied, substituted, with a newline, before the rest. */
  lemma {:induction false} LineCopied(lines: seq<string>, params: Option<Bindings>)
    requires lines != [] && SplitWhitespace(lines[0]) != []
    ensures Copied(lines, params) == Substituted(lines[0], params) + "\n" + Copied(lines[1..], params)
  {
  }

  // ----- One step of each function -----
  // Each states the function's value in the exact form of its body, for the
  // case at hand, so that the proofs below never unfold two calls of the
  // same function whose arguments differ only in form.

  /** A nested header goes past the header test one level deeper. */
  lemma {:induction false} NestedHeader(line: string, s: Scan, table: Table, params: Option<Bindings>, fuel: nat)
    requires Opens(SplitWhitespace(line)) && s.level != 0
    ensures LineStep(line, s, table, params, fuel) == Close(line, SplitWhitespace(line), s.(level := s.level + 1), table, params, fuel)
  {
  }

  /** A line that is no header goes past the header test with its loop variables as they are. */
  lemma {:induction false} NotHeader(line: string, s: Scan, table: Table, params: Option<Bindings>, fuel: nat)
    requires SplitWhitespace(line) != [] && !Opens(SplitWhitespace(line))
    ensures LineStep(line, s, table, params, fuel) == Close(line, SplitWhitespace(line), s, table, params, fuel)
  {
  }

  /** A MEND that does not close the outermost definition goes past the MEND test one level up. */
  lemma {:induction false} NestedMend(line: string, tokens: seq<string>, s: Scan, table: Table, params: Option<Bindings>, fuel: nat)
    requires tokens != [] && MendLabel(tokens) == "MEND" && s.level != 1
    ensures Close(line, tokens, s, table, params, fuel) == Dispatch(line, tokens, "MEND", s.(level := s.level - 1), table, params, fuel)
  {
  }

  /** A line without MEND goes past the MEND test with its loop variables as they are. */
  lemma {:induction false} NotMend(line: string, tokens: seq<string>, s: Scan, table: Table, params: Option<Bindings>, fuel: nat)
    requires tokens != [] && MendLabel(tokens) != "MEND"
    ensures Close(line, tokens, s, table, params, fuel) == Dispatch(line, tokens, tokens[0], s, table, params, fuel)
  {
  }

  /** Inside a definition the line is appended to the body. */
  lemma {:induction false} DispatchCapture(line: string, tokens: seq<string>, head: string, s: Scan, table: Table, params: Option<Bindings>, fuel: nat)
    requires tokens != [] && s.defining.Some? && s.defining.value in table
    ensures
      var n := s.defining.value;
      Dispatch(line, tokens, head, s, table, params, fuel) ==
      Next(s, table[n := table[n].(corpo := table[n].corpo + Substituted(line, params) + "\n")])
  {
  }

  /** Outside a definition, a line naming no macro is copied. */
  lemma {:induction false} DispatchCopy(line: string, tokens: seq<string>, head: string, s: Scan, table: Table, params: Option<Bindings>, fuel: nat)
    requires tokens != [] && s.defining.None?
    requires (if head !in table && |tokens| >= 2 then tokens[1] else head) !in table
    ensures Dispatch(line, tokens, head, s, table, params, fuel) == Next(s.(out := s.out + Substituted(line, params) + "\n"), table)
  {
  }

  /** Outside a definition, a line naming a macro calls it. */
  lemma {:induction false} DispatchCall(line: string, tokens: seq<string>, head: string, s: Scan, table: Table, params: Option<Bindings>, fuel: nat,
                     name: string, argument: Option<string>)
    requires tokens != [] && s.defining.None?
    requires name == (if head !in table && |tokens| >= 2 then tokens[1] else head) && name in table
    requires argument == (if head !in table && |tokens| >= 2 then Token(tokens, 2) else Token(tokens, 1))
    ensures Dispatch(line, tokens, head, s, table, params, fuel) == Invoke(name, table[name], argument, s, table, fuel)
  {
  }

  /** A call whose arguments are not checked expands the body without bindings. */
  lemma {:induction false} InvokeUnchecked(name: string, d: Definicao, argument: Option<string>, s: Scan, table: Table, fuel: nat)
    requires d.parametros == [] || argument.None?
    ensures Invoke(name, d, argument, s, table, fuel) == Expand(d.corpo, s, table, None, fuel)
  {
  }

  /** A call with the right number of arguments expands the body under the pairs. */
  lemma {:induction false} InvokeChecked(name: string, d: Definicao, argument: string, s: Scan, table: Table, fuel: nat)
    requires d.parametros != [] && |NonEmpty(Split(argument, ','))| == |d.parametros|
    ensures Invoke(name, d, Some(argument), s, table, fuel) ==
      Expand(d.corpo, s, table, Some(Zip(d.parametros, NonEmpty(Split(argument, ',')))), fuel)
  {
  }

  /** An expansion that succeeds appends its output and keeps its table. */
  lemma {:induction false} ExpandDone(body: string, s: Scan, table: Table, params: Option<Bindings>, fuel: nat, out: string, after: Table)
    requires fuel > 0 && Run(Lines(body), Start, table, params, fuel - 1) == Done(out, after)
    ensures Expand(body, s, table, params, fuel) == Next(s.(out := s.out + out), after)
  {
  }

  /** The loop goes on from the loop variables and table a line leaves. */
  lemma {:induction false} RunNext(lines: seq<string>, s: Scan, table: Table, params: Option<Bindings>, fuel: nat, s': Scan, t': Table)
    requires lines != [] && LineStep(lines[0], s, table, params, fuel) == Next(s', t')
    ensures Run(lines, s, table, params, fuel) == Run(lines[1..], s', t', params, fuel)
  {
  }

  /** The loop ends with the output and table its last line leaves. */
  lemma {:induction false} RunLast(lines: seq<string>, s: Scan, table: Table, params: Option<Bindings>, fuel: nat, s': Scan, t': Table)
    requires |lines| == 1 && LineStep(lines[0], s, table, params, fuel) == Next(s', t')
    ensures Run(lines, s, table, params, fuel) == Done(s'.out, t')
  {
    assert lines[1..] == [];
  }

  // ----- Single lines -----

  /** A line without tokens changes nothing. */
  lemma {:induction false} NoTokens(line: string, s: Scan, table: Table, params: Option<Bindings>, fuel: nat)
    requires SplitWhitespace(line) == []
    ensures LineStep(line, s, table, params, fuel) == Next(s, table)
  {
  }

  /** A line of only whitespace changes nothing. */
  lemma {:induction false} BlankLineDropped(line: string, s: Scan, table: Table, params: Option<Bindings>, fuel: nat)
    requires forall k :: 0 <= k < |line| ==> IsWhitespace(line[k])
    ensures SplitWhitespace(line) == []
    ensures LineStep(line, s, table, params, fuel) == Next(s, table)
  {
    AllWhitespace(line);
    NoTokens(line, s, table, params, fuel);
  }

  lemma {:induction false} AllWhitespace(line: string)
    requires forall k :: 0 <= k < |line| ==> IsWhitespace(line[k])
    ensures TrimStart(line) == []
    decreases |line|
  {
    if line != [] {
      assert forall k :: 0 <= k < |line[1..]| ==> line[1..][k] == line[k + 1];
      AllWhitespace(line[1..]);
    }
  }

  /**
   * A header at level 0 opens a definition named by its first token, with
   * the `&` parameters of its third; nothing is emitted.
   */
  lemma {:induction false} HeaderOpens(line: string, s: Scan, table: Table, params: Option<Bindings>, fuel: nat)
    requires Opens(SplitWhitespace(line)) && s.level == 0
    ensures
      var t := SplitWhitespace(line);
      LineStep(line, s, table, params, fuel) ==
      Next(Scan(1, Some(t[0]), s.out), table[t[0] := Definicao("", DeclaredParams(Token(t, 2)))])
  {
  }

  // Inside a definition every non-blank line other than the closing MEND,
  // nested headers and MENDs included, is appended to the body and the
  // output is untouched; the level follows the nested MACROs and MENDs.

  /** A line inside a definition that neither opens nor closes one is appended to the body. */
  lemma {:induction false} InertCaptured(line: string, s: Scan, table: Table, params: Option<Bindings>, fuel: nat)
    requires s.defining.Some? && s.defining.value in table
    requires SplitWhitespace(line) != [] && Inert(line)
    ensures
      var n := s.defining.value;
      LineStep(line, s, table, params, fuel) ==
      Next(s, table[n := table[n].(corpo := table[n].corpo + Substituted(line, params) + "\n")])
  {
    var t := SplitWhitespace(line);
    NotHeader(line, s, table, params, fuel);
    NotMend(line, t, s, table, params, fuel);
    DispatchCapture(line, t, t[0], s, table, params, fuel);
  }

  /** A nested header inside a definition is appended to the body and raises the level. */
  lemma {:induction false} HeaderCaptured(line: string, s: Scan, table: Table, params: Option<Bindings>, fuel: nat)
    requires s.defining.Some? && s.defining.value in table && s.level >= 1
    requires Opens(SplitWhitespace(line)) && SplitWhitespace(line)[0] != "MEND"
    ensures
      var n := s.defining.value;
      LineStep(line, s, table, params, fuel) ==
      Next(s.(level := s.level + 1), table[n := table[n].(corpo := table[n].corpo + Substituted(line, params) + "\n")])
  {
    var t := SplitWhitespace(line);
    NestedHeader(line, s, table, params, fuel);
    NotMend(line, t, s.(level := s.level + 1), table, params, fuel);
    DispatchCapture(line, t, t[0], s.(level := s.level + 1), table, params, fuel);
  }

  /** A nested MEND inside a definition is appended to the body and lowers the level. */
  lemma {:induction false} MendCaptured(line: string, s: Scan, table: Table, params: Option<Bindings>, fuel: nat)
    requires s.defining.Some? && s.defining.value in table && s.level > 1
    requires Closes(line)
    ensures
      var n := s.defining.value;
      LineStep(line, s, table, params, fuel) ==
      Next(s.(level := s.level - 1), table[n := table[n].(corpo := table[n].corpo + Substituted(line, params) + "\n")])
  {
    var t := SplitWhitespace(line);
    NotHeader(line, s, table, params, fuel);
    NestedMend(line, t, s, table, params, fuel);
    DispatchCapture(line, t, "MEND", s.(level := s.level - 1), table, params, fuel);
  }

  /** A header whose label is MEND counts as both: inside a definition it is appended and the level stays. */
  lemma {:induction false} MendHeaderCaptured(line: string, s: Scan, table: Table, params: Option<Bindings>, fuel: nat)
    requires s.defining.Some? && s.defining.value in table && s.level >= 1
    requires Opens(SplitWhitespace(line)) && SplitWhitespace(line)[0] == "MEND"
    ensures
      var n := s.defining.value;
      LineStep(line, s, table, params, fuel) ==
      Next(s, table[n := table[n].(corpo := table[n].corpo + Substituted(line, params) + "\n")])
  {
    var t := SplitWhitespace(line);
    NestedHeader(line, s, table, params, fuel);
    NestedMend(line, t, s.(level := s.level + 1), table, params, fuel);
    assert s.(level := s.level + 1).(level := s.level + 1 - 1) == s;
    DispatchCapture(line, t, "MEND", s, table, params, fuel);
  }

  /** At level 1, MEND ends the definition; it changes neither the table nor the output. */
  lemma {:induction false} MendCloses(line: string, s: Scan, table: Table, params: Option<Bindings>, fuel: nat)
    requires Closes(line) && s.level == 1
    ensures LineStep(line, s, table, params, fuel) == Next(Scan(0, None, s.out), table)
  {
    NotHeader(line, s, table, params, fuel);
  }

  /** A MEND outside any definition drives the level to -1 and is copied to the output. */
  lemma {:induction false} UnmatchedMend(line: string, s: Scan, table: Table, params: Option<Bindings>, fuel: nat)
    requires Closes(line) && s.level == 0 && s.defining.None?
    requires "MEND" !in table
    requires |SplitWhitespace(line)| >= 2 ==> SplitWhitespace(line)[1] !in table
    ensures LineStep(line, s, table, params, fuel) == Next(Scan(-1, None, s.out + Substituted(line, params) + "\n"), table)
  {
    var t := SplitWhitespace(line);
    NotHeader(line, s, table, params, fuel);
    NestedMend(line, t, s, table, params, fuel);
    DispatchCopy(line, t, "MEND", s.(level := -1), table, params, fuel);
  }

  /** Outside a definition, a line that names no macro is copied, substituted, with a newline. */
  lemma {:induction false} PlainLineCopied(line: string, s: Scan, table: Table, params: Option<Bindings>, fuel: nat)
    requires Plain(line, table.Keys) && SplitWhitespace(line) != [] && s.defining.None?
    ensures LineStep(line, s, table, params, fuel) == Next(s.(out := s.out + Substituted(line, params) + "\n"), table)
  {
    var t := SplitWhitespace(line);
    NotHeader(line, s, table, params, fuel);
    NotMend(line, t, s, table, params, fuel);
    DispatchCopy(line, t, t[0], s, table, params, fuel);
  }

  // ----- Calls -----

  /**
   * A call line of the macro `name`: its first token, or its second after a
   * first token that is no macro; the argument token is the one after the name.
   */
  predicate Calls(line: string, table: Table, name: string, argument: Option<string>) {
    var t := SplitWhitespace(line);
    && t != [] && !Opens(t) && MendLabel(t) != "MEND"
    && name in table
    && ((t[0] == name && argument == Token(t, 1))
        || (t[0] !in table && |t| >= 2 && t[1] == name && argument == Token(t, 2)))
  }

  /** A line that is just the name of a macro (not MEND) calls it without an argument token. */
  lemma {:induction false} LoneCall(line: string, table: Table, name: string)
    requires SplitWhitespace(line) == [name] && name != "MEND" && name in table
    ensures Calls(line, table, name, None)
  {
    var t := SplitWhitespace(line);
    assert |t| == 1 && t[0] == name;
    assert MendLabel(t) == name;
    assert Token(t, 1) == None;
  }

  /** A call line outside a definition reaches `Invoke` with its name and argument token. */
  lemma {:induction false} CallReachesInvoke(line: string, s: Scan, table: Table, params: Option<Bindings>, fuel: nat,
                          name: string, argument: Option<string>)
    requires Calls(line, table, name, argument) && s.defining.None?
    ensures LineStep(line, s, table, params, fuel) == Invoke(name, table[name], argument, s, table, fuel)
  {
    var t := SplitWhitespace(line);
    NotHeader(line, s, table, params, fuel);
    NotMend(line, t, s, table, params, fuel);
    DispatchCall(line, t, t[0], s, table, params, fuel, name, argument);
  }

  /**
   * A call of a macro without parameters, or without an argument token,
   * emits exactly the expansion of the body without bindings: a label before
   * the name is dropped and the arguments are not checked.
   */
  lemma {:induction false} CallExpands(line: string, s: Scan, table: Table, params: Option<Bindings>, fuel: nat,
                    name: string, argument: Option<string>, expanded: string, after: Table)
    requires Calls(line, table, name, argument) && s.defining.None?
    requires table[name].parametros == [] || argument.None?
    requires fuel > 0 && Run(Lines(table[name].corpo), Start, table, None, fuel - 1) == Done(expanded, after)
    ensures LineStep(line, s, table, params, fuel) == Next(s.(out := s.out + expanded), after)
  {
    CallReachesInvoke(line, s, table, params, fuel, name, argument);
    InvokeUnchecked(name, table[name], argument, s, table, fuel);
    ExpandDone(table[name].corpo, s, table, None, fuel, expanded, after);
  }

  /** A call with as many arguments as parameters emits the body expanded under the (parameter, argument) pairs. */
  lemma {:induction false} CallWithArguments(line: string, s: Scan, table: Table, params: Option<Bindings>, fuel: nat,
                          name: string, argument: string, expanded: string, after: Table)
    requires Calls(line, table, name, Some(argument)) && s.defining.None?
    requires table[name].parametros != []
    requires |NonEmpty(Split(argument, ','))| == |table[name].parametros|
    requires fuel > 0
    requires
      var pairs := Zip(table[name].parametros, NonEmpty(Split(argument, ',')));
      Run(Lines(table[name].corpo), Start, table, Some(pairs), fuel - 1) == Done(expanded, after)
    ensures LineStep(line, s, table, params, fuel) == Next(s.(out := s.out + expanded), after)
  {
    var pairs := Zip(table[name].parametros, NonEmpty(Split(argument, ',')));
    CallReachesInvoke(line, s, table, params, fuel, name, Some(argument));
    InvokeChecked(name, table[name], argument, s, table, fuel);
    ExpandDone(table[name].corpo, s, table, Some(pairs), fuel, expanded, after);
  }

  /** A call of a macro with parameters whose argument token has a different number of parts is an error. */
  lemma {:induction false} ArgumentCountMismatch(line: string, s: Scan, table: Table, params: Option<Bindings>, fuel: nat,
                              name: string, argument: string)
    requires Calls(line, table, name, Some(argument)) && s.defining.None?
    requires table[name].parametros != []
    requires |NonEmpty(Split(argument, ','))| != |table[name].parametros|
    ensures LineStep(line, s, table, params, fuel) ==
      Stop(WrongArgumentCount(name, |table[name].parametros|, |NonEmpty(Split(argument, ','))|))
  {
    CallReachesInvoke(line, s, table, params, fuel, name, Some(argument));
  }

  /** Without fuel a call that passes the count check is reported instead of expanded. */
  lemma {:induction false} CallWithoutFuel(line: string, s: Scan, table: Table, params: Option<Bindings>, name: string, argument: Option<string>)
    requires Calls(line, table, name, argument) && s.defining.None?
    requires table[name].parametros == [] || argument.None?
    ensures LineStep(line, s, table, params, 0) == Stop(DepthExceeded)
  {
    CallReachesInvoke(line, s, table, params, 0, name, argument);
    InvokeUnchecked(name, table[name], argument, s, table, 0);
  }

  // ----- Blocks of lines -----

  /** The lines inside a definition that neither open nor close one are appended to its body. */
  lemma {:induction false} BodyCaptured(body: seq<string>, rest: seq<string>, name: string, out: string,
                                         table: Table, params: Option<Bindings>, fuel: nat)
    requires name in table
    requires AllInert(body)
    ensures Run(body + rest, Scan(1, Some(name), out), table, params, fuel) ==
      Run(rest, Scan(1, Some(name), out), table[name := table[name].(corpo := table[name].corpo + Copied(body, params))], params, fuel)
    decreases |body|
  {
    if body == [] {
      assert body + rest == rest;
      assert table[name].corpo + "" == table[name].corpo;
      assert table[name := table[name].(corpo := table[name].corpo + "")] == table;
    } else if SplitWhitespace(body[0]) == [] {
      assert (body + rest)[0] == body[0] && (body + rest)[1..] == body[1..] + rest;
      BlankHead(body + rest, Scan(1, Some(name), out), table, params, fuel);
      BodyCaptured(body[1..], rest, name, out, table, params, fuel);
      BlankCopied(body, params);
    } else {
      var d := table[name];
      var piece := Substituted(body[0], params) + "\n";
      var next := table[name := d.(corpo := d.corpo + piece)];
      assert (body + rest)[0] == body[0] && (body + rest)[1..] == body[1..] + rest;
      InertHead(body + rest, name, out, table, params, fuel);
      BodyCaptured(body[1..], rest, name, out, next, params, fuel);
      LineCopied(body, params);
      Associative(d.corpo, piece, Copied(body[1..], params));
      Overwrite(table, name, d, d.corpo + piece, Copied(body[1..], params));
    }
  }

  /** A blank first line is dropped. */
  lemma {:induction false} BlankHead(lines: seq<string>, s: Scan, table: Table, params: Option<Bindings>, fuel: nat)
    requires lines != [] && SplitWhitespace(lines[0]) == []
    ensures Run(lines, s, table, params, fuel) == Run(lines[1..], s, table, params, fuel)
  {
    NoTokens(lines[0], s, table, params, fuel);
    RunNext(lines, s, table, params, fuel, s, table);
  }

  /** A non-blank inert first line inside a definition is appended to its body. */
  lemma {:induction false} InertHead(lines: seq<string>, name: string, out: string,
                                      table: Table, params: Option<Bindings>, fuel: nat)
    requires name in table && lines != [] && SplitWhitespace(lines[0]) != [] && Inert(lines[0])
    ensures
      var d := table[name];
      Run(lines, Scan(1, Some(name), out), table, params, fuel) ==
      Run(lines[1..], Scan(1, Some(name), out), table[name := d.(corpo := d.corpo + (Substituted(lines[0], params) + "\n"))], params, fuel)
  {
    var s := Scan(1, Some(name), out);
    var d := table[name];
    var next := table[name := d.(corpo := d.corpo + (Substituted(lines[0], params) + "\n"))];
    InertCaptured(lines[0], s, table, params, fuel);
    Associative(d.corpo, Substituted(lines[0], params), "\n");
    RunNext(lines, s, table, params, fuel, s, next);
  }

  /**
   * A definition at level 0 from its header to its MEND emits nothing and
   * records, under the header's first token, the body's non-blank lines
   * and the header's parameters.
   */
  lemma {:induction false} DefinitionRecorded(header: string, body: seq<string>, mend: string, rest: seq<string>,
                           s: Scan, table: Table, params: Option<Bindings>, fuel: nat)
    requires s.level == 0 && Opens(SplitWhitespace(header))
    requires AllInert(body)
    requires Closes(mend)
    ensures
      var t := SplitWhitespace(header);
      Run([header] + body + [mend] + rest, s, table, params, fuel) ==
      Run(rest, Scan(0, None, s.out), table[t[0] := Definicao(Copied(body, params), DeclaredParams(Token(t, 2)))], params, fuel)
  {
    var t := SplitWhitespace(header);
    var name := t[0];
    var params' := DeclaredParams(Token(t, 2));
    var all := [header] + body + [mend] + rest;
    Framed(header, body, mend, rest);
    HeaderHead(all, s, table, params, fuel);
    BodyThenMend(body, mend, rest, name, s.out, table[name := Definicao("", params')], params, fuel);
    Filled(table, name, params', Copied(body, params));
  }

  /** The header of a framed block comes first, and the body, the MEND and the rest after it. */
  lemma {:induction false} Framed(header: string, body: seq<string>, mend: string, rest: seq<string>)
    ensures
      var all := [header] + body + [mend] + rest;
      all[0] == header && all[1..] == body + ([mend] + rest)
  {
    var all := [header] + body + [mend] + rest;
    assert all[1..] == body + ([mend] + rest);
  }

  /** The body and the MEND of an open definition fill in its body and close it. */
  lemma {:induction false} BodyThenMend(body: seq<string>, mend: string, rest: seq<string>, name: string, out: string,
                                         table: Table, params: Option<Bindings>, fuel: nat)
    requires name in table && AllInert(body) && Closes(mend)
    ensures Run(body + ([mend] + rest), Scan(1, Some(name), out), table, params, fuel) ==
      Run(rest, Scan(0, None, out), table[name := table[name].(corpo := table[name].corpo + Copied(body, params))], params, fuel)
  {
    BodyCaptured(body, [mend] + rest, name, out, table, params, fuel);
    assert ([mend] + rest)[0] == mend && ([mend] + rest)[1..] == rest;
    MendHead([mend] + rest, name, out, table[name := table[name].(corpo := table[name].corpo + Copied(body, params))], params, fuel);
  }

  /** A header at level 0 at the head of the lines opens its definition. */
  lemma {:induction false} HeaderHead(lines: seq<string>, s: Scan, table: Table, params: Option<Bindings>, fuel: nat)
    requires lines != [] && s.level == 0 && Opens(SplitWhitespace(lines[0]))
    ensures
      var t := SplitWhitespace(lines[0]);
      Run(lines, s, table, params, fuel) ==
      Run(lines[1..], Scan(1, Some(t[0]), s.out), table[t[0] := Definicao("", DeclaredParams(Token(t, 2)))], params, fuel)
  {
    var t := SplitWhitespace(lines[0]);
    HeaderOpens(lines[0], s, table, params, fuel);
    RunNext(lines, s, table, params, fuel, Scan(1, Some(t[0]), s.out), table[t[0] := Definicao("", DeclaredParams(Token(t, 2)))]);
  }

  /** A MEND at the head of the lines closes the outermost definition. */
  lemma {:induction false} MendHead(lines: seq<string>, name: string, out: string, table: Table, params: Option<Bindings>, fuel: nat)
    requires lines != [] && Closes(lines[0])
    ensures Run(lines, Scan(1, Some(name), out), table, params, fuel) == Run(lines[1..], Scan(0, None, out), table, params, fuel)
  {
    MendCloses(lines[0], Scan(1, Some(name), out), table, params, fuel);
    RunNext(lines, Scan(1, Some(name), out), table, params, fuel, Scan(0, None, out), table);
  }

  /** Filling an empty body is recording the definition with that body. */
  lemma {:induction false} Filled(table: Table, name: string, params: seq<string>, body: string)
    ensures
      var started := table[name := Definicao("", params)];
      started[name := started[name].(corpo := started[name].corpo + body)] == table[name := Definicao(body, params)]
  {
    assert "" + body == body;
  }

  /** Outside a definition, lines that name no macro are copied in order, and the table is kept. */
  lemma {:induction false} PlainPassesThrough(lines: seq<string>, s: Scan, table: Table, params: Option<Bindings>, fuel: nat)
    requires s.defining.None?
    requires AllPlain(lines, table.Keys)
    ensures Run(lines, s, table, params, fuel) == Done(s.out + Copied(lines, params), table)
    decreases |lines|
  {
    if lines != [] {
      var line := lines[0];
      if SplitWhitespace(line) != [] {
        var s' := s.(out := s.out + Substituted(line, params) + "\n");
        PlainLineCopied(line, s, table, params, fuel);
        RunNext(lines, s, table, params, fuel, s', table);
        PlainPassesThrough(lines[1..], s', table, params, fuel);
        LineCopied(lines, params);
        Associative(s.out, Substituted(line, params), "\n");
        Associative(s.out, Substituted(line, params) + "\n", Copied(lines[1..], params));
      } else {
        NoTokens(line, s, table, params, fuel);
        RunNext(lines, s, table, params, fuel, s, table);
        PlainPassesThrough(lines[1..], s, table, params, fuel);
        BlankCopied(lines, params);
      }
    } else {
      assert s.out + "" == s.out;
    }
  }

  /** Non-blank lines copied without bindings are the lines themselves, each with a newline. */
  lemma {:induction false} CopiedVerbatimLines(lines: seq<string>)
    requires NoneBlank(lines)
    ensures Copied(lines, None) == Unlines(lines)
    decreases |lines|
  {
    if lines != [] {
      CopiedVerbatimLines(lines[1..]);
    }
  }

  /** `str::lines` undoes `Unlines` for lines with no newline and no trailing carriage return. */
  lemma {:induction false} LinesOfUnlines(lines: seq<string>)
    requires Unbroken(lines)
    ensures Lines(Unlines(lines)) == lines
    decreases |lines|
  {
    if lines != [] {
      LineThenRest(lines[0], Unlines(lines[1..]));
      LinesOfUnlines(lines[1..]);
      assert [lines[0]] + lines[1..] == lines;
    }
  }

  /** A line without newline or trailing carriage return, then a newline, comes back as the first line. */
  lemma {:induction false} LineThenRest(l: string, rest: string)
    requires '\n' !in l && (l == [] || l[|l| - 1] != '\r')
    ensures Lines(l + "\n" + rest) == [l] + Lines(rest)
  {
    var text := l + "\n" + rest;
    assert text[|l|] == '\n';
    assert forall i :: 0 <= i < |l| ==> text[i] == l[i];
    assert IndexOf(text, '\n') == |l|;
    assert text[..|l|] == l;
    assert text[|l| + 1..] == rest;
  }

  /** No line is blank. */
  predicate NoneBlank(lines: seq<string>) {
    lines == [] || (SplitWhitespace(lines[0]) != [] && NoneBlank(lines[1..]))
  }

  /** No line holds a newline or ends with a carriage return, so that `str::lines` gives it back. */
  predicate Unbroken(lines: seq<string>) {
    lines == [] || ('\n' !in lines[0] && (lines[0] == [] || lines[0][|lines[0]| - 1] != '\r') && Unbroken(lines[1..]))
  }

  /** Plain lines are inert. */
  lemma {:induction false} PlainInert(lines: seq<string>, names: set<string>)
    requires AllPlain(lines, names)
    ensures AllInert(lines)
    decreases |lines|
  {
    if lines != [] {
      PlainInert(lines[1..], names);
    }
  }

  /**
   * A macro without parameters defined at the top of the input and then
   * called on its own line expands to its body, line for line; the header,
   * the MEND and the call line leave nothing behind.
   */
  lemma {:induction false} DefineThenCall(name: string, header: string, body: seq<string>, mend: string, call: string, fuel: nat)
    requires SplitWhitespace(header) == [name, "MACRO"] && SplitWhitespace(call) == [name] && name != "MEND"
    requires Closes(mend)
    requires AllPlain(body, {name}) && NoneBlank(body) && Unbroken(body)
    requires fuel > 0
    ensures Run([header] + body + [mend] + [call], Start, map[], None, fuel) ==
      Done(Unlines(body), map[name := Definicao(Unlines(body), [])])
  {
    DefinitionWithoutParameters(name, header, body, mend, [call], fuel);
    LoneCall(call, map[name := Definicao(Unlines(body), [])], name);
    BodyCalled(name, body, call, fuel);
  }

  /** Once the body is recorded, the call line emits it. */
  lemma {:induction false} BodyCalled(name: string, body: seq<string>, call: string, fuel: nat)
    requires Calls(call, map[name := Definicao(Unlines(body), [])], name, None)
    requires AllPlain(body, {name}) && NoneBlank(body) && Unbroken(body)
    requires fuel > 0
    ensures
      var table := map[name := Definicao(Unlines(body), [])];
      Run([call], Scan(0, None, ""), table, None, fuel) == Done(Unlines(body), table)
  {
    var table: Table := map[name := Definicao(Unlines(body), [])];
    BodyOutput(name, body, fuel - 1);
    CallOfDefinition(name, Unlines(body), call, fuel);
  }

  /** A definition without parameters at the top of the input records its body's lines and emits nothing. */
  lemma {:induction false} DefinitionWithoutParameters(name: string, header: string, body: seq<string>, mend: string,
                                                        rest: seq<string>, fuel: nat)
    requires SplitWhitespace(header) == [name, "MACRO"]
    requires Closes(mend)
    requires AllPlain(body, {name}) && NoneBlank(body)
    ensures Run([header] + body + [mend] + rest, Start, map[], None, fuel) ==
      Run(rest, Scan(0, None, ""), map[name := Definicao(Unlines(body), [])], None, fuel)
  {
    var t := SplitWhitespace(header);
    assert Token(t, 2) == None;
    PlainInert(body, {name});
    DefinitionRecorded(header, body, mend, rest, Start, map[], None, fuel);
    CopiedVerbatimLines(body);
  }

  /** The call line after the definition emits the expansion of the body it recorded. */
  lemma {:induction false} CallOfDefinition(name: string, corpo: string, call: string, fuel: nat)
    requires Calls(call, map[name := Definicao(corpo, [])], name, None)
    requires fuel > 0
    requires
      var table := map[name := Definicao(corpo, [])];
      Run(Lines(corpo), Start, table, None, fuel - 1) == Done(corpo, table)
    ensures
      var table := map[name := Definicao(corpo, [])];
      Run([call], Scan(0, None, ""), table, None, fuel) == Done(corpo, table)
  {
    var table: Table := map[name := Definicao(corpo, [])];
    CallExpands(call, Scan(0, None, ""), table, None, fuel, name, None, corpo, table);
    EmptyPrefix(corpo);
    RunLast([call], Scan(0, None, ""), table, None, fuel, Scan(0, None, corpo), table);
  }

  /** Expanding the recorded body gives the body back, and keeps the table. */
  lemma {:induction false} BodyOutput(name: string, body: seq<string>, fuel: nat)
    requires AllPlain(body, {name}) && NoneBlank(body) && Unbroken(body)
    ensures
      var table := map[name := Definicao(Unlines(body), [])];
      Run(Lines(table[name].corpo), Start, table, None, fuel) == Done(Unlines(body), table)
  {
    var table: Table := map[name := Definicao(Unlines(body), [])];
    assert table.Keys == {name};
    LinesOfUnlines(body);
    PlainPassesThrough(body, Start, table, None, fuel);
    CopiedVerbatimLines(body);
    EmptyPrefix(Unlines(body));
  }
}
