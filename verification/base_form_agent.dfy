/** The generic form-filling engine (`FormBasedAgent`). A form type supplies
    a table of hooks (field list, field labels, how to reach and replace its
    target state in a session, how to read the model output and how to merge
    an update); the engine owns construction, the progress digest, the prompt
    context and the `process` pipeline. The structured model call is a
    function parameter. */
module FormAgent {
  import opened Wrappers
  import opened Text
  import opened Dicts
  import opened GameState
  import opened Templates
  import opened Chains

  /** The digest of a state whose dump is empty. */
  const NoDataSentinel: string := "暂无数据"
  /** The element that introduces the extension entries in a digest. */
  const ExtensionHeading: string := "\n动态设定:"

  /** A state's fixed fields as its dump lists them: name and value, in
      declaration order. */
  type Fields = seq<(string, Option<string>)>

  /** `model_dump(exclude_defaults=True, exclude_none=True)` is empty: every
      fixed field is `None` and the extension map is `{}`. A field holding
      `""` is kept by the dump. */
  predicate DumpEmpty(fields: Fields, ext: Dict<string, string>) {
    AllAbsent(fields) && |ext| == 0
  }

  /** `field_map.get(key, key)`. */
  function Label(labels: Dict<string, string>, key: string): string {
    Get(labels, key).GetOr(key)
  }

  function FieldLine(labels: Dict<string, string>, key: string, value: string): string {
    Label(labels, key) + ": " + value
  }

  /** One line per truthy fixed field, in declaration order. */
  function FixedLines(fields: Fields, labels: Dict<string, string>): (lines: seq<string>)
    ensures |lines| <= |fields|
    decreases |fields|
  {
    if |fields| == 0 then []
    else
      (if Truthy(fields[0].1) then [FieldLine(labels, fields[0].0, fields[0].1.value)] else [])
      + FixedLines(fields[1..], labels)
  }

  /** One `key: value` line per extension entry, in insertion order. */
  function ExtensionLines(ext: seq<(string, string)>): (lines: seq<string>)
    ensures |lines| == |ext|
    ensures forall i :: 0 <= i < |ext| ==> lines[i] == ext[i].0 + ": " + ext[i].1
    decreases |ext|
  {
    if |ext| == 0 then [] else [ext[0].0 + ": " + ext[0].1] + ExtensionLines(ext[1..])
  }

  function ExtensionSection(ext: Dict<string, string>): seq<string> {
    if |ext| == 0 then [] else [ExtensionHeading] + ExtensionLines(ext)
  }

  function DigestLines(fields: Fields, ext: Dict<string, string>, labels: Dict<string, string>): seq<string> {
    FixedLines(fields, labels) + ExtensionSection(ext)
  }

  /** `_format_current_data`. */
  function FormatCurrentData(fields: Fields, ext: Dict<string, string>, labels: Dict<string, string>): (r: string)
    ensures r == NoDataSentinel <==> DumpEmpty(fields, ext)
    ensures !DumpEmpty(fields, ext) ==> r == Join(DigestLines(fields, ext, labels), "\n")
  {
    if DumpEmpty(fields, ext) then NoDataSentinel
    else
      var lines := DigestLines(fields, ext, labels);
      DigestLinesHaveColon(fields, ext, labels);
      SentinelHasNoColon();
      JoinAvoidsSentinel(lines, NoDataSentinel);
      Join(lines, "\n")
  }

  /** Lines that all carry a colon never join into a colon-free sentinel,
      so no digest of a non-empty dump can be mistaken for it. */
  lemma JoinAvoidsSentinel(lines: seq<string>, sentinel: string)
    requires forall i :: 0 <= i < |lines| ==> ':' in lines[i]
    requires ':' !in sentinel && sentinel != ""
    ensures Join(lines, "\n") != sentinel
  {
    if |lines| > 0 {
      JoinHasChar(lines, "\n", 0, ':');
    }
  }

  lemma SentinelHasNoColon()
    ensures ':' !in NoDataSentinel
  {
    var s := NoDataSentinel;
    assert s[0] != ':' && s[1] != ':' && s[2] != ':' && s[3] != ':' && |s| == 4;
  }

  lemma {:induction false} FixedLinesHaveSpaceAndColon(fields: Fields, labels: Dict<string, string>)
    ensures forall i :: 0 <= i < |FixedLines(fields, labels)| ==>
      ':' in FixedLines(fields, labels)[i] && ' ' in FixedLines(fields, labels)[i]
    decreases |fields|
  {
    if |fields| > 0 {
      FixedLinesHaveSpaceAndColon(fields[1..], labels);
      if Truthy(fields[0].1) {
        var l := FieldLine(labels, fields[0].0, fields[0].1.value);
        assert l[|Label(labels, fields[0].0)|] == ':';
        assert l[|Label(labels, fields[0].0)| + 1] == ' ';
      }
    }
  }

  lemma DigestLinesHaveColon(fields: Fields, ext: Dict<string, string>, labels: Dict<string, string>)
    ensures forall i :: 0 <= i < |DigestLines(fields, ext, labels)| ==> ':' in DigestLines(fields, ext, labels)[i]
  {
    FixedLinesHaveSpaceAndColon(fields, labels);
    var fixed := FixedLines(fields, labels);
    var lines := DigestLines(fields, ext, labels);
    forall i | 0 <= i < |lines| ensures ':' in lines[i] {
      if i < |fixed| {
        assert lines[i] == fixed[i];
      } else if |ext| > 0 {
        var j := i - |fixed|;
        if j == 0 {
          assert ExtensionHeading[5] == ':';
        } else {
          var e := ext[j - 1];
          assert lines[i] == e.0 + ": " + e.1;
          assert (e.0 + ": " + e.1)[|e.0|] == ':';
        }
      }
    }
  }

  /** The digest lists truthy fields in declaration order: the lines of a
      concatenation are the concatenated lines. */
  lemma {:induction false} FixedLinesAppend(a: Fields, b: Fields, labels: Dict<string, string>)
    ensures FixedLines(a + b, labels) == FixedLines(a, labels) + FixedLines(b, labels)
    decreases |a|
  {
    if |a| == 0 {
      assert a + b == b;
    } else {
      assert (a + b)[1..] == a[1..] + b;
      FixedLinesAppend(a[1..], b, labels);
    }
  }

  /** A single field contributes `label: value` when truthy, nothing otherwise. */
  lemma FixedLinesOfOne(key: string, value: Option<string>, labels: Dict<string, string>)
    ensures Truthy(value) ==> FixedLines([(key, value)], labels) == [Label(labels, key) + ": " + value.value]
    ensures !Truthy(value) ==> FixedLines([(key, value)], labels) == []
  {
    assert [(key, value)][1..] == [];
  }

  /** With no fixed field set and a non-empty extension map, the digest is
      the heading followed by the extension lines: no fixed-field line. */
  lemma DigestOfExtensionOnly(fields: Fields, ext: Dict<string, string>, labels: Dict<string, string>)
    requires AllAbsent(fields) && |ext| > 0
    ensures FormatCurrentData(fields, ext, labels) == Join([ExtensionHeading] + ExtensionLines(ext), "\n")
    ensures ExtensionHeading <= FormatCurrentData(fields, ext, labels)
  {
    NoFixedLinesWhenFalsy(fields, labels);
    assert DigestLines(fields, ext, labels) == [ExtensionHeading] + ExtensionLines(ext);
    JoinStartsWithFirst([ExtensionHeading] + ExtensionLines(ext), "\n");
  }

  lemma {:induction false} NoFixedLinesWhenFalsy(fields: Fields, labels: Dict<string, string>)
    requires forall i :: 0 <= i < |fields| ==> !Truthy(fields[i].1)
    ensures FixedLines(fields, labels) == []
    decreases |fields|
  {
    if |fields| > 0 {
      NoFixedLinesWhenFalsy(fields[1..], labels);
    }
  }

  /** A state whose fields are set but all empty, with no extension data,
      digests to the empty string, not to the sentinel. */
  lemma DigestOfEmptyStrings(fields: Fields, labels: Dict<string, string>)
    requires forall i :: 0 <= i < |fields| ==> fields[i].1 == Some("")
    requires |fields| > 0
    ensures FormatCurrentData(fields, Empty(), labels) == ""
  {
    NoFixedLinesWhenFalsy(fields, labels);
    assert !AllAbsent(fields) by { assert fields[0].1.Some?; }
  }

  /** The extension heading is present exactly when the extension map is
      non-empty. */
  lemma HeadingIffExtension(fields: Fields, ext: Dict<string, string>, labels: Dict<string, string>)
    ensures ExtensionHeading in DigestLines(fields, ext, labels) <==> |ext| > 0
  {
    FixedLinesHaveSpaceAndColon(fields, labels);
    assert ' ' !in ExtensionHeading by {
      var h := ExtensionHeading;
      assert |h| == 6 && h[0] != ' ' && h[1] != ' ' && h[2] != ' ' && h[3] != ' ' && h[4] != ' ' && h[5] != ' ';
    }
    var fixed := FixedLines(fields, labels);
    assert ExtensionHeading !in fixed by {
      forall i | 0 <= i < |fixed| ensures fixed[i] != ExtensionHeading {
        assert ' ' in fixed[i];
      }
    }
    if |ext| > 0 {
      assert DigestLines(fields, ext, labels)[|fixed|] == ExtensionHeading;
    } else {
      assert DigestLines(fields, ext, labels) == fixed;
    }
  }

  // ---------------------------------------------------------------------
  // Prompt context

  /** `get_prompt_context` of the base agent. */
  function BasePromptContext(formFields: seq<string>, currentData: string, userInput: string): (ctx: Context)
    ensures Keys(ctx) == ["form_fields", "current_data", "input"]
    ensures Get(ctx, "form_fields") == Some(Join(formFields, ", "))
    ensures Get(ctx, "current_data") == Some(currentData)
    ensures Get(ctx, "input") == Some(userInput)
  {
    [("form_fields", Join(formFields, ", ")), ("current_data", currentData), ("input", userInput)]
  }

  // ---------------------------------------------------------------------
  // Hook table, construction and the process pipeline

  /** What a form type supplies: `S` is its state, `U` the update the model
      returns, `O` the whole structured model output. */
  datatype FormHooks<!S, !U, !O> = FormHooks(
    agentName: string,
    templateName: string,
    formFields: seq<string>,
    fieldMap: Dict<string, string>,
    targetOf: GameSession -> S,
    withTarget: (GameSession, S) -> GameSession,
    fieldsOf: S -> Fields,
    extensionOf: S -> Dict<string, string>,
    promptContext: (GameSession, string, string) -> Context,
    updateOf: O -> U,
    responseOf: O -> string,
    completionOf: O -> bool,
    merge: (S, U) -> S)

  /** `PromptTemplate.from_template(t) | llm.with_structured_output(...)`,
      named after the agent. */
  datatype StructuredChain = StructuredChain(template: string, llm: Llm, runName: string)

  datatype FormError =
    | MissingLlm
    | TemplateUnavailable(templateName: string)
    | MissingSession
    | ChainNotInitialized(agentName: string)
    | ProcessingFailed(detail: string)

  datatype FormAgent<!S, !U, !O> = FormAgent(hooks: FormHooks<S, U, O>, llm: Option<Llm>, chain: Option<StructuredChain>)

  /** `_setup_chain`: a missing model or a missing/empty `zh` template is a
      construction error. */
  function SetupChain<S, U, O>(hooks: FormHooks<S, U, O>, pm: PromptManager, llm: Option<Llm>): (r: Result<StructuredChain, FormError>)
    ensures llm.None? ==> r == Failure(MissingLlm)
    ensures llm.Some? && !Truthy(GetTemplate(pm, hooks.templateName, DefaultLanguage))
            ==> r == Failure(TemplateUnavailable(hooks.templateName))
    ensures r.Success? <==> llm.Some? && Truthy(GetTemplate(pm, hooks.templateName, DefaultLanguage))
    ensures r.Success? ==> r.value.template == GetTemplate(pm, hooks.templateName, DefaultLanguage).value
                           && r.value.llm == llm.value && r.value.runName == hooks.agentName
  {
    if llm.None? then Failure(MissingLlm)
    else
      var t := GetTemplate(pm, hooks.templateName, DefaultLanguage);
      if !Truthy(t) then Failure(TemplateUnavailable(hooks.templateName))
      else Success(StructuredChain(t.value, llm.value, hooks.agentName))
  }

  /** The constructor: an agent exists only with a model and a non-empty
      `zh` template, and it then always holds a chain over that template. */
  function NewFormAgent<S, U, O>(hooks: FormHooks<S, U, O>, pm: PromptManager, llm: Option<Llm>): (r: Result<FormAgent<S, U, O>, FormError>)
    ensures r.Success? <==> llm.Some? && Truthy(GetTemplate(pm, hooks.templateName, DefaultLanguage))
    ensures r.Failure? ==> r.error == if llm.None? then MissingLlm else TemplateUnavailable(hooks.templateName)
    ensures r.Success? ==>
      && r.value.hooks == hooks && r.value.llm == llm && r.value.chain.Some?
      && r.value.chain.value.template == GetTemplate(pm, hooks.templateName, DefaultLanguage).value
      && r.value.chain.value.llm == llm.value
      && r.value.chain.value.runName == hooks.agentName
  {
    var chain :- SetupChain(hooks, pm, llm);
    Success(FormAgent(hooks, llm, Some(chain)))
  }

  /** The digest of the session's target state. */
  function CurrentData<S, U, O>(hooks: FormHooks<S, U, O>, s: GameSession): string {
    var target := hooks.targetOf(s);
    FormatCurrentData(hooks.fieldsOf(target), hooks.extensionOf(target), hooks.fieldMap)
  }

  /** The context the model receives; a missing `user_input` reads as `""`. */
  function PromptFor<S, U, O>(hooks: FormHooks<S, U, O>, s: GameSession, userInput: Option<string>): Context {
    hooks.promptContext(s, CurrentData(hooks, s), userInput.GetOr(""))
  }

  datatype Turn<S> = Turn(response: string, isComplete: bool, updatedState: S)

  /** The result of a turn together with the session as it stands after it. */
  datatype Outcome<S> = Outcome(result: Result<Turn<S>, FormError>, session: Option<GameSession>)

  /** `process`: check, digest, build the context, call the model, merge,
      answer. A failing call raises before the merge, so the session stays
      as it was; the reply and the completion flag are the model's own. */
  function Process<S, U, O>(agent: FormAgent<S, U, O>, session: Option<GameSession>, userInput: Option<string>,
                            invoke: (StructuredChain, Context) -> Result<O, string>): (out: Outcome<S>)
    ensures session.None? ==> out == Outcome(Failure(MissingSession), session)
    ensures session.Some? && agent.chain.None? ==> out == Outcome(Failure(ChainNotInitialized(agent.hooks.agentName)), session)
    ensures out.result.Failure? ==> out.session == session
    ensures session.Some? && agent.chain.Some? ==>
      var o := invoke(agent.chain.value, PromptFor(agent.hooks, session.value, userInput));
      && (out.result.Success? <==> o.Success?)
      && (o.Failure? ==> out.result == Failure(ProcessingFailed(o.error)))
      && (o.Success? ==>
            var state := agent.hooks.merge(agent.hooks.targetOf(session.value), agent.hooks.updateOf(o.value));
            && out.result.value == Turn(agent.hooks.responseOf(o.value), agent.hooks.completionOf(o.value), state)
            && out.session == Some(agent.hooks.withTarget(session.value, state)))
  {
    if session.None? then Outcome(Failure(MissingSession), session)
    else if agent.chain.None? then Outcome(Failure(ChainNotInitialized(agent.hooks.agentName)), session)
    else
      var s := session.value;
      var hooks := agent.hooks;
      var context := PromptFor(hooks, s, userInput);
      match invoke(agent.chain.value, context)
      case Failure(e) => Outcome(Failure(ProcessingFailed(e)), session)
      case Success(o) =>
        var state := hooks.merge(hooks.targetOf(s), hooks.updateOf(o));
        Outcome(Success(Turn(hooks.responseOf(o), hooks.completionOf(o), state)), Some(hooks.withTarget(s, state)))
  }
}
