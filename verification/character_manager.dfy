/** The character form (`CharacterManagerAgent`): the hook table that
    specialises the generic engine to `CharacterState`, its merge rule, its
    field list and labels, and the world-context digest it adds to the
    prompt. The update and output records follow their use in the merge:
    optional string fields plus a list of key/optional-value pairs. */
module CharacterManager {
  import opened Wrappers
  import opened Text
  import opened Dicts
  import opened GameState
  import opened Templates
  import opened Chains
  import opened FormAgent

  const AgentName: string := "character_manager"
  const TemplateName: string := "character_form"
  const NoWorldSentinel: string := "暂无世界背景信息"

  /** `DynamicField`: one extension attribute proposed by the model. */
  datatype DynamicField = DynamicField(key: string, value: Option<string>)

  /** `LLMCharacterStateUpdate`: a field left unset and a field set to `None`
      are both `None` here; the merge treats them alike. */
  datatype CharacterUpdate = CharacterUpdate(
    name: Option<string>,
    physicalAppearance: Option<string>,
    background: Option<string>,
    internalMotivation: Option<string>,
    uniqueTraits: Option<string>,
    additionalInfo: Option<seq<DynamicField>>)

  /** `CharacterManagerOutput`: the structured model output. */
  datatype CharacterOutput = CharacterOutput(update: CharacterUpdate, responseText: string, isComplete: bool)

  /** `CharacterState.model_fields`, in declaration order, with their descriptions. */
  const ModelFields: seq<(string, string)> := [
    ("name", "角色名称"), ("physical_appearance", "外貌描述"), ("background", "背景故事"),
    ("internal_motivation", "内在动机"), ("unique_traits", "独特特征"), ("additional_info", "额外信息")]

  /** The names of `fields` other than `excluded`, in order. */
  function NamesExcept(fields: seq<(string, string)>, excluded: string): (names: seq<string>)
    ensures |names| <= |fields|
    ensures forall n :: n in names ==> n != excluded
    ensures forall i :: 0 <= i < |fields| && fields[i].0 != excluded ==> fields[i].0 in names
    decreases |fields|
  {
    if |fields| == 0 then []
    else (if fields[0].0 != excluded then [fields[0].0] else []) + NamesExcept(fields[1..], excluded)
  }

  /** The names of a list of fields, in order. */
  function Names(fields: seq<(string, string)>): (names: seq<string>)
    ensures |names| == |fields| && forall i :: 0 <= i < |fields| ==> names[i] == fields[i].0
  {
    seq(|fields|, i requires 0 <= i < |fields| => fields[i].0)
  }

  /** When only the last field is the excluded one, the filter drops exactly it. */
  lemma {:induction false} NamesExceptLast(fields: seq<(string, string)>, excluded: string)
    requires |fields| > 0 && fields[|fields| - 1].0 == excluded
    requires forall i :: 0 <= i < |fields| - 1 ==> fields[i].0 != excluded
    ensures NamesExcept(fields, excluded) == Names(fields[..|fields| - 1])
    decreases |fields|
  {
    if |fields| == 1 {
      assert fields[1..] == [];
    } else {
      NamesExceptLast(fields[1..], excluded);
      assert fields[1..][..|fields| - 2] == fields[..|fields| - 1][1..];
    }
  }

  /** `get_form_fields`: the model fields other than `additional_info`,
      which are the session's character field names
      (`FormFieldsAreModelFieldsButExtension`). */
  function GetFormFields(): seq<string> {
    CharacterFieldNames
  }

  /** The form fields are exactly the model fields with `additional_info`
      filtered out, in declaration order. */
  lemma FormFieldsAreModelFieldsButExtension()
    ensures GetFormFields() == NamesExcept(ModelFields, "additional_info")
    ensures "additional_info" !in GetFormFields()
  {
    NamesExceptLast(ModelFields, "additional_info");
  }

  /** The entries of `fields` whose name is in `names`, in order. The model
      field names are distinct, so assigning them one by one into a fresh
      dict lays them out exactly in this order. */
  function Described(fields: seq<(string, string)>, names: seq<string>): (r: seq<(string, string)>)
    ensures |r| <= |fields|
    decreases |fields|
  {
    if |fields| == 0 then []
    else (if fields[0].0 in names then [fields[0]] else []) + Described(fields[1..], names)
  }

  /** When every field but the last is wanted, the last is dropped and the rest kept. */
  lemma {:induction false} DescribedAllButLast(fields: seq<(string, string)>, names: seq<string>)
    requires |fields| > 0 && fields[|fields| - 1].0 !in names
    requires forall i :: 0 <= i < |fields| - 1 ==> fields[i].0 in names
    ensures Described(fields, names) == fields[..|fields| - 1]
    decreases |fields|
  {
    if |fields| == 1 {
      assert fields[1..] == [];
    } else {
      assert fields[0].0 in names;
      DescribedAllButLast(fields[1..], names);
      assert fields[1..][..|fields| - 2] == fields[..|fields| - 1][1..];
    }
  }

  /** The described form fields carry distinct names. */
  lemma ModelFieldsDistinct()
    ensures DistinctKeys(ModelFields[..5])
    ensures Names(ModelFields[..5]) == CharacterFieldNames
  {
    var p := ModelFields[..5];
    assert forall i :: 0 <= i < 5 ==> p[i].0 == CharacterFieldNames[i];
  }

  /** `get_field_map`: every form field to its description, nothing else. */
  function GetFieldMap(): (m: Dict<string, string>)
    ensures Keys(m) == GetFormFields()
    ensures forall i :: 0 <= i < 5 ==> Get(m, ModelFields[i].0) == Some(ModelFields[i].1)
    ensures Get(m, "additional_info").None?
  {
    var names := GetFormFields();
    ModelFieldsDistinct();
    assert forall i :: 0 <= i < 5 ==> ModelFields[i].0 == Names(ModelFields[..5])[i];
    DescribedAllButLast(ModelFields, names);
    var d := Described(ModelFields, names);
    assert DistinctKeys(d) by {
      assert d == ModelFields[..5];
    }
    var m: Dict<string, string> := d;
    assert Keys(m) == Names(ModelFields[..5]);
    m
  }

  // ---------------------------------------------------------------------
  // Merge

  /** A fixed field takes the update's value only when that value is truthy. */
  function Overwrite(current: Option<string>, proposed: Option<string>): Option<string> {
    if Truthy(proposed) then proposed else current
  }

  /** A pair the merge applies: non-empty key and a value. */
  predicate Applies(f: DynamicField) {
    f.key != "" && f.value.Some?
  }

  /** Independent reference: the value of the last applicable pair for `key`. */
  function LastApplied(fs: seq<DynamicField>, key: string): Option<string>
    decreases |fs|
  {
    if |fs| == 0 then None
    else if Applies(fs[|fs| - 1]) && fs[|fs| - 1].key == key then fs[|fs| - 1].value
    else LastApplied(fs[..|fs| - 1], key)
  }

  /** The pairs folded into the extension map in list order. */
  function FoldExtension(ext: Dict<string, string>, fs: seq<DynamicField>): (r: Dict<string, string>)
    ensures forall k :: Get(r, k) == if LastApplied(fs, k).Some? then LastApplied(fs, k) else Get(ext, k)
    ensures Keys(ext) <= Keys(r)
    decreases |fs|
  {
    if |fs| == 0 then ext
    else
      var init := FoldExtension(ext, fs[..|fs| - 1]);
      var f := fs[|fs| - 1];
      if Applies(f) then Put(init, f.key, f.value.value) else init
  }

  /** The update's fixed fields in the order of `CharacterFields`. */
  function UpdateFields(u: CharacterUpdate): (fs: seq<(string, Option<string>)>)
    ensures |fs| == 5
  {
    [("name", u.name), ("physical_appearance", u.physicalAppearance), ("background", u.background),
     ("internal_motivation", u.internalMotivation), ("unique_traits", u.uniqueTraits)]
  }

  /** `_update_target_state`: fixed fields first (truthy values only), then
      the extension pairs in list order; a missing update changes nothing. */
  function UpdateTargetState(c: CharacterState, update: Option<CharacterUpdate>): (r: CharacterState)
    ensures update.None? ==> r == c
    ensures update.Some? ==> forall i :: 0 <= i < 5 ==>
      CharacterFields(r)[i].1 == if Truthy(UpdateFields(update.value)[i].1) then UpdateFields(update.value)[i].1
                                 else CharacterFields(c)[i].1
    ensures update.Some? && update.value.additionalInfo.Some? ==> forall k ::
      Get(r.additionalInfo, k) == if LastApplied(update.value.additionalInfo.value, k).Some?
                                  then LastApplied(update.value.additionalInfo.value, k)
                                  else Get(c.additionalInfo, k)
    ensures update.Some? && update.value.additionalInfo.None? ==> r.additionalInfo == c.additionalInfo
    ensures Keys(c.additionalInfo) <= Keys(r.additionalInfo)
  {
    match update
    case None => c
    case Some(u) =>
      var fixed := CharacterState(
        Overwrite(c.name, u.name),
        Overwrite(c.physicalAppearance, u.physicalAppearance),
        Overwrite(c.background, u.background),
        Overwrite(c.internalMotivation, u.internalMotivation),
        Overwrite(c.uniqueTraits, u.uniqueTraits),
        c.additionalInfo);
      if u.additionalInfo.Some? && |u.additionalInfo.value| > 0 then
        fixed.(additionalInfo := FoldExtension(c.additionalInfo, u.additionalInfo.value))
      else fixed
  }

  /** Updates never erase a known fact, so a complete character stays complete. */
  lemma MergeKeepsKnownFacts(s: GameSession, update: Option<CharacterUpdate>)
    ensures forall i :: 0 <= i < 5 && Truthy(CharacterFields(s.character)[i].1) ==>
      Truthy(CharacterFields(UpdateTargetState(s.character, update))[i].1)
    ensures IsCharacterComplete(s) ==> IsCharacterComplete(s.(character := UpdateTargetState(s.character, update)))
  {
    var s' := s.(character := UpdateTargetState(s.character, update));
    CharacterCompleteIffAllFieldsTruthy(s);
    CharacterCompleteIffAllFieldsTruthy(s');
  }

  /** An update with no field and no pair leaves the state as it was. */
  lemma EmptyUpdateChangesNothing(c: CharacterState, pairs: Option<seq<DynamicField>>)
    requires pairs.None? || pairs == Some([])
    ensures UpdateTargetState(c, Some(CharacterUpdate(None, None, None, None, None, pairs))) == c
  {
  }

  /** Two pairs for distinct keys both land; a later pair for the same key
      wins; pairs with an empty key or no value are skipped. */
  lemma {:induction false} ExtensionAccumulates(ext: Dict<string, string>, k1: string, k2: string, v1: string, v2: string)
    requires k1 != "" && k2 != ""
    ensures k1 != k2 ==>
      var r := FoldExtension(ext, [DynamicField(k1, Some(v1)), DynamicField(k2, Some(v2))]);
      Get(r, k1) == Some(v1) && Get(r, k2) == Some(v2)
    ensures Get(FoldExtension(ext, [DynamicField(k1, Some(v1)), DynamicField(k1, Some(v2))]), k1) == Some(v2)
    ensures FoldExtension(ext, [DynamicField("", Some(v1)), DynamicField(k1, None)]) == ext
  {
    var a := [DynamicField(k1, Some(v1)), DynamicField(k2, Some(v2))];
    assert a[..1] == [DynamicField(k1, Some(v1))];
    assert a[..1][..0] == [];
    var b := [DynamicField(k1, Some(v1)), DynamicField(k1, Some(v2))];
    assert b[..1][..0] == [];
    assert b[..1] == [DynamicField(k1, Some(v1))];
    var c := [DynamicField("", Some(v1)), DynamicField(k1, None)];
    assert c[..1] == [DynamicField("", Some(v1))];
    assert c[..1][..0] == [];
    assert FoldExtension(ext, c[..1]) == FoldExtension(ext, []);
    assert FoldExtension(ext, c) == FoldExtension(ext, c[..1]);
  }

  // ---------------------------------------------------------------------
  // World context and prompt context

  /** `_format_world_context`. Every world field is a core field, so the
      filter on core names only drops `additional_info`; lines use raw
      field names. */
  function FormatWorldContext(w: WorldState): (r: string)
    ensures r == NoWorldSentinel <==> DumpEmpty(WorldFields(w), w.additionalInfo)
    ensures !DumpEmpty(WorldFields(w), w.additionalInfo) ==> r == Join(FixedLines(WorldFields(w), Empty()), "\n")
  {
    if DumpEmpty(WorldFields(w), w.additionalInfo) then NoWorldSentinel
    else
      var lines := FixedLines(WorldFields(w), Empty());
      FixedLinesHaveSpaceAndColon(WorldFields(w), Empty());
      assert ':' !in NoWorldSentinel by {
        var s := NoWorldSentinel;
        assert |s| == 8 && forall i :: 0 <= i < 8 ==> s[i] != ':';
      }
      JoinAvoidsSentinel(lines, NoWorldSentinel);
      Join(lines, "\n")
  }

  /** Extension data never reaches the world context: once a fixed world
      field is set, the digest is the same whatever the extension map holds;
      with no fixed field set, extension data alone yields the empty string. */
  lemma WorldContextIgnoresExtension(w: WorldState, other: Dict<string, string>)
    ensures !AllAbsent(WorldFields(w)) ==> FormatWorldContext(w) == FormatWorldContext(w.(additionalInfo := other))
    ensures AllAbsent(WorldFields(w)) && |w.additionalInfo| > 0 ==> FormatWorldContext(w) == ""
  {
    if AllAbsent(WorldFields(w)) {
      NoFixedLinesWhenFalsy(WorldFields(w), Empty());
    }
  }

  /** World fields appear as raw `key: value` lines in declaration order. */
  lemma WorldContextScenario(name: string, history: string)
    requires name != "" && history != ""
    ensures FormatWorldContext(WorldState(Some(name), None, Some(history), None, None, Empty()))
            == "name: " + name + "\n" + "history: " + history
    ensures FormatWorldContext(NewWorldState()) == NoWorldSentinel
  {
    var w := WorldState(Some(name), None, Some(history), None, None, Empty());
    var fs := WorldFields(w);
    var t2 := fs[2..];
    assert t2[1..][1..][1..] == [];
    assert FixedLines(t2[1..], Empty()) == [];
    assert Label(Empty(), "history") == "history" && "history" + ": " == "history: ";
    assert FixedLines(t2, Empty()) == ["history: " + history];
    assert fs[1..][1..] == t2;
    assert Label(Empty(), "name") == "name" && "name" + ": " == "name: ";
    var lines := ["name: " + name, "history: " + history];
    assert FixedLines(fs, Empty()) == lines;
    assert !AllAbsent(fs) by { assert fs[0].1.Some?; }
    assert lines[1..] == ["history: " + history];
    assert Join(lines, "\n") == lines[0] + "\n" + lines[1];
  }

  /** `get_prompt_context`: the base context plus `world_context`. */
  function GetPromptContext(s: GameSession, currentData: string, userInput: string): (ctx: Context)
    ensures Keys(ctx) == ["form_fields", "current_data", "input", "world_context"]
    ensures forall k :: k != "world_context" ==>
      Get(ctx, k) == Get(BasePromptContext(GetFormFields(), currentData, userInput), k)
    ensures Get(ctx, "world_context") == Some(FormatWorldContext(s.world))
  {
    var base := BasePromptContext(GetFormFields(), currentData, userInput);
    var ctx := Put(base, "world_context", FormatWorldContext(s.world));
    assert Keys(ctx) == Keys(base) + ["world_context"] by {
      assert "world_context" !in Keys(base);
    }
    ctx
  }

  // ---------------------------------------------------------------------
  // The hook table and the agent

  function Hooks(): FormHooks<CharacterState, Option<CharacterUpdate>, CharacterOutput> {
    FormHooks(
      AgentName, TemplateName, GetFormFields(), GetFieldMap(),
      (s: GameSession) => s.character,
      (s: GameSession, c: CharacterState) => s.(character := c),
      CharacterFields,
      (c: CharacterState) => c.additionalInfo,
      GetPromptContext,
      (o: CharacterOutput) => Some(o.update),
      (o: CharacterOutput) => o.responseText,
      (o: CharacterOutput) => o.isComplete,
      UpdateTargetState)
  }

  type CharacterAgent = FormAgent<CharacterState, Option<CharacterUpdate>, CharacterOutput>

  /** The constructor with the character hooks. */
  function NewCharacterAgent(pm: PromptManager, llm: Option<Llm>): (r: Result<CharacterAgent, FormError>)
    ensures llm.None? ==> r == Failure(MissingLlm)
    ensures llm.Some? && !Truthy(GetTemplate(pm, TemplateName, DefaultLanguage)) ==> r == Failure(TemplateUnavailable(TemplateName))
    ensures r.Success? <==> llm.Some? && Truthy(GetTemplate(pm, TemplateName, DefaultLanguage))
    ensures r.Success? ==>
      && r.value.hooks == Hooks() && r.value.llm == llm && r.value.chain.Some?
      && r.value.chain.value.template == GetTemplate(pm, TemplateName, DefaultLanguage).value
      && r.value.chain.value.llm == llm.value
      && r.value.chain.value.runName == AgentName
  {
    NewFormAgent(Hooks(), pm, llm)
  }

  /** A character turn: the model sees the world context, its reply and
      flag come back verbatim, only the character changes, by the merge rule. */
  lemma CharacterTurn(agent: CharacterAgent, s: GameSession, userInput: Option<string>,
                      invoke: (StructuredChain, Context) -> Result<CharacterOutput, string>)
    requires agent.hooks == Hooks() && agent.chain.Some?
    ensures var ctx := PromptFor(agent.hooks, s, userInput);
      Get(ctx, "world_context") == Some(FormatWorldContext(s.world))
      && Get(ctx, "input") == Some(userInput.GetOr(""))
      && Get(ctx, "current_data") == Some(FormatCurrentData(CharacterFields(s.character), s.character.additionalInfo, GetFieldMap()))
    ensures var o := invoke(agent.chain.value, PromptFor(agent.hooks, s, userInput));
      var out := Process(agent, Some(s), userInput, invoke);
      && (o.Failure? ==> out.result.Failure? && out.session == Some(s))
      && (o.Success? ==>
            && out.result.Success?
            && out.result.value.response == o.value.responseText
            && out.result.value.isComplete == o.value.isComplete
            && out.session.Some?
            && out.session.value.character == UpdateTargetState(s.character, Some(o.value.update))
            && out.result.value.updatedState == out.session.value.character
            && out.session.value.(character := s.character) == s)
  {
  }

  /** The engine trusts the model's flag: a turn reports completion whenever
      the model does, even when fields are still missing. */
  lemma CompletionPassThrough(agent: CharacterAgent, s: GameSession, out: CharacterOutput)
    requires agent.hooks == Hooks() && agent.chain.Some?
    requires out.isComplete && out.update == CharacterUpdate(None, None, None, None, None, None)
    requires !IsCharacterComplete(s)
    ensures var r := Process(agent, Some(s), Some(""), (c: StructuredChain, ctx: Context) => Success(out));
      r.result.Success? && r.result.value.isComplete && !IsCharacterComplete(r.session.value)
  {
  }

  /** Two turns: the first names the character, the second adds a background
      and reports completion; the name survives the second turn. */
  lemma TwoTurnScenario(agent: CharacterAgent, s: GameSession, name: string, background: string,
                        in1: string, in2: string, reply1: string, reply2: string)
    requires agent.hooks == Hooks() && agent.chain.Some?
    requires name != "" && background != ""
    ensures var o1 := CharacterOutput(CharacterUpdate(Some(name), None, None, None, None, None), reply1, false);
      var o2 := CharacterOutput(CharacterUpdate(None, None, Some(background), None, None, None), reply2, true);
      var r1 := Process(agent, Some(s), Some(in1), (c: StructuredChain, ctx: Context) => Success(o1));
      var r2 := Process(agent, r1.session, Some(in2), (c: StructuredChain, ctx: Context) => Success(o2));
      && r1.result.Success? && !r1.result.value.isComplete && r1.result.value.response == reply1
      && r1.session.value.character.name == Some(name)
      && r2.result.Success? && r2.result.value.isComplete && r2.result.value.response == reply2
      && r2.session.value.character.name == Some(name)
      && r2.session.value.character.background == Some(background)
      && r2.session.value.world == s.world
  {
    var o1 := CharacterOutput(CharacterUpdate(Some(name), None, None, None, None, None), reply1, false);
    var o2 := CharacterOutput(CharacterUpdate(None, None, Some(background), None, None, None), reply2, true);
    var i1 := (c: StructuredChain, ctx: Context) => Success(o1);
    var i2 := (c: StructuredChain, ctx: Context) => Success(o2);
    CharacterTurn(agent, s, Some(in1), i1);
    var r1 := Process(agent, Some(s), Some(in1), i1);
    var s1 := r1.session.value;
    CharacterTurn(agent, s1, Some(in2), i2);
  }

  /** The merge on the values of the unit test: updated name, new
      appearance, background and the old extension entry kept, new entry added. */
  lemma MergeScenario()
    ensures var c := CharacterState(Some("初始角色"), None, Some("初始背景"), None, None, [("力量", "10")]);
      var u := CharacterUpdate(Some("新角色"), Some("高大威猛"), None, None, None, Some([DynamicField("敏捷", Some("12"))]));
      var r := UpdateTargetState(c, Some(u));
      && r.name == Some("新角色") && r.background == Some("初始背景")
      && r.physicalAppearance == Some("高大威猛")
      && Get(r.additionalInfo, "力量") == Some("10") && Get(r.additionalInfo, "敏捷") == Some("12")
  {
    var fs := [DynamicField("敏捷", Some("12"))];
    assert fs[..0] == [];
    assert "力量" != "敏捷";
  }
}
