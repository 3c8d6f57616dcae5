/** The world form (`WorldBuilderAgent`): an older, free-text agent that asks
    the model through an injected chain, scans the reply for brace-delimited
    spans, takes the first one that decodes to a JSON object and copies its
    truthy values onto the world's fixed fields. JSON decoding is the
    parameter `decode`, with the three outcomes of `Decoded`. */
module WorldBuilder {
  import opened Wrappers
  import opened Text
  import opened Dicts
  import opened GameState
  import opened Templates
  import opened Chains
  import opened FormAgent
  import Form = FormAgent

  const TemplateName: string := "world_form"
  /** The field list as the prompt receives it. */
  const FormFieldsText: string := "name, geography, history, cultures, magic_system"
  const EchoPrefix: string := "收到世界设定输入: "
  const EchoSuffix: string := "。请配置LLM后重试。"

  /** A decoded JSON object with string values. */
  type JsonObject = Dict<string, string>

  /** What `json.loads` does with one candidate span: it yields an object;
      it is skipped (a `JSONDecodeError`, or a value that is not an object);
      or it raises any other exception, which ends the whole extraction. */
  datatype Decoded =
    | Object(obj: JsonObject)
    | Skipped
    | Aborted

  datatype WorldBuilderAgent = WorldBuilderAgent(llm: Option<Llm>, chain: Option<InjectedChain>)

  // ---------------------------------------------------------------------
  // Construction

  /** `_setup_chain`: a chain exists exactly when there is a model and a
      truthy `zh` template; it starts with an empty context. */
  function SetupChain(pm: PromptManager, llm: Option<Llm>): (r: Option<InjectedChain>)
    ensures r.Some? <==> llm.Some? && Truthy(GetTemplate(pm, TemplateName, DefaultLanguage))
    ensures r.Some? ==>
      && r.value.chain.llm == llm.value
      && r.value.chain.prompt == Prompt(GetTemplate(pm, TemplateName, DefaultLanguage).value)
      && r.value.chain.memory == Some(DefaultMemory())
      && |r.value.contextManager.context| == 0
  {
    if llm.None? then None
    else
      var t := GetTemplate(pm, TemplateName, DefaultLanguage);
      if !Truthy(t) then None
      else
        var b := WithContextManager(WithLlm(WithPromptTemplate(NewChainBuilder(), t.value), llm.value), NewContextManager());
        match Build(b)
        case Success(ic) => Some(ic)
        case Failure(_) => None
  }

  /** The constructor never raises for want of a model or a template: the
      agent then simply has no chain. */
  function NewWorldBuilderAgent(pm: PromptManager, llm: Option<Llm>): (a: WorldBuilderAgent)
    ensures a.llm == llm
    ensures a.chain.Some? <==> llm.Some? && Truthy(GetTemplate(pm, TemplateName, DefaultLanguage))
    ensures a.chain.Some? ==>
      && a.chain.value.chain.llm == llm.value
      && a.chain.value.chain.prompt == Prompt(GetTemplate(pm, TemplateName, DefaultLanguage).value)
      && a.chain.value.chain.memory == Some(DefaultMemory())
      && |a.chain.value.contextManager.context| == 0
  {
    WorldBuilderAgent(llm, SetupChain(pm, llm))
  }

  // ---------------------------------------------------------------------
  // Field list, completion and the digest

  /** `get_form_fields`. */
  function GetFormFields(): (fs: seq<string>)
    ensures fs == WorldFieldNames
  {
    ["name", "geography", "history", "cultures", "magic_system"]
  }

  lemma JoinFive(a: string, b: string, c: string, d: string, e: string, sep: string)
    ensures Join([a, b, c, d, e], sep) == a + sep + b + sep + c + sep + d + sep + e
  {
    var fs := [a, b, c, d, e];
    assert fs[4..] == [e];
    assert fs[3..][1..] == fs[4..];
    assert Join(fs[3..], sep) == d + sep + e;
    assert fs[2..][1..] == fs[3..];
    assert Join(fs[2..], sep) == c + sep + (d + sep + e);
    assert fs[1..][1..] == fs[2..];
    assert Join(fs[1..], sep) == b + sep + (c + sep + (d + sep + e));
  }

  /** The hard-coded prompt string, cut at its separators. */
  lemma FormFieldsTextPieces()
    ensures FormFieldsText == "name" + ", " + "geography" + ", " + "history" + ", " + "cultures" + ", " + "magic_system"
  {
    assert "name" + ", " == "name, ";
    assert "name, " + "geography" + ", " == "name, geography, ";
    assert "name, geography, " + "history" + ", " == "name, geography, history, ";
    assert "name, geography, history, " + "cultures" + ", " == "name, geography, history, cultures, ";
  }

  /** The hard-coded prompt string lists exactly the form fields. */
  lemma FormFieldsTextIsJoin()
    ensures Join(GetFormFields(), ", ") == FormFieldsText
  {
    JoinFive("name", "geography", "history", "cultures", "magic_system", ", ");
    FormFieldsTextPieces();
  }

  /** `is_complete`: every fixed field is truthy. */
  function IsComplete(w: WorldState): (b: bool)
    ensures b <==> AllTruthy(WorldFields(w))
  {
    var fs := WorldFields(w);
    assert AllTruthy(fs) ==> Truthy(fs[0].1) && Truthy(fs[1].1) && Truthy(fs[2].1) && Truthy(fs[3].1) && Truthy(fs[4].1);
    Truthy(w.name) && Truthy(w.geography) && Truthy(w.history) && Truthy(w.cultures) && Truthy(w.magicSystem)
  }

  /** The agent's completion test and the session's agree. */
  lemma IsCompleteAgreesWithSession(s: GameSession)
    ensures IsComplete(s.world) <==> IsWorldComplete(s)
  {
    WorldCompleteIffAllFieldsTruthy(s);
  }

  /** The labels the digest puts in front of each field. */
  function Labels(): (m: Dict<string, string>)
    ensures Keys(m) == WorldFieldNames
  {
    var m := [("name", "世界名称"), ("geography", "地理环境"), ("history", "历史背景"),
              ("cultures", "文化设定"), ("magic_system", "魔法体系")];
    assert forall i :: 0 <= i < 5 ==> m[i].0 == WorldFieldNames[i];
    m
  }

  /** `_format_current_data`: one labelled line per truthy field, or the
      sentinel when there is none. The extension map plays no part. */
  function FormatCurrentData(w: WorldState): (r: string)
    ensures r == NoDataSentinel <==> forall i :: 0 <= i < 5 ==> !Truthy(WorldFields(w)[i].1)
    ensures r != NoDataSentinel ==> r == Join(FixedLines(WorldFields(w), Labels()), "\n")
  {
    var lines := FixedLines(WorldFields(w), Labels());
    TruthyFieldGivesLine(WorldFields(w), Labels());
    if |lines| == 0 then NoDataSentinel
    else
      FixedLinesHaveSpaceAndColon(WorldFields(w), Labels());
      SentinelHasNoColon();
      JoinAvoidsSentinel(lines, NoDataSentinel);
      Join(lines, "\n")
  }

  /** A dump has a line exactly when one of its fields is truthy. */
  lemma {:induction false} TruthyFieldGivesLine(fields: Fields, labels: Dict<string, string>)
    ensures |FixedLines(fields, labels)| == 0 <==> forall i :: 0 <= i < |fields| ==> !Truthy(fields[i].1)
    decreases |fields|
  {
    if |fields| > 0 {
      TruthyFieldGivesLine(fields[1..], labels);
      assert forall i :: 1 <= i < |fields| ==> fields[i] == fields[1..][i - 1];
    }
  }

  /** Against the generic form digest: with no extension data, the two agree
      except when every field is absent or empty — there the generic digest
      says the sentinel only for all-absent, this one for all-falsy. */
  lemma DigestAgreesWithFormDigest(w: WorldState)
    ensures (exists i :: 0 <= i < 5 && Truthy(WorldFields(w)[i].1)) ==>
      FormatCurrentData(w) == Form.FormatCurrentData(WorldFields(w), Empty(), Labels())
    ensures AllAbsent(WorldFields(w)) ==>
      FormatCurrentData(w) == Form.FormatCurrentData(WorldFields(w), Empty(), Labels())
  {
    var fs := WorldFields(w);
    if exists i :: 0 <= i < 5 && Truthy(fs[i].1) {
      var i :| 0 <= i < 5 && Truthy(fs[i].1);
      assert !AllAbsent(fs);
      assert FormatCurrentData(w) != NoDataSentinel;
      assert ExtensionSection(Empty()) == [];
      assert DigestLines(fs, Empty(), Labels()) == FixedLines(fs, Labels());
    }
    if AllAbsent(fs) {
      assert forall i :: 0 <= i < 5 ==> !Truthy(fs[i].1);
    }
  }

  // ---------------------------------------------------------------------
  // Scanning the reply for `{...}` spans

  predicate IsBrace(c: char) {
    c == '{' || c == '}'
  }

  /** `s[i..j]` holds one brace-free `{...}` span: the language of the
      pattern `\{[^{}]*\}`. */
  predicate IsSpan(s: string, i: int, j: int) {
    0 <= i < j < |s| && s[i] == '{' && s[j] == '}' && forall k :: i < k < j ==> !IsBrace(s[k])
  }

  /** The first brace at or after `i`, or `|s|`. */
  function NextBrace(s: string, i: nat): (j: nat)
    requires i <= |s|
    ensures i <= j <= |s|
    ensures j < |s| ==> IsBrace(s[j])
    ensures forall k :: i <= k < j ==> !IsBrace(s[k])
    decreases |s| - i
  {
    if i == |s| || IsBrace(s[i]) then i else NextBrace(s, i + 1)
  }

  /** `re.findall` from position `i`: at a `{` whose next brace closes it,
      take the span and resume after it; otherwise move one character on. */
  function SpansFrom(s: string, i: nat): (spans: seq<(nat, nat)>)
    requires i <= |s|
    ensures forall p :: 0 <= p < |spans| ==> i <= spans[p].0 && IsSpan(s, spans[p].0, spans[p].1)
    ensures forall p, q :: 0 <= p < q < |spans| ==> spans[p].1 < spans[q].0
    decreases |s| - i
  {
    if i == |s| then []
    else if s[i] == '{' then
      var j := NextBrace(s, i + 1);
      if j < |s| && s[j] == '}' then [(i, j)] + SpansFrom(s, j + 1)
      else SpansFrom(s, i + 1)
    else SpansFrom(s, i + 1)
  }

  /** A span opened at `i` closes at the first brace after `i`. */
  lemma SpanClosesAtNextBrace(s: string, i: nat)
    requires i < |s|
    ensures forall b :: IsSpan(s, i, b) ==> NextBrace(s, i + 1) == b
  {
    var j := NextBrace(s, i + 1);
    forall b | IsSpan(s, i, b) ensures j == b {
      assert IsBrace(s[b]);
      assert j <= b;
      assert IsBrace(s[j]);
    }
  }

  /** The scan finds every span; with the contract of `SpansFrom`, it finds
      nothing else. */
  lemma {:induction false} SpansFromComplete(s: string, i: nat)
    requires i <= |s|
    ensures forall a, b :: i <= a && IsSpan(s, a, b) ==> (a, b) in SpansFrom(s, i)
    decreases |s| - i
  {
    if i < |s| {
      SpansFromComplete(s, i + 1);
      SpanClosesAtNextBrace(s, i);
      if s[i] == '{' {
        var j := NextBrace(s, i + 1);
        if j < |s| && s[j] == '}' {
          SpansFromComplete(s, j + 1);
          forall a, b | i <= a && IsSpan(s, a, b) ensures (a, b) in SpansFrom(s, i) {
            if a != i {
              assert IsBrace(s[a]);
              assert a > j;
            }
          }
        } else {
          forall a, b | i <= a && IsSpan(s, a, b) ensures (a, b) in SpansFrom(s, i) {
            assert a != i;
          }
        }
      }
    }
  }

  /** `re.findall(r"\{[^{}]*\}", response)`. */
  function Matches(response: string): (ms: seq<string>)
    ensures |ms| == |SpansFrom(response, 0)|
    ensures forall p :: 0 <= p < |ms| ==>
      var sp := SpansFrom(response, 0)[p]; ms[p] == response[sp.0..sp.1 + 1]
  {
    var spans := SpansFrom(response, 0);
    seq(|spans|, p requires 0 <= p < |spans| => response[spans[p].0..spans[p].1 + 1])
  }

  /** The spans, in order of position, are exactly the brace-free `{...}`
      substrings of the reply. */
  lemma MatchesCharacterized(response: string)
    ensures forall a, b :: (a, b) in SpansFrom(response, 0) <==> IsSpan(response, a, b)
    ensures forall p, q :: 0 <= p < q < |SpansFrom(response, 0)| ==>
      SpansFrom(response, 0)[p].1 < SpansFrom(response, 0)[q].0
  {
    SpansFromComplete(response, 0);
  }

  /** The scan gets as far as candidate `p`: every earlier one was skipped. */
  predicate Reached(ms: seq<string>, decode: string -> Decoded, p: int)
    requires 0 <= p <= |ms|
  {
    forall q :: 0 <= q < p ==> decode(ms[q]).Skipped?
  }

  /** After a skipped head, reaching `p` in the list is reaching `p - 1` in its tail. */
  lemma ReachedTail(ms: seq<string>, decode: string -> Decoded)
    requires |ms| > 0 && decode(ms[0]).Skipped?
    ensures forall p :: 1 <= p <= |ms| ==> (Reached(ms, decode, p) <==> Reached(ms[1..], decode, p - 1))
  {
    forall p | 1 <= p <= |ms| ensures Reached(ms, decode, p) <==> Reached(ms[1..], decode, p - 1) {
      if Reached(ms[1..], decode, p - 1) {
        forall q | 0 <= q < p ensures decode(ms[q]).Skipped? {
          if q > 0 { assert ms[q] == ms[1..][q - 1]; }
        }
      }
      if Reached(ms, decode, p) {
        forall q | 0 <= q < p - 1 ensures decode(ms[1..][q]).Skipped? {
          assert ms[1..][q] == ms[q + 1];
        }
      }
    }
  }

  /** The loop over the candidates: the first object reached wins, and a
      candidate that aborts ends the scan with no object. */
  function FirstObject(ms: seq<string>, decode: string -> Decoded): (r: Option<JsonObject>)
    ensures r.None? <==> forall p :: 0 <= p < |ms| && Reached(ms, decode, p) ==> !decode(ms[p]).Object?
    decreases |ms|
  {
    if |ms| == 0 then None
    else
      match decode(ms[0])
      case Object(obj) =>
        assert Reached(ms, decode, 0);
        Some(obj)
      case Aborted => None
      case Skipped =>
        ReachedTail(ms, decode);
        assert forall p :: 1 <= p < |ms| ==> ms[p] == ms[1..][p - 1];
        FirstObject(ms[1..], decode)
  }

  /** The object found is the one of the first candidate that does not
      skip; every earlier candidate was skipped. */
  lemma {:induction false} FirstObjectIsFirst(ms: seq<string>, decode: string -> Decoded)
    ensures FirstObject(ms, decode).Some? ==>
      exists p :: 0 <= p < |ms| && Reached(ms, decode, p) && decode(ms[p]) == Object(FirstObject(ms, decode).value)
    decreases |ms|
  {
    var r := FirstObject(ms, decode);
    if |ms| > 0 && r.Some? {
      if decode(ms[0]).Object? {
        assert Reached(ms, decode, 0);
      } else {
        assert decode(ms[0]).Skipped?;
        FirstObjectIsFirst(ms[1..], decode);
        ReachedTail(ms, decode);
        var p :| 0 <= p < |ms[1..]| && Reached(ms[1..], decode, p) && decode(ms[1..][p]) == Object(r.value);
        assert Reached(ms, decode, p + 1);
        assert decode(ms[p + 1]) == Object(r.value);
      }
    }
  }

  /** A candidate that aborts ends the extraction, whatever follows it. */
  lemma AbortEndsScan(ms: seq<string>, decode: string -> Decoded, p: int)
    requires 0 <= p < |ms| && Reached(ms, decode, p) && decode(ms[p]).Aborted?
    ensures FirstObject(ms, decode).None?
  {
    forall k | 0 <= k < |ms| ensures Reached(ms, decode, k) ==> !decode(ms[k]).Object? {
      if k > p { assert !decode(ms[p]).Skipped?; }
    }
  }

  /** `_extract_json_from_response`. */
  function ExtractJson(response: string, decode: string -> Decoded): (r: Option<JsonObject>)
    ensures r.None? <==> forall p :: 0 <= p < |Matches(response)| && Reached(Matches(response), decode, p)
                                     ==> !decode(Matches(response)[p]).Object?
    ensures r.Some? ==>
      exists p :: 0 <= p < |Matches(response)| && Reached(Matches(response), decode, p)
                  && decode(Matches(response)[p]) == Object(r.value)
  {
    FirstObjectIsFirst(Matches(response), decode);
    FirstObject(Matches(response), decode)
  }

  // ---------------------------------------------------------------------
  // Merging decoded data

  /** A world field by its name; `None` for any other name. */
  function FieldNamed(w: WorldState, key: string): Option<string> {
    if key == "name" then w.name
    else if key == "geography" then w.geography
    else if key == "history" then w.history
    else if key == "cultures" then w.cultures
    else if key == "magic_system" then w.magicSystem
    else None
  }

  function SetField(w: WorldState, key: string, value: string): (r: WorldState)
    ensures key in WorldFieldNames ==> FieldNamed(r, key) == Some(value)
    ensures forall k :: k != key ==> FieldNamed(r, k) == FieldNamed(w, k)
    ensures key !in WorldFieldNames ==> r == w
    ensures r.additionalInfo == w.additionalInfo
  {
    if key == "name" then w.(name := Some(value))
    else if key == "geography" then w.(geography := Some(value))
    else if key == "history" then w.(history := Some(value))
    else if key == "cultures" then w.(cultures := Some(value))
    else if key == "magic_system" then w.(magicSystem := Some(value))
    else w
  }

  /** The decoded pairs in order: a fixed-field key with a truthy value is copied. */
  function ApplyPairs(w: WorldState, pairs: seq<(string, string)>): (r: WorldState)
    ensures r.additionalInfo == w.additionalInfo
    decreases |pairs|
  {
    if |pairs| == 0 then w
    else
      var w' := if pairs[0].1 != "" then SetField(w, pairs[0].0, pairs[0].1) else w;
      ApplyPairs(w', pairs[1..])
  }

  /** Each fixed field takes the object's value when that value is non-empty
      and keeps its own otherwise; keys are distinct, so order does not matter. */
  lemma {:induction false} ApplyPairsFields(w: WorldState, data: JsonObject)
    ensures forall k :: k in WorldFieldNames ==>
      FieldNamed(ApplyPairs(w, data), k) ==
        if HasKey(data, k) && Get(data, k).value != "" then Get(data, k) else FieldNamed(w, k)
    decreases |data|
  {
    if |data| > 0 {
      var w' := if data[0].1 != "" then SetField(w, data[0].0, data[0].1) else w;
      var rest: JsonObject := data[1..];
      ApplyPairsFields(w', rest);
      forall k | k in WorldFieldNames
        ensures FieldNamed(ApplyPairs(w, data), k) ==
          if HasKey(data, k) && Get(data, k).value != "" then Get(data, k) else FieldNamed(w, k)
      {
        if k == data[0].0 {
          assert Get(data, k) == Some(data[0].1);
          assert !HasKey(rest, k) by {
            forall i | 0 <= i < |rest| ensures rest[i].0 != k {
              assert rest[i] == data[i + 1];
            }
          }
        } else {
          assert HasKey(data, k) <==> HasKey(rest, k) by {
            if HasKey(data, k) {
              var i :| 0 <= i < |data| && data[i].0 == k;
              assert rest[i - 1].0 == k;
            }
            if HasKey(rest, k) {
              var i :| 0 <= i < |rest| && rest[i].0 == k;
              assert data[i + 1].0 == k;
            }
          }
          if HasKey(rest, k) {
            var i :| 0 <= i < |rest| && rest[i].0 == k;
            assert Get(rest, k) == Some(rest[i].1);
            assert Get(data, k) == Some(data[i + 1].1);
          }
        }
      }
    }
  }

  /** The merge: per field, the object's value when non-empty. */
  function MergeWorldData(w: WorldState, data: Option<JsonObject>): (r: WorldState)
    ensures data.None? ==> r == w
    ensures data.Some? ==> forall k :: k in WorldFieldNames ==>
      FieldNamed(r, k) == if HasKey(data.value, k) && Get(data.value, k).value != "" then Get(data.value, k) else FieldNamed(w, k)
    ensures r.additionalInfo == w.additionalInfo
  {
    if data.None? then w
    else
      ApplyPairsFields(w, data.value);
      ApplyPairs(w, data.value)
  }

  /** The five fixed fields determine the world apart from its extension map. */
  lemma FieldsDetermineWorld(a: WorldState, b: WorldState)
    requires forall k :: k in WorldFieldNames ==> FieldNamed(a, k) == FieldNamed(b, k)
    requires a.additionalInfo == b.additionalInfo
    ensures a == b
  {
    assert FieldNamed(a, "name") == FieldNamed(b, "name");
    assert FieldNamed(a, "geography") == FieldNamed(b, "geography");
    assert FieldNamed(a, "history") == FieldNamed(b, "history");
    assert FieldNamed(a, "cultures") == FieldNamed(b, "cultures");
    assert FieldNamed(a, "magic_system") == FieldNamed(b, "magic_system");
  }

  /** Merging never erases a truthy field, so a complete world stays complete. */
  lemma MergeKeepsKnownFacts(w: WorldState, data: Option<JsonObject>)
    ensures forall k :: k in WorldFieldNames && Truthy(FieldNamed(w, k)) ==> Truthy(FieldNamed(MergeWorldData(w, data), k))
    ensures IsComplete(w) ==> IsComplete(MergeWorldData(w, data))
  {
    var r := MergeWorldData(w, data);
    if IsComplete(w) {
      assert Truthy(FieldNamed(w, "name")) && Truthy(FieldNamed(w, "geography"))
          && Truthy(FieldNamed(w, "history")) && Truthy(FieldNamed(w, "cultures"))
          && Truthy(FieldNamed(w, "magic_system"));
      assert Truthy(FieldNamed(r, "name")) && Truthy(FieldNamed(r, "geography"))
          && Truthy(FieldNamed(r, "history")) && Truthy(FieldNamed(r, "cultures"))
          && Truthy(FieldNamed(r, "magic_system"));
    }
  }

  /** Merging the same object twice is the same as merging it once. */
  lemma MergeIdempotent(w: WorldState, data: Option<JsonObject>)
    ensures MergeWorldData(MergeWorldData(w, data), data) == MergeWorldData(w, data)
  {
    FieldsDetermineWorld(MergeWorldData(MergeWorldData(w, data), data), MergeWorldData(w, data));
  }

  // ---------------------------------------------------------------------
  // One turn

  datatype WorldReply = WorldReply(response: string, isComplete: bool, updatedState: WorldState)

  datatype WorldError =
    | MissingSession
    | StepFailed(error: ChainError)

  /** The reply, the agent (its chain's context is updated before the call)
      and the session as they stand after the turn. */
  datatype WorldOutcome = WorldOutcome(result: Result<WorldReply, WorldError>, agent: WorldBuilderAgent, session: Option<GameSession>)

  /** The two entries written into the chain's context before each call. */
  function TurnContext(w: WorldState): (ctx: Context)
    ensures Keys(ctx) == ["form_fields", "current_data"]
    ensures Get(ctx, "form_fields") == Some(FormFieldsText)
    ensures Get(ctx, "current_data") == Some(FormatCurrentData(w))
  {
    [("form_fields", FormFieldsText), ("current_data", FormatCurrentData(w))]
  }

  /** `process`. A missing `user_input` is `""` at the caller. */
  function Process(agent: WorldBuilderAgent, session: Option<GameSession>, userInput: string,
                   run: (LlmChain, Context) -> Result<string, string>,
                   decode: string -> Decoded): (out: WorldOutcome)
    ensures session.None? ==> out == WorldOutcome(Failure(WorldError.MissingSession), agent, session)
    ensures session.Some? && agent.chain.None? ==>
      out == WorldOutcome(Success(WorldReply(EchoPrefix + userInput + EchoSuffix, false, session.value.world)), agent, session)
    ensures session.Some? && agent.chain.Some? ==>
      var s := session.value;
      var ic := UpdateContext(agent.chain.value, TurnContext(s.world));
      var step := Step(ic, Some(userInput), None, run);
      && out.agent == agent.(chain := Some(ic))
      && (step.Failure? ==> out.result == Failure(StepFailed(step.error)) && out.session == session)
      && (step.Success? ==>
            var w := MergeWorldData(s.world, ExtractJson(step.value, decode));
            && out.session == Some(s.(world := w))
            && out.result == Success(WorldReply(step.value, IsWorldComplete(s.(world := w)), w)))
  {
    if session.None? then WorldOutcome(Failure(WorldError.MissingSession), agent, session)
    else if agent.chain.None? then
      WorldOutcome(Success(WorldReply(EchoPrefix + userInput + EchoSuffix, false, session.value.world)), agent, session)
    else
      var s := session.value;
      var ic := UpdateContext(agent.chain.value, TurnContext(s.world));
      var agent' := agent.(chain := Some(ic));
      match Step(ic, Some(userInput), None, run)
      case Failure(e) => WorldOutcome(Failure(StepFailed(e)), agent', session)
      case Success(text) =>
        var w := MergeWorldData(s.world, ExtractJson(text, decode));
        var s' := s.(world := w);
        WorldOutcome(Success(WorldReply(text, IsWorldComplete(s'), w)), agent', Some(s'))
  }

  /** The chain's context never holds `input`. */
  predicate InputFree(agent: WorldBuilderAgent) {
    agent.chain.Some? ==> !HasKey(agent.chain.value.contextManager.context, "input")
  }

  /** A fresh agent is input-free. */
  lemma NewAgentInputFree(pm: PromptManager, llm: Option<Llm>)
    ensures InputFree(NewWorldBuilderAgent(pm, llm))
  {
    var a := NewWorldBuilderAgent(pm, llm);
    if a.chain.Some? {
      assert Keys(a.chain.value.contextManager.context) == [];
    }
  }

  /** Writing the turn's two entries keeps the context free of `input`. */
  lemma TurnContextKeepsInputFree(ic: InjectedChain, w: WorldState)
    requires !HasKey(ic.contextManager.context, "input")
    ensures !HasKey(UpdateContext(ic, TurnContext(w)).contextManager.context, "input")
  {
    var ctx := TurnContext(w);
    assert !HasKey(ctx, "input") by { assert "input" !in Keys(ctx); }
    assert Get(UpdateContext(ic, ctx).contextManager.context, "input") == Get(ic.contextManager.context, "input");
  }

  /** Every turn keeps the agent input-free, so a turn's step never fails on
      a duplicate `input`: only a failing model call fails it. */
  lemma TurnsKeepInputFree(agent: WorldBuilderAgent, session: Option<GameSession>, userInput: string,
                           run: (LlmChain, Context) -> Result<string, string>,
                           decode: string -> Decoded)
    requires InputFree(agent)
    ensures InputFree(Process(agent, session, userInput, run, decode).agent)
    ensures session.Some? && agent.chain.Some? ==>
      var out := Process(agent, session, userInput, run, decode);
      out.result.Failure? ==> out.result.error.StepFailed? && out.result.error.error.ModelCallFailed?
  {
    if session.Some? && agent.chain.Some? {
      var ic := UpdateContext(agent.chain.value, TurnContext(session.value.world));
      TurnContextKeepsInputFree(agent.chain.value, session.value.world);
      assert StepArguments(ic, Some(userInput), None).Success?;
    }
  }

  /** A turn changes the session's world only, and the reported completion
      is the session's own test on the merged world. */
  lemma TurnChangesWorldOnly(agent: WorldBuilderAgent, s: GameSession, userInput: string,
                             run: (LlmChain, Context) -> Result<string, string>,
                             decode: string -> Decoded)
    ensures var out := Process(agent, Some(s), userInput, run, decode);
      && out.session.Some?
      && out.session.value.(world := s.world) == s
      && (out.result.Success? ==>
            out.result.value.updatedState == out.session.value.world
            && (out.result.value.isComplete ==> IsComplete(out.session.value.world)))
  {
    var out := Process(agent, Some(s), userInput, run, decode);
    if out.result.Success? {
      IsCompleteAgreesWithSession(out.session.value);
    }
  }

  /** A reply carrying prose, then a brace span, then a nested brace: the
      scan finds the two brace-free spans. */
  lemma ScenarioMatches()
    ensures Matches("a{x}b{c{y}") == ["{x}", "{y}"]
  {
    var s := "a{x}b{c{y}";
    assert NextBrace(s, 2) == 3;
    assert NextBrace(s, 6) == 7;
    assert NextBrace(s, 8) == 9;
    assert SpansFrom(s, 10) == [];
    assert SpansFrom(s, 5) == SpansFrom(s, 6) == SpansFrom(s, 7) == [(7, 9)];
    assert SpansFrom(s, 0) == [(1, 3), (7, 9)];
    assert s[1..4] == "{x}" && s[7..10] == "{y}";
  }

  /** On that reply, a first span that does not decode is skipped and the
      inner span of the nested brace gives the object. */
  lemma ExtractScenario(decode: string -> Decoded, obj: JsonObject)
    requires decode("{x}").Skipped? && decode("{y}") == Object(obj)
    ensures ExtractJson("a{x}b{c{y}", decode) == Some(obj)
  {
    ScenarioMatches();
    var ms := Matches("a{x}b{c{y}");
    assert ms[1..] == ["{y}"];
  }

  /** On the same reply, a first span on which decoding raises anything but
      a decode error ends the extraction: the later object is not used. */
  lemma AbortScenario(decode: string -> Decoded, obj: JsonObject)
    requires decode("{x}").Aborted? && decode("{y}") == Object(obj)
    ensures ExtractJson("a{x}b{c{y}", decode).None?
  {
    ScenarioMatches();
    AbortEndsScan(Matches("a{x}b{c{y}"), decode, 0);
  }
}
