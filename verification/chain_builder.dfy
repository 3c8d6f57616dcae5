/** The chain infrastructure: a shared `ContextManager`, the `InjectedChain`
    wrapper that merges stored and external context before calling its
    model chain, conversation-memory rendering, and the `ChainBuilder`.
    The model call (`arun`) is a function parameter; the memory bookkeeping
    the model chain does after a call is not part of this model. */
module Chains {
  import opened Wrappers
  import opened Text
  import opened Dicts

  /** Prompt variables; every value the modelled callers store is a string. */
  type Context = Dict<string, string>

  datatype ContextManager = ContextManager(context: Context)

  function NewContextManager(): (cm: ContextManager)
    ensures |cm.context| == 0
  {
    ContextManager(Empty())
  }

  /** `set_context`: new keys override, other stored keys are kept. */
  function SetContext(cm: ContextManager, ctx: Context): (r: ContextManager)
    ensures forall k :: HasKey(ctx, k) ==> Get(r.context, k) == Get(ctx, k)
    ensures forall k :: !HasKey(ctx, k) ==> Get(r.context, k) == Get(cm.context, k)
    ensures Keys(cm.context) <= Keys(r.context)
  {
    ContextManager(Update(cm.context, ctx))
  }

  /** `get_context`: the stored context as a value; a caller that changes
      the returned dictionary changes only its own copy. */
  function GetContext(cm: ContextManager): Context {
    cm.context
  }

  /** `clear_context`. */
  function ClearContext(cm: ContextManager): (r: ContextManager)
    ensures forall k :: Get(r.context, k).None?
  {
    NewContextManager()
  }

  /** Set, read, change the copy: the stored context keeps its value, and
      clearing afterwards empties it. */
  lemma ContextCopyScenario()
    ensures var cm := SetContext(NewContextManager(), [("player_name", "Alice"), ("world_name", "Eldoria")]);
      var copy := Put(GetContext(cm), "world_name", "Moria");
      && Get(GetContext(cm), "player_name") == Some("Alice")
      && Get(GetContext(cm), "world_name") == Some("Eldoria")
      && Get(copy, "world_name") == Some("Moria")
      && |GetContext(ClearContext(cm))| == 0
  {
    var ctx: Context := [("player_name", "Alice"), ("world_name", "Eldoria")];
    assert ctx[0].0 == "player_name" && ctx[1].0 == "world_name";
  }

  // ---------------------------------------------------------------------
  // Model chain, memory and the injected wrapper

  /** An opaque handle on a language model. */
  datatype Llm = Llm(id: nat)

  /** `PromptTemplate.from_template(text)`. */
  datatype Prompt = Prompt(template: string)

  datatype ChatMessage = HumanMessage(content: string) | AIMessage(content: string) | OtherMessage(kind: string, content: string)

  datatype Memory = Memory(inputKey: string, memoryKey: string, messages: seq<ChatMessage>)

  /** `LLMChain(llm, prompt, memory)`; `memory` is `None` for a chain built
      without one. */
  datatype LlmChain = LlmChain(llm: Llm, prompt: Prompt, memory: Option<Memory>)

  datatype InjectedChain = InjectedChain(chain: LlmChain, contextManager: ContextManager)

  datatype ChainError =
    | MissingPromptOrLlm
    | DuplicateInputArgument
    | ModelCallFailed(detail: string)

  /** `InjectedChain(chain, context_manager)`: a fresh manager when none is given. */
  function NewInjectedChain(chain: LlmChain, cm: Option<ContextManager>): (ic: InjectedChain)
    ensures ic.chain == chain
    ensures cm.Some? ==> ic.contextManager == cm.value
    ensures cm.None? ==> |ic.contextManager.context| == 0
  {
    InjectedChain(chain, cm.GetOr(NewContextManager()))
  }

  /** `update_context(**kwargs)`. */
  function UpdateContext(ic: InjectedChain, kwargs: Context): InjectedChain {
    ic.(contextManager := SetContext(ic.contextManager, kwargs))
  }

  /** `inject_prompt`: replaces the template text and nothing else. */
  function InjectPrompt(ic: InjectedChain, text: string): (r: InjectedChain)
    ensures r.chain.prompt.template == text
    ensures r.chain.llm == ic.chain.llm && r.chain.memory == ic.chain.memory
    ensures r.contextManager == ic.contextManager
  {
    ic.(chain := ic.chain.(prompt := Prompt(text)))
  }

  /** A message that the transcript renders. */
  predicate Conversational(m: ChatMessage) {
    m.HumanMessage? || m.AIMessage?
  }

  function RenderMessage(m: ChatMessage): string
    requires Conversational(m)
  {
    if m.HumanMessage? then "User: " + m.content else "AI: " + m.content
  }

  /** The transcript lines: human and AI messages in order, others skipped. */
  function TranscriptLines(msgs: seq<ChatMessage>): (lines: seq<string>)
    ensures |lines| <= |msgs|
    decreases |msgs|
  {
    if |msgs| == 0 then []
    else if Conversational(msgs[0]) then [RenderMessage(msgs[0])] + TranscriptLines(msgs[1..])
    else TranscriptLines(msgs[1..])
  }

  /** Rendering distributes over concatenation, so the transcript of a longer
      conversation extends the transcript of its beginning. */
  lemma {:induction false} TranscriptLinesAppend(a: seq<ChatMessage>, b: seq<ChatMessage>)
    ensures TranscriptLines(a + b) == TranscriptLines(a) + TranscriptLines(b)
    decreases |a|
  {
    if |a| > 0 {
      assert (a + b)[1..] == a[1..] + b;
      TranscriptLinesAppend(a[1..], b);
    } else {
      assert a + b == b;
    }
  }

  /** One rendered line per human or AI message, and none for others. */
  lemma TranscriptOfOne(m: ChatMessage)
    ensures Conversational(m) ==> TranscriptLines([m]) == [RenderMessage(m)]
    ensures !Conversational(m) ==> TranscriptLines([m]) == []
  {
    assert [m][1..] == [];
  }

  datatype MemoryView = MessageList(messages: seq<ChatMessage>) | Transcript(text: string)

  /** `retrieve_memory(as_string)`: when the memory cannot be reached the
      result is an empty list, even when a string was asked for. */
  function RetrieveMemory(ic: InjectedChain, asString: bool): (r: MemoryView)
    ensures ic.chain.memory.None? ==> r == MessageList([])
    ensures ic.chain.memory.Some? && !asString ==> r == MessageList(ic.chain.memory.value.messages)
    ensures ic.chain.memory.Some? && asString
            ==> r == Transcript(Join(TranscriptLines(ic.chain.memory.value.messages), "\n"))
  {
    match ic.chain.memory
    case None => MessageList([])
    case Some(mem) =>
      if asString then Transcript(Join(TranscriptLines(mem.messages), "\n"))
      else MessageList(mem.messages)
  }

  /** The keyword arguments `step` passes to `arun`: the stored context
      overlaid by the external one, plus `input` when the user input is
      truthy. A second `input` (already in the context) is Python's
      "multiple values for keyword argument" error. */
  function StepArguments(ic: InjectedChain, userInput: Option<string>, external: Option<Context>): (r: Result<Context, ChainError>)
    ensures var ext := external.GetOr(Empty()); var stored := GetContext(ic.contextManager);
      && (r.Failure? <==> Truthy(userInput) && (HasKey(stored, "input") || HasKey(ext, "input")))
      && (r.Failure? ==> r.error == DuplicateInputArgument)
      && (r.Success? ==> forall k :: k != "input" ==>
            Get(r.value, k) == if HasKey(ext, k) then Get(ext, k) else Get(stored, k))
      && (r.Success? && Truthy(userInput) ==> Get(r.value, "input") == userInput)
      && (r.Success? && !Truthy(userInput) ==>
            Get(r.value, "input") == if HasKey(ext, "input") then Get(ext, "input") else Get(stored, "input"))
  {
    var combined := Update(GetContext(ic.contextManager), external.GetOr(Empty()));
    if !Truthy(userInput) then Success(combined)
    else if HasKey(combined, "input") then Failure(DuplicateInputArgument)
    else Success(Update(Put(Empty(), "input", userInput.value), combined))
  }

  /** `step`: the model call `run` receives the combined arguments. */
  function Step(ic: InjectedChain, userInput: Option<string>, external: Option<Context>,
                run: (LlmChain, Context) -> Result<string, string>): (r: Result<string, ChainError>)
    ensures StepArguments(ic, userInput, external).Failure? ==> r == Failure(DuplicateInputArgument)
    ensures StepArguments(ic, userInput, external).Success? ==>
      match run(ic.chain, StepArguments(ic, userInput, external).value)
      case Success(text) => r == Success(text)
      case Failure(e) => r == Failure(ModelCallFailed(e))
  {
    var args :- StepArguments(ic, userInput, external);
    match run(ic.chain, args)
    case Success(text) => Success(text)
    case Failure(e) => Failure(ModelCallFailed(e))
  }

  // ---------------------------------------------------------------------
  // Builder

  datatype ChainBuilder = ChainBuilder(
    prompt: Option<Prompt>,
    llm: Option<Llm>,
    memory: Option<Memory>,
    contextManager: Option<ContextManager>)

  function NewChainBuilder(): ChainBuilder {
    ChainBuilder(None, None, None, None)
  }

  function WithPromptTemplate(b: ChainBuilder, text: string): ChainBuilder {
    b.(prompt := Some(Prompt(text)))
  }

  function WithLlm(b: ChainBuilder, llm: Llm): ChainBuilder {
    b.(llm := Some(llm))
  }

  function WithMemory(b: ChainBuilder, memory: Memory): ChainBuilder {
    b.(memory := Some(memory))
  }

  function WithContextManager(b: ChainBuilder, cm: ContextManager): ChainBuilder {
    b.(contextManager := Some(cm))
  }

  /** The memory `build` creates when none was given. */
  function DefaultMemory(): Memory {
    Memory("input", "chat_history", [])
  }

  /** `build`: both prompt and model are required; memory and context
      manager default to fresh ones. */
  function Build(b: ChainBuilder): (r: Result<InjectedChain, ChainError>)
    ensures r.Failure? <==> b.prompt.None? || b.llm.None?
    ensures r.Failure? ==> r.error == MissingPromptOrLlm
    ensures r.Success? ==> r.value.chain.llm == b.llm.value && r.value.chain.prompt == b.prompt.value
    ensures r.Success? ==> r.value.chain.memory == Some(if b.memory.Some? then b.memory.value else DefaultMemory())
    ensures r.Success? && b.contextManager.Some? ==> r.value.contextManager == b.contextManager.value
    ensures r.Success? && b.contextManager.None? ==> |r.value.contextManager.context| == 0
  {
    if b.prompt.None? || b.llm.None? then Failure(MissingPromptOrLlm)
    else
      var memory := b.memory.GetOr(DefaultMemory());
      var cm := b.contextManager.GetOr(NewContextManager());
      Success(NewInjectedChain(LlmChain(b.llm.value, b.prompt.value, Some(memory)), Some(cm)))
  }

  /** `from_config`: only the `prompt_template` key is read. */
  function FromConfig(b: ChainBuilder, config: Dict<string, string>): (r: ChainBuilder)
    ensures HasKey(config, "prompt_template") ==> r == WithPromptTemplate(b, Get(config, "prompt_template").value)
    ensures !HasKey(config, "prompt_template") ==> r == b
  {
    match Get(config, "prompt_template")
    case Some(text) => WithPromptTemplate(b, text)
    case None => b
  }

  /** Building succeeds with prompt and model and fails with only one of them. */
  lemma BuildScenarios(llm: Llm, text: string)
    ensures var r := Build(WithLlm(WithPromptTemplate(NewChainBuilder(), text), llm));
      r.Success? && r.value.chain.llm == llm && r.value.chain.prompt.template == text
      && |r.value.contextManager.context| == 0
    ensures Build(WithPromptTemplate(NewChainBuilder(), text)).Failure?
    ensures Build(WithLlm(NewChainBuilder(), llm)).Failure?
  {
  }

  /** A stored context, an external context and a question all reach the
      model call. */
  lemma StepScenario(ic: InjectedChain, kw: Context, ext: Context, question: string)
    requires |ic.contextManager.context| == 0
    requires |kw| == 1 && |ext| == 1 && ext[0].0 != kw[0].0
    requires kw[0].0 != "input" && ext[0].0 != "input" && question != ""
    ensures var r := StepArguments(UpdateContext(ic, kw), Some(question), Some(ext));
      && r.Success?
      && Get(r.value, kw[0].0) == Some(kw[0].1)
      && Get(r.value, ext[0].0) == Some(ext[0].1)
      && Get(r.value, "input") == Some(question)
  {
    assert !HasKey(kw, "input");
    assert !HasKey(ext, "input");
    assert !HasKey(ext, kw[0].0);
    assert !HasKey(ic.contextManager.context, "input");
    var ic1 := UpdateContext(ic, kw);
    assert Get(ic1.contextManager.context, "input").None?;
  }

  /** On a key both contexts hold, the external value reaches the model. */
  lemma ExternalOverridesStored(ic: InjectedChain, kw: Context, ext: Context, question: string)
    requires |ic.contextManager.context| == 0
    requires |kw| == 1 && |ext| == 2 && ext[1].0 == kw[0].0
    requires kw[0].0 != "input" && ext[0].0 != "input" && question != ""
    ensures var r := StepArguments(UpdateContext(ic, kw), Some(question), Some(ext));
      && r.Success?
      && Get(r.value, ext[0].0) == Some(ext[0].1)
      && Get(r.value, kw[0].0) == Some(ext[1].1)
      && Get(r.value, "input") == Some(question)
  {
    assert !HasKey(kw, "input");
    assert !HasKey(ext, "input");
    assert !HasKey(ic.contextManager.context, "input");
    var ic1 := UpdateContext(ic, kw);
    assert Get(ic1.contextManager.context, "input").None?;
  }
}
