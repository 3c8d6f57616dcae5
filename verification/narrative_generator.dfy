/** The narrative agent (`NarrativeGeneratorAgent`): the per-session
    transcript registry, the input guards, game-over detection by marker and
    the purge of a finished session's transcript. The model call is the
    parameter `invoke` (it sees the session's stored transcript), the text
    stream is the parameter `stream`, and the JSON dumps of the two states
    are the parameters `dumpWorld` and `dumpCharacter`. */
module Narrative {
  import opened Wrappers
  import opened Text
  import opened Dicts
  import opened GameState
  import opened Templates
  import opened Chains

  const TemplateName: string := "narrative_generator"
  const GameOverMarker: string := "游戏结束"
  const InnerMonologuePlaceholder: string := "N/A in non-structured streaming mode."
  const InvalidInputMessage: string := "需要提供有效的游戏会话和用户输入"
  const TemplateMissingMessage: string := "无法加载 'narrative_generator' 模板"

  /** `message_histories`: one chat transcript per session id. */
  type Histories = Dict<string, seq<ChatMessage>>

  /** `get_session_history`: the stored transcript, created empty on first use. */
  function GetSessionHistory(h: Histories, id: string): (r: (Histories, seq<ChatMessage>))
    ensures HasKey(h, id) ==> r.0 == h && Get(h, id) == Some(r.1)
    ensures !HasKey(h, id) ==> r.1 == [] && Keys(r.0) == Keys(h) + [id]
    ensures Get(r.0, id) == Some(r.1)
    ensures forall other :: other != id ==> Get(r.0, other) == Get(h, other)
  {
    match Get(h, id)
    case Some(hist) => (h, hist)
    case None => (Put(h, id, []), [])
  }

  /** A second lookup finds what the first one stored and changes nothing. */
  lemma GetSessionHistoryStable(h: Histories, id: string)
    ensures var (h1, hist1) := GetSessionHistory(h, id);
      GetSessionHistory(h1, id) == (h1, hist1)
  {
  }

  /** The narrative chain: the system template and the model. */
  datatype NarrativeAgent = NarrativeAgent(llm: Llm, systemTemplate: string)

  datatype NarrativeError =
    | TemplateUnavailable
    | InvalidInput
    | InvocationFailed(detail: string)

  /** The text `str(e)` gives for each error. */
  function ErrorMessage(e: NarrativeError): string {
    match e
    case TemplateUnavailable => TemplateMissingMessage
    case InvalidInput => InvalidInputMessage
    case InvocationFailed(detail) => detail
  }

  /** `_setup_chain` as run by the constructor: a falsy `zh` template is an error. */
  function NewNarrativeAgent(pm: PromptManager, llm: Llm): (r: Result<NarrativeAgent, NarrativeError>)
    ensures r.Failure? <==> !Truthy(GetTemplate(pm, TemplateName, DefaultLanguage))
    ensures r.Failure? ==> r.error == TemplateUnavailable
    ensures r.Success? ==> r.value == NarrativeAgent(llm, GetTemplate(pm, TemplateName, DefaultLanguage).value)
  {
    var t := GetTemplate(pm, TemplateName, DefaultLanguage);
    if !Truthy(t) then Failure(TemplateUnavailable) else Success(NarrativeAgent(llm, t.value))
  }

  /** `NarrativeResponse`. */
  datatype NarrativeResponse = NarrativeResponse(narrative: string, innerMonologue: string, isGameOver: bool)

  /** The variables the chain receives besides the transcript. */
  datatype NarrativeInput = NarrativeInput(gameContext: string, userInput: string)

  /** `_format_game_context`: the two JSON dumps under fixed headings. */
  function FormatGameContext(w: WorldState, c: CharacterState,
                             dumpWorld: WorldState -> string, dumpCharacter: CharacterState -> string): string
  {
    "### 世界设定\n" + dumpWorld(w) + "\n\n### 角色卡\n" + dumpCharacter(c)
  }

  /** Game over is the marker occurring anywhere in the text. */
  predicate IsGameOver(text: string) {
    Contains(text, GameOverMarker)
  }

  /** The reply as `process` builds it. */
  function ToResponse(text: string): (r: NarrativeResponse)
    ensures r.narrative == text
    ensures r.innerMonologue == InnerMonologuePlaceholder
    ensures r.isGameOver <==> exists i | 0 <= i <= |text| - |GameOverMarker| :: OccursAt(text, GameOverMarker, i)
  {
    NarrativeResponse(text, InnerMonologuePlaceholder, IsGameOver(text))
  }

  /** The end-of-turn purge: a finished game drops that session's
      transcript; otherwise the registry is left as it is. */
  function Cleanup(h: Histories, id: string, gameOver: bool): (r: Histories)
    ensures gameOver ==> !HasKey(r, id)
    ensures !gameOver ==> r == h
    ensures forall other :: other != id ==> Get(r, other) == Get(h, other)
  {
    if gameOver && HasKey(h, id) then Remove(h, id) else h
  }

  /** `process`. `session` is `None` when the value is not a `GameSession`
      and `userInput` is `None` when it is not a string. */
  function Process(agent: NarrativeAgent, session: Option<GameSession>, userInput: Option<string>, h: Histories,
                   dumpWorld: WorldState -> string, dumpCharacter: CharacterState -> string,
                   invoke: (NarrativeAgent, NarrativeInput, seq<ChatMessage>) -> Result<string, string>)
    : (r: (Result<NarrativeResponse, NarrativeError>, Histories))
    ensures session.None? || userInput.None? ==> r == (Failure(InvalidInput), h)
    ensures session.Some? && userInput.Some? ==>
      var s := session.value;
      var (h1, hist) := GetSessionHistory(h, s.sessionId);
      var input := NarrativeInput(FormatGameContext(s.world, s.character, dumpWorld, dumpCharacter), userInput.value);
      match invoke(agent, input, hist)
      case Failure(e) => r == (Failure(InvocationFailed(e)), h1)
      case Success(text) => r.0 == Success(ToResponse(text)) && r.1 == Cleanup(h1, s.sessionId, IsGameOver(text))
  {
    if session.None? || userInput.None? then (Failure(InvalidInput), h)
    else
      var s := session.value;
      var (h1, hist) := GetSessionHistory(h, s.sessionId);
      var input := NarrativeInput(FormatGameContext(s.world, s.character, dumpWorld, dumpCharacter), userInput.value);
      match invoke(agent, input, hist)
      case Failure(e) => (Failure(InvocationFailed(e)), h1)
      case Success(text) =>
        var resp := ToResponse(text);
        (Success(resp), Cleanup(h1, s.sessionId, resp.isGameOver))
  }

  /** After a successful turn the session has a transcript exactly when the
      game is not over; every other session's transcript is untouched. */
  lemma TurnPurgesOnlyFinishedSession(agent: NarrativeAgent, s: GameSession, userInput: string, h: Histories,
                                      dumpWorld: WorldState -> string, dumpCharacter: CharacterState -> string,
                                      invoke: (NarrativeAgent, NarrativeInput, seq<ChatMessage>) -> Result<string, string>)
    ensures var (res, h') := Process(agent, Some(s), Some(userInput), h, dumpWorld, dumpCharacter, invoke);
      && (res.Success? ==> (HasKey(h', s.sessionId) <==> !res.value.isGameOver))
      && (res.Failure? ==> HasKey(h', s.sessionId))
      && forall other :: other != s.sessionId ==> Get(h', other) == Get(h, other)
  {
  }

  /** A text carrying the marker ends the game; one without it does not. */
  lemma GameOverScenario(prefix: string, suffix: string)
    ensures ToResponse(prefix + GameOverMarker + suffix).isGameOver
    ensures !ToResponse("你走进了森林。").isGameOver
  {
    var t := prefix + GameOverMarker + suffix;
    assert OccursAt(t, GameOverMarker, |prefix|) by {
      assert t[|prefix|..|prefix| + |GameOverMarker|] == GameOverMarker;
    }
    var q := "你走进了森林。";
    forall i | 0 <= i <= |q| - |GameOverMarker| ensures !OccursAt(q, GameOverMarker, i) {
      assert q[i] != GameOverMarker[0];
    }
  }

  /** What a stream delivered: its text chunks in order and, when it
      raised part-way, the message of the exception. */
  datatype Stream = Stream(chunks: seq<string>, error: Option<string>)

  /** `stream_process`: the chunks pass through unchanged; a guard failure
      surfaces as an exception before the first chunk. No purge happens here. */
  function StreamProcess(agent: NarrativeAgent, session: Option<GameSession>, userInput: Option<string>, h: Histories,
                         dumpWorld: WorldState -> string, dumpCharacter: CharacterState -> string,
                         stream: (NarrativeAgent, NarrativeInput, seq<ChatMessage>) -> Stream)
    : (r: (Stream, Histories))
    ensures session.None? || userInput.None? ==> r == (Stream([], Some(InvalidInputMessage)), h)
    ensures session.Some? && userInput.Some? ==>
      var s := session.value;
      var (h1, hist) := GetSessionHistory(h, s.sessionId);
      && r.1 == h1 && HasKey(r.1, s.sessionId)
      && r.0 == stream(agent, NarrativeInput(FormatGameContext(s.world, s.character, dumpWorld, dumpCharacter), userInput.value), hist)
  {
    if session.None? || userInput.None? then (Stream([], Some(InvalidInputMessage)), h)
    else
      var s := session.value;
      var (h1, hist) := GetSessionHistory(h, s.sessionId);
      (stream(agent, NarrativeInput(FormatGameContext(s.world, s.character, dumpWorld, dumpCharacter), userInput.value), hist), h1)
  }
}
