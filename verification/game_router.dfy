/** The game endpoints: `play_turn` (guards, the narrative turn, deletion
    of a finished session) and the frame sequence of `play_turn_stream`'s
    generator. `json.dumps` of the error payload is the parameter
    `encodeError`; the narrative agent cache is an `Option`. */
module GameRouter {
  import opened Wrappers
  import opened Text
  import opened Dicts
  import opened GameState
  import opened Chains
  import opened Narrative

  const NotReadyMessage: string := "游戏尚未准备就绪。请先完成世界和角色的创建。"
  const AgentMissingMessage: string := "核心叙事Agent未初始化"
  const TurnErrorPrefix: string := "处理游戏回合时发生错误: "
  const DoneFrame: string := "data: [DONE]\n\n"

  datatype GamePlayRequest = GamePlayRequest(sessionId: string, userInput: string)

  datatype HttpError = HttpError(status: int, detail: string)

  function NotFoundMessage(id: string): string {
    "会话 '" + id + "' 不存在"
  }

  /** The guards both endpoints apply before any model work. */
  function CheckRequest(store: SessionStore, agent: Option<NarrativeAgent>, req: GamePlayRequest)
    : (r: Result<(GameSession, NarrativeAgent), HttpError>)
    ensures GetSession(store, req.sessionId).None? ==> r == Failure(HttpError(404, NotFoundMessage(req.sessionId)))
    ensures GetSession(store, req.sessionId).Some? && !IsReadyForGame(GetSession(store, req.sessionId).value)
            ==> r == Failure(HttpError(400, NotReadyMessage))
    ensures GetSession(store, req.sessionId).Some? && IsReadyForGame(GetSession(store, req.sessionId).value) && agent.None?
            ==> r == Failure(HttpError(500, AgentMissingMessage))
    ensures r.Success? <==> GetSession(store, req.sessionId).Some? && IsReadyForGame(GetSession(store, req.sessionId).value) && agent.Some?
    ensures r.Success? ==> r.value == (GetSession(store, req.sessionId).value, agent.value)
  {
    match GetSession(store, req.sessionId)
    case None => Failure(HttpError(404, NotFoundMessage(req.sessionId)))
    case Some(s) =>
      if !IsReadyForGame(s) then Failure(HttpError(400, NotReadyMessage))
      else if agent.None? then Failure(HttpError(500, AgentMissingMessage))
      else Success((s, agent.value))
  }

  /** The registries `play_turn` touches. */
  datatype ServerState = ServerState(store: SessionStore, histories: Histories)

  /** `play_turn`. A failing turn becomes a 500 and deletes nothing; a
      finished game deletes the session from the store. */
  function PlayTurn(st: ServerState, agent: Option<NarrativeAgent>, req: GamePlayRequest,
                    dumpWorld: WorldState -> string, dumpCharacter: CharacterState -> string,
                    invoke: (NarrativeAgent, NarrativeInput, seq<ChatMessage>) -> Result<string, string>)
    : (r: (Result<NarrativeResponse, HttpError>, ServerState))
    ensures CheckRequest(st.store, agent, req).Failure? ==> r == (Failure(CheckRequest(st.store, agent, req).error), st)
    ensures CheckRequest(st.store, agent, req).Success? ==>
      var (s, a) := CheckRequest(st.store, agent, req).value;
      var (res, h) := Narrative.Process(a, Some(s), Some(req.userInput), st.histories, dumpWorld, dumpCharacter, invoke);
      && r.1.histories == h
      && (res.Failure? ==> r.0 == Failure(HttpError(500, TurnErrorPrefix + ErrorMessage(res.error))) && r.1.store == st.store)
      && (res.Success? ==>
            && r.0 == Success(res.value)
            && r.1.store == if res.value.isGameOver then DeleteSession(st.store, req.sessionId).0 else st.store)
  {
    match CheckRequest(st.store, agent, req)
    case Failure(e) => (Failure(e), st)
    case Success((s, a)) =>
      var (res, h) := Narrative.Process(a, Some(s), Some(req.userInput), st.histories, dumpWorld, dumpCharacter, invoke);
      match res
      case Failure(e) => (Failure(HttpError(500, TurnErrorPrefix + ErrorMessage(e))), ServerState(st.store, h))
      case Success(resp) =>
        var store := if resp.isGameOver then DeleteSession(st.store, req.sessionId).0 else st.store;
        (Success(resp), ServerState(store, h))
  }

  /** After a turn the session is still stored exactly when the turn did
      not end the game; other sessions are untouched either way. */
  lemma PlayTurnDeletesIffGameOver(st: ServerState, agent: Option<NarrativeAgent>, req: GamePlayRequest,
                                   dumpWorld: WorldState -> string, dumpCharacter: CharacterState -> string,
                                   invoke: (NarrativeAgent, NarrativeInput, seq<ChatMessage>) -> Result<string, string>)
    ensures var (res, st') := PlayTurn(st, agent, req, dumpWorld, dumpCharacter, invoke);
      && (res.Success? ==> (GetSession(st'.store, req.sessionId).Some? <==> !res.value.isGameOver))
      && (res.Failure? ==> st'.store == st.store)
      && forall other :: other != req.sessionId ==> GetSession(st'.store, other) == GetSession(st.store, other)
  {
  }

  // ---------------------------------------------------------------------
  // The stream generator

  function DataFrame(text: string): string {
    "data: " + text + "\n\n"
  }

  /** The chunks the generator keeps: the non-empty ones, in order. */
  function NonEmpty(chunks: seq<string>): (kept: seq<string>)
    ensures |kept| <= |chunks|
    ensures forall i :: 0 <= i < |kept| ==> kept[i] != "" && kept[i] in chunks
    ensures forall c :: c in chunks && c != "" ==> c in kept
    decreases |chunks|
  {
    if |chunks| == 0 then []
    else (if chunks[0] == "" then [] else [chunks[0]]) + NonEmpty(chunks[1..])
  }

  /** Dropping empty chunks does not change the joined text. */
  lemma {:induction false} ConcatNonEmpty(chunks: seq<string>)
    ensures Concat(NonEmpty(chunks)) == Concat(chunks)
    decreases |chunks|
  {
    if |chunks| > 0 {
      ConcatNonEmpty(chunks[1..]);
      if chunks[0] != "" {
        assert NonEmpty(chunks) == [chunks[0]] + NonEmpty(chunks[1..]);
        assert ([chunks[0]] + NonEmpty(chunks[1..]))[1..] == NonEmpty(chunks[1..]);
      } else {
        assert NonEmpty(chunks) == NonEmpty(chunks[1..]);
        assert Concat(chunks) == "" + Concat(chunks[1..]);
      }
    }
  }

  /** One data frame per kept chunk, in order. */
  function DataFrames(kept: seq<string>): (frames: seq<string>)
    ensures |frames| == |kept|
    ensures forall i :: 0 <= i < |kept| ==> frames[i] == DataFrame(kept[i])
  {
    seq(|kept|, i requires 0 <= i < |kept| => DataFrame(kept[i]))
  }

  /** What the generator yields and leaves behind. */
  datatype StreamOutcome = StreamOutcome(frames: seq<string>, store: SessionStore)

  /** `stream_generator` over a delivered stream: data frames for the
      non-empty chunks, then an error frame if the stream raised, then the
      closing frame; the session is deleted only after a clean stream whose
      text carries the game-over marker. */
  function StreamGenerator(store: SessionStore, id: string, s: Stream, encodeError: string -> string): (r: StreamOutcome)
    ensures var kept := NonEmpty(s.chunks);
      && |r.frames| == |kept| + (if s.error.Some? then 1 else 0) + 1
      && (forall i :: 0 <= i < |kept| ==> r.frames[i] == DataFrame(kept[i]))
      && (s.error.Some? ==> r.frames[|kept|] == DataFrame(encodeError(TurnErrorPrefix + s.error.value)))
      && r.frames[|r.frames| - 1] == DoneFrame
    ensures r.store == if s.error.None? && Contains(Concat(s.chunks), GameOverMarker)
                       then DeleteSession(store, id).0 else store
  {
    var kept := NonEmpty(s.chunks);
    ConcatNonEmpty(s.chunks);
    match s.error
    case Some(e) =>
      StreamOutcome(DataFrames(kept) + [DataFrame(encodeError(TurnErrorPrefix + e))] + [DoneFrame], store)
    case None =>
      var store' := if Contains(Concat(kept), GameOverMarker) then DeleteSession(store, id).0 else store;
      StreamOutcome(DataFrames(kept) + [DoneFrame], store')
  }

  /** The closing frame appears once, at the end, unless a chunk is itself
      the text `[DONE]` or the encoded error is: no other frame can equal it. */
  lemma DoneOnlyAtEnd(store: SessionStore, id: string, s: Stream, encodeError: string -> string)
    ensures var r := StreamGenerator(store, id, s, encodeError);
      var kept := NonEmpty(s.chunks);
      forall i :: 0 <= i < |r.frames| - 1 && r.frames[i] == DoneFrame ==>
        (i < |kept| && kept[i] == "[DONE]") || (i == |kept| && encodeError(TurnErrorPrefix + s.error.value) == "[DONE]")
  {
    var r := StreamGenerator(store, id, s, encodeError);
    var kept := NonEmpty(s.chunks);
    assert DoneFrame == DataFrame("[DONE]");
    forall i | 0 <= i < |r.frames| - 1 && r.frames[i] == DoneFrame
      ensures (i < |kept| && kept[i] == "[DONE]") || (i == |kept| && encodeError(TurnErrorPrefix + s.error.value) == "[DONE]")
    {
      var t := if i < |kept| then kept[i] else encodeError(TurnErrorPrefix + s.error.value);
      DataFrameInjective(t, "[DONE]");
    }
  }

  /** Distinct texts give distinct frames. */
  lemma DataFrameInjective(t: string, u: string)
    ensures DataFrame(t) == DataFrame(u) ==> t == u
  {
    if DataFrame(t) == DataFrame(u) {
      assert DataFrame(t)[6..|DataFrame(t)| - 2] == t;
      assert DataFrame(u)[6..|DataFrame(u)| - 2] == u;
    }
  }

  /** An empty stream yields only the closing frame and deletes nothing; a
      stream that raised deletes nothing. */
  lemma StreamEdgeCases(store: SessionStore, id: string, chunks: seq<string>, e: string, encodeError: string -> string)
    ensures StreamGenerator(store, id, Stream([], None), encodeError) == StreamOutcome([DoneFrame], store)
    ensures StreamGenerator(store, id, Stream(chunks, Some(e)), encodeError).store == store
    ensures StreamGenerator(store, id, Stream(["", ""], None), encodeError).frames == [DoneFrame]
  {
    assert !Contains("", GameOverMarker);
    assert NonEmpty(["", ""]) == [] by {
      assert ["", ""][1..] == [""];
      assert [""][1..] == [];
    }
    assert Concat(["", ""]) == "" by {
      assert ["", ""][1..] == [""];
      assert [""][1..] == [];
    }
  }

  /** A marker split across two chunks still ends the game: deletion looks
      at the joined text, not at single chunks. */
  lemma SplitMarkerDeletes(store: SessionStore, id: string, encodeError: string -> string)
    ensures var s := Stream(["故事到此", "游戏", "结束"], None);
      StreamGenerator(store, id, s, encodeError).store == DeleteSession(store, id).0
  {
    var chunks := ["故事到此", "游戏", "结束"];
    assert chunks[1..][1..][1..] == [];
    assert Concat(chunks) == "故事到此" + ("游戏" + ("结束" + ""));
    var t := Concat(chunks);
    assert t == "故事到此游戏结束";
    assert OccursAt(t, GameOverMarker, 4) by {
      assert t[4..8] == GameOverMarker;
    }
  }

  /** `play_turn_stream`: the same guards as `play_turn`, then the generator
      over the narrative stream of that session. */
  function PlayTurnStream(st: ServerState, agent: Option<NarrativeAgent>, req: GamePlayRequest,
                          dumpWorld: WorldState -> string, dumpCharacter: CharacterState -> string,
                          stream: (NarrativeAgent, NarrativeInput, seq<ChatMessage>) -> Stream,
                          encodeError: string -> string)
    : (r: (Result<seq<string>, HttpError>, ServerState))
    ensures CheckRequest(st.store, agent, req).Failure? ==> r == (Failure(CheckRequest(st.store, agent, req).error), st)
    ensures CheckRequest(st.store, agent, req).Success? ==>
      var (s, a) := CheckRequest(st.store, agent, req).value;
      var (delivered, h) := StreamProcess(a, Some(s), Some(req.userInput), st.histories, dumpWorld, dumpCharacter, stream);
      var out := StreamGenerator(st.store, req.sessionId, delivered, encodeError);
      r == (Success(out.frames), ServerState(out.store, h))
  {
    match CheckRequest(st.store, agent, req)
    case Failure(e) => (Failure(e), st)
    case Success((s, a)) =>
      var (delivered, h) := StreamProcess(a, Some(s), Some(req.userInput), st.histories, dumpWorld, dumpCharacter, stream);
      var out := StreamGenerator(st.store, req.sessionId, delivered, encodeError);
      (Success(out.frames), ServerState(out.store, h))
  }
  /** `play_turn_stream` end to end, in terms of what the narrative stream
      delivers for the session: a guard failure changes nothing; otherwise
      the response ends with the closing frame after one data frame per
      non-empty chunk, the session leaves the store exactly when the stream
      did not raise and its joined text carries the marker, no other
      session is touched, and the session keeps its narrative transcript. */
  lemma PlayTurnStreamEndToEnd(st: ServerState, agent: Option<NarrativeAgent>, req: GamePlayRequest,
                               dumpWorld: WorldState -> string, dumpCharacter: CharacterState -> string,
                               stream: (NarrativeAgent, NarrativeInput, seq<ChatMessage>) -> Stream,
                               encodeError: string -> string)
    ensures var (res, st') := PlayTurnStream(st, agent, req, dumpWorld, dumpCharacter, stream, encodeError);
      && (CheckRequest(st.store, agent, req).Failure? ==> res.Failure? && st' == st)
      && (CheckRequest(st.store, agent, req).Success? ==>
            var (s, a) := CheckRequest(st.store, agent, req).value;
            var (h1, hist) := GetSessionHistory(st.histories, s.sessionId);
            var d := stream(a, NarrativeInput(FormatGameContext(s.world, s.character, dumpWorld, dumpCharacter), req.userInput), hist);
            var kept := NonEmpty(d.chunks);
            && res.Success?
            && |res.value| == |kept| + (if d.error.Some? then 1 else 0) + 1
            && (forall i :: 0 <= i < |kept| ==> res.value[i] == DataFrame(kept[i]))
            && res.value[|res.value| - 1] == DoneFrame
            && (GetSession(st'.store, req.sessionId).None? <==> d.error.None? && Contains(Concat(d.chunks), GameOverMarker))
            && (forall other :: other != req.sessionId ==> GetSession(st'.store, other) == GetSession(st.store, other))
            && st'.histories == h1 && HasKey(st'.histories, s.sessionId))
  {
  }
}
