/** The game-state records and the in-memory session registry:
    `WorldState`, `CharacterState`, `GameSession` and `SessionStore`. */
module GameState {
  import opened Wrappers
  import opened Text
  import opened Dicts

  /** A clock reading; the model never inspects it. */
  type Time = int

  /** The fixed field names of both forms, in declaration order. */
  const WorldFieldNames: seq<string> := ["name", "geography", "history", "cultures", "magic_system"]
  const CharacterFieldNames: seq<string> :=
    ["name", "physical_appearance", "background", "internal_motivation", "unique_traits"]

  /** A world: five optional descriptive fields plus an open-ended
      `additional_info` extension map. */
  datatype WorldState = WorldState(
    name: Option<string>,
    geography: Option<string>,
    history: Option<string>,
    cultures: Option<string>,
    magicSystem: Option<string>,
    additionalInfo: Dict<string, string>)

  /** A player character, shaped like `WorldState`. */
  datatype CharacterState = CharacterState(
    name: Option<string>,
    physicalAppearance: Option<string>,
    background: Option<string>,
    internalMotivation: Option<string>,
    uniqueTraits: Option<string>,
    additionalInfo: Dict<string, string>)

  /** One `game_history` entry; `timestamp` is the ISO text of a clock reading. */
  datatype Message = Message(role: string, content: string, timestamp: string)

  datatype GameSession = GameSession(
    sessionId: string,
    world: WorldState,
    character: CharacterState,
    currentScene: Option<string>,
    history: seq<Message>,
    createdAt: Time,
    updatedAt: Time)

  /** The fixed fields of a world as `model_dump` yields them: declaration
      order, raw field names. */
  function WorldFields(w: WorldState): (fs: seq<(string, Option<string>)>)
    ensures |fs| == |WorldFieldNames|
    ensures forall i :: 0 <= i < |fs| ==> fs[i].0 == WorldFieldNames[i]
  {
    [("name", w.name), ("geography", w.geography), ("history", w.history),
     ("cultures", w.cultures), ("magic_system", w.magicSystem)]
  }

  function CharacterFields(c: CharacterState): (fs: seq<(string, Option<string>)>)
    ensures |fs| == |CharacterFieldNames|
    ensures forall i :: 0 <= i < |fs| ==> fs[i].0 == CharacterFieldNames[i]
  {
    [("name", c.name), ("physical_appearance", c.physicalAppearance),
     ("background", c.background), ("internal_motivation", c.internalMotivation),
     ("unique_traits", c.uniqueTraits)]
  }

  /** Every fixed field of a dump is absent. */
  predicate AllAbsent(fs: seq<(string, Option<string>)>) {
    forall i :: 0 <= i < |fs| ==> fs[i].1.None?
  }

  /** Every fixed field of a dump is truthy. */
  predicate AllTruthy(fs: seq<(string, Option<string>)>) {
    forall i :: 0 <= i < |fs| ==> Truthy(fs[i].1)
  }

  /** `WorldState()`: nothing known yet. */
  function NewWorldState(): (w: WorldState)
    ensures AllAbsent(WorldFields(w)) && |w.additionalInfo| == 0
  {
    WorldState(None, None, None, None, None, Empty())
  }

  /** `CharacterState()`: nothing known yet. */
  function NewCharacterState(): (c: CharacterState)
    ensures AllAbsent(CharacterFields(c)) && |c.additionalInfo| == 0
  {
    CharacterState(None, None, None, None, None, Empty())
  }

  /** `GameSession(session_id=id)`, both clock fields read as `now`. */
  function NewSession(id: string, now: Time): (s: GameSession)
    ensures s.sessionId == id && s.history == [] && s.currentScene.None?
    ensures AllAbsent(WorldFields(s.world)) && |s.world.additionalInfo| == 0
    ensures AllAbsent(CharacterFields(s.character)) && |s.character.additionalInfo| == 0
  {
    GameSession(id, NewWorldState(), NewCharacterState(), None, [], now, now)
  }

  /** `add_message`: one entry appended, the update time bumped. */
  function AddMessage(s: GameSession, role: string, content: string, stamp: string, now: Time): (r: GameSession)
    ensures |r.history| == |s.history| + 1
    ensures r.history[..|s.history|] == s.history
    ensures r.history[|s.history|] == Message(role, content, stamp)
    ensures r.updatedAt == now
    ensures r.(history := s.history, updatedAt := s.updatedAt) == s
  {
    s.(history := s.history + [Message(role, content, stamp)], updatedAt := now)
  }

  predicate IsWorldComplete(s: GameSession) {
    Truthy(s.world.name) && Truthy(s.world.geography) && Truthy(s.world.history)
    && Truthy(s.world.cultures) && Truthy(s.world.magicSystem)
  }

  predicate IsCharacterComplete(s: GameSession) {
    Truthy(s.character.name) && Truthy(s.character.physicalAppearance)
    && Truthy(s.character.background) && Truthy(s.character.internalMotivation)
    && Truthy(s.character.uniqueTraits)
  }

  predicate IsReadyForGame(s: GameSession) {
    IsWorldComplete(s) && IsCharacterComplete(s)
  }

  /** The world form is complete exactly when every declared world field is
      truthy; the extension map plays no part. */
  lemma WorldCompleteIffAllFieldsTruthy(s: GameSession)
    ensures IsWorldComplete(s) <==> AllTruthy(WorldFields(s.world))
  {
    var fs := WorldFields(s.world);
    if AllTruthy(fs) {
      assert Truthy(fs[0].1) && Truthy(fs[1].1) && Truthy(fs[2].1) && Truthy(fs[3].1) && Truthy(fs[4].1);
    }
  }

  lemma CharacterCompleteIffAllFieldsTruthy(s: GameSession)
    ensures IsCharacterComplete(s) <==> AllTruthy(CharacterFields(s.character))
  {
    var fs := CharacterFields(s.character);
    if AllTruthy(fs) {
      assert Truthy(fs[0].1) && Truthy(fs[1].1) && Truthy(fs[2].1) && Truthy(fs[3].1) && Truthy(fs[4].1);
    }
  }

  /** Readiness is both completions, and a new session is not ready. */
  lemma ReadyIffBothComplete(s: GameSession, id: string, now: Time)
    ensures IsReadyForGame(s) <==> AllTruthy(WorldFields(s.world)) && AllTruthy(CharacterFields(s.character))
    ensures !IsReadyForGame(NewSession(id, now))
    ensures !IsWorldComplete(NewSession(id, now)) && !IsCharacterComplete(NewSession(id, now))
  {
    WorldCompleteIffAllFieldsTruthy(s);
    CharacterCompleteIffAllFieldsTruthy(s);
  }

  // ---------------------------------------------------------------------
  // Session registry

  datatype SessionStore = SessionStore(sessions: Dict<string, GameSession>)

  /** Registry invariant: every session is stored under its own id. */
  predicate Keyed(st: SessionStore) {
    forall i :: 0 <= i < |st.sessions| ==> st.sessions[i].1.sessionId == st.sessions[i].0
  }

  function NewStore(): (st: SessionStore)
    ensures |st.sessions| == 0 && Keyed(st)
  {
    SessionStore(Empty())
  }

  /** `get_session`: the stored session or `None`. */
  function GetSession(st: SessionStore, id: string): (r: Option<GameSession>)
    ensures r.Some? <==> HasKey(st.sessions, id)
  {
    Get(st.sessions, id)
  }

  /** `create_session`: a new session stored under `id`, replacing any
      previous one; every other id is untouched. */
  function CreateSession(st: SessionStore, id: string, now: Time): (r: (SessionStore, GameSession))
    ensures r.1 == NewSession(id, now)
    ensures r.1.sessionId == id && r.1.history == [] && r.1.currentScene.None?
    ensures AllAbsent(WorldFields(r.1.world)) && |r.1.world.additionalInfo| == 0
    ensures AllAbsent(CharacterFields(r.1.character)) && |r.1.character.additionalInfo| == 0
    ensures GetSession(r.0, id) == Some(r.1)
    ensures forall other :: other != id ==> GetSession(r.0, other) == GetSession(st, other)
    ensures ListSessions(r.0) == if HasKey(st.sessions, id) then ListSessions(st) else ListSessions(st) + [id]
  {
    var s := NewSession(id, now);
    (SessionStore(Put(st.sessions, id, s)), s)
  }

  /** `update_session`: stamp the session and store it under its own id. */
  function UpdateSession(st: SessionStore, s: GameSession, now: Time): (r: SessionStore)
    ensures GetSession(r, s.sessionId) == Some(s.(updatedAt := now))
    ensures forall other :: other != s.sessionId ==> GetSession(r, other) == GetSession(st, other)
  {
    SessionStore(Put(st.sessions, s.sessionId, s.(updatedAt := now)))
  }

  /** `delete_session`: removes `id` and reports whether it was there. */
  function DeleteSession(st: SessionStore, id: string): (r: (SessionStore, bool))
    ensures r.1 <==> GetSession(st, id).Some?
    ensures GetSession(r.0, id).None?
    ensures forall other :: other != id ==> GetSession(r.0, other) == GetSession(st, other)
    ensures !r.1 ==> r.0 == st
  {
    if HasKey(st.sessions, id) then (SessionStore(Remove(st.sessions, id)), true)
    else (st, false)
  }

  /** `list_sessions`: the stored ids, each once, in insertion order. */
  function ListSessions(st: SessionStore): (ids: seq<string>)
    ensures forall id :: id in ids <==> GetSession(st, id).Some?
    ensures forall i, j :: 0 <= i < j < |ids| ==> ids[i] != ids[j]
    ensures |ids| == |st.sessions|
  {
    Keys(st.sessions)
  }

  /** In a keyed registry a lookup by id returns a session carrying that id. */
  lemma {:induction false} KeyedLookup(st: SessionStore, k: string)
    requires Keyed(st)
    ensures GetSession(st, k).Some? ==> GetSession(st, k).value.sessionId == k
  {
    if GetSession(st, k).Some? {
      var j :| 0 <= j < |st.sessions| && st.sessions[j].0 == k;
      assert GetSession(st, k) == Some(st.sessions[j].1);
    }
  }

  /** Creating a session keeps the registry keyed. */
  lemma {:induction false} CreateKeepsKeyed(st: SessionStore, id: string, now: Time)
    requires Keyed(st)
    ensures Keyed(CreateSession(st, id, now).0)
  {
    var c := CreateSession(st, id, now).0;
    forall i | 0 <= i < |c.sessions| ensures c.sessions[i].1.sessionId == c.sessions[i].0 {
      var k := c.sessions[i].0;
      assert GetSession(c, k) == Some(c.sessions[i].1);
      if k != id {
        KeyedLookup(st, k);
      }
    }
  }

  /** Updating a session keeps the registry keyed. */
  lemma {:induction false} UpdateKeepsKeyed(st: SessionStore, s: GameSession, now: Time)
    requires Keyed(st)
    ensures Keyed(UpdateSession(st, s, now))
  {
    var u := UpdateSession(st, s, now);
    forall i | 0 <= i < |u.sessions| ensures u.sessions[i].1.sessionId == u.sessions[i].0 {
      var k := u.sessions[i].0;
      assert GetSession(u, k) == Some(u.sessions[i].1);
      if k != s.sessionId {
        KeyedLookup(st, k);
      }
    }
  }

  /** Deleting a session keeps the registry keyed. */
  lemma {:induction false} DeleteKeepsKeyed(st: SessionStore, id: string)
    requires Keyed(st)
    ensures Keyed(DeleteSession(st, id).0)
  {
    var d := DeleteSession(st, id).0;
    forall i | 0 <= i < |d.sessions| ensures d.sessions[i].1.sessionId == d.sessions[i].0 {
      var k := d.sessions[i].0;
      assert GetSession(d, k) == Some(d.sessions[i].1);
      KeyedLookup(st, k);
    }
  }

  /** Create then get returns the created session; deleting it makes get
      absent again and a second delete reports false. */
  lemma CreateGetDelete(st: SessionStore, id: string, now: Time)
    ensures var (st1, s) := CreateSession(st, id, now);
      && GetSession(st1, id) == Some(s) && s.sessionId == id
      && var (st2, deleted) := DeleteSession(st1, id);
      && deleted && GetSession(st2, id).None?
      && DeleteSession(st2, id) == (st2, false)
  {
  }

  /** Two creations in a fresh registry list exactly those two ids. */
  lemma ListAfterTwoCreates(a: string, b: string, now: Time)
    requires a != b
    ensures ListSessions(NewStore()) == []
    ensures ListSessions(CreateSession(CreateSession(NewStore(), a, now).0, b, now).0) == [a, b]
  {
    var st1 := CreateSession(NewStore(), a, now).0;
    assert ListSessions(st1) == [a];
  }
}
