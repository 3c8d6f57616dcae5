# AI-DM form engine in Dafny

AI-DM is a game master driven by a language model. Before play starts, it
collects a world and a player character through multi-turn conversations
that fill in forms. Then it runs a free-text narrative loop. This project
models the deterministic part of that engine as pure Dafny functions over
immutable datatypes, and proves properties of them. The language model is a
function parameter (an oracle), and so are `json.loads`, `json.dumps`,
pydantic's JSON dump, the Jinja renderer and the text stream.

Modules, one per source file plus three shared helpers:

- `Wrappers`: `Option` (Python's `None`-or-value) and `Result` (a value or a raised error).
- `Text`: truthiness of an optional string, `sep.join`, the `in` substring test, `str.strip`.
- `Dicts`: Python dictionaries as insertion-ordered association lists with distinct keys. Digests, `list_sessions` and `get_available_templates` all depend on dict order.
- `GameState`: `WorldState`, `CharacterState`, `GameSession` and the `SessionStore` registry.
- `Templates`: the `PromptManager` registry. The directory walk is an input: its entries in walk order, each with its text or `None` for a failed read.
- `Chains`: `ContextManager`, `InjectedChain` (context combination in `step`, transcript rendering) and `ChainBuilder`.
- `FormAgent`: the generic `FormBasedAgent`, as a table of hooks (`FormHooks`) that a form type supplies to a shared pipeline.
- `CharacterManager`: the character form, which instantiates the hook table.
- `WorldBuilder`: the older world builder, with its hard-coded digest, brace-span scanner and attribute-copy merge.
- `Narrative`: the narrative agent's transcript registry, input guards, game-over detection and purge.
- `GameRouter`: `play_turn`, and the frame sequence of `play_turn_stream`'s generator.

The two game endpoints behave differently in a few places, and the model
follows the code in each:

- The narrative loop's streaming path never purges the session's transcript on game over. Only the router deletes the session from the session store.
- The router runs the game-over check only after a stream that did not raise. A stream that raised deletes nothing.
- A chunk whose text is `[DONE]` produces a frame equal to the closing frame. So "exactly one `[DONE]`" is stated as: no frame before the last equals the closing frame unless a chunk, or the encoded error, is the text `[DONE]` (`GameRouter.DoneOnlyAtEnd`).
- The transcript appends are done by the model-history wrapper, not by the code shown. The registry here records only that a transcript exists.

## Model

| member | source | states |
|---|---|---|
| GameState.WorldFields | backend/app/models/game_state.py:8-15 | the dump of a world lists the five fixed fields in declaration order, under their raw names |
| GameState.CharacterFields | backend/app/models/game_state.py:21-28 | the dump of a character lists the five fixed fields in declaration order, under their raw names |
| GameState.NewWorldState | backend/app/models/game_state.py:8-18 | a fresh world has every fixed field `None` and an empty extension map |
| GameState.NewCharacterState | backend/app/models/game_state.py:21-31 | a fresh character has every fixed field `None` and an empty extension map |
| GameState.NewSession | backend/app/models/game_state.py:34-49 | a fresh session carries its id, an empty history, no scene, and fresh world and character |
| GameState.AddMessage | backend/app/models/game_state.py:51-56 | exactly one entry is appended at the end, earlier entries are unchanged, the update time becomes `now`, and nothing else changes |
| GameState.WorldCompleteIffAllFieldsTruthy | backend/app/models/game_state.py:58-68 | the world is complete iff every fixed world field is truthy; the extension map plays no part |
| GameState.CharacterCompleteIffAllFieldsTruthy | backend/app/models/game_state.py:70-80 | the character is complete iff every fixed character field is truthy |
| GameState.ReadyIffBothComplete | backend/app/models/game_state.py:82-84 | ready iff both forms are complete; a new session is neither complete nor ready |
| GameState.NewStore | backend/app/models/game_state.py:90-91 | a new registry is empty |
| GameState.GetSession | backend/app/models/game_state.py:99-101 | a lookup finds a session iff the id is stored |
| GameState.CreateSession | backend/app/models/game_state.py:93-97 | the new session is a fresh `GameSession` for the id: no history, no scene, no field set and empty extension maps; it replaces any entry under that id; other ids are untouched; a new id is listed last |
| GameState.UpdateSession | backend/app/models/game_state.py:103-106 | the stamped session is stored under its own id; other ids are untouched |
| GameState.DeleteSession | backend/app/models/game_state.py:108-113 | reports true iff the id was stored; the id is absent afterwards; other ids are untouched; on false the registry is unchanged |
| GameState.ListSessions | backend/app/models/game_state.py:115-117 | the listing holds exactly the stored ids, each once, one per entry |
| GameState.KeyedLookup | backend/app/models/game_state.py:99-101 | in a registry keyed by session id, a lookup by id returns a session carrying that id |
| GameState.CreateKeepsKeyed | backend/app/models/game_state.py:93-97 | creation keeps every session stored under its own id |
| GameState.UpdateKeepsKeyed | backend/app/models/game_state.py:103-106 | update keeps every session stored under its own id |
| GameState.DeleteKeepsKeyed | backend/app/models/game_state.py:108-113 | deletion keeps every session stored under its own id |
| GameState.CreateGetDelete | backend/app/models/game_state.py:93-113 | create then get returns the created session; delete removes it; a second delete reports false and changes nothing |
| GameState.ListAfterTwoCreates | backend/tests/unit/test_game_state.py:56-66 | an empty registry lists nothing; two creations list their two ids in creation order |
| Dicts.Get | backend/app/models/game_state.py:99-101 | `d.get(k)` finds a value iff the key is present, and the value is the one stored with that key |
| Dicts.Put | backend/app/models/game_state.py:96 | `d[k] = v` stores `v` under `k`; other keys keep their values; a new key goes last and an existing key keeps its place |
| Dicts.Remove | backend/app/models/game_state.py:110-111 | `del d[k]` makes `k` absent, keeps every other lookup, and keeps the order of the remaining keys |
| Dicts.Update | backend/app/core/chain_builder.py:79 | `{**d, **e}` looks a key up in `e` first and in `d` otherwise, and keeps every key of `d` |
| Templates.LastDot | backend/app/core/template_manager.py:28 | the position of the last dot, or none, as the suffix rule of `Path.stem` needs |
| Templates.StemOfTxt | backend/app/core/template_manager.py:27-28 | a `*.txt` file's category is its name without `.txt`, except for the bare name `.txt` |
| Templates.Language | backend/app/core/template_manager.py:29-32 | a file directly in `agents/` gets `zh`; a file in another directory gets that directory's name |
| Templates.GetTemplate | backend/app/core/template_manager.py:45-47 | a template is found only under a stored category |
| Templates.LoadIntoLookup | backend/app/core/template_manager.py:26-40 | after the scan, each (category, language) holds the text of the last readable `*.txt` entry providing it; otherwise the earlier content is kept |
| Templates.LoadIntoCategories | backend/app/core/template_manager.py:26-40 | a category is present after the scan iff it was before or some readable `*.txt` entry has it as its stem |
| Templates.MissingDirectoryLoadsNothing | backend/app/core/template_manager.py:19-24 | a missing `agents/` directory yields no template at all |
| Templates.RenderTemplate | backend/app/core/template_manager.py:49-56 | fails iff the lookup is falsy or the template engine fails on the stored text; a falsy lookup is the not-found error naming the category and language, and an engine failure is passed on as a render error; otherwise the result is the engine's text |
| Templates.ValidateTemplate | backend/app/core/template_manager.py:62-65 | true iff the template exists and is not only whitespace |
| Templates.GetAvailableTemplates | backend/app/core/template_manager.py:58-60 | the listing holds exactly the stored categories, each once |
| Templates.ReloadTemplates | backend/app/core/template_manager.py:67-70 | after a reload, each lookup gives what the new scan alone provides: nothing from before the reload survives |
| Templates.ValidPassesLookupGuard | backend/app/core/template_manager.py:49-65 | a template that validates always passes the lookup guard: it renders iff the engine accepts it, and any failure is a render error, never not-found |
| Templates.ScenarioProvides | backend/tests/unit/test_prompt_manager.py:12-27 | in the test's directory layout the top-level file is `zh`, the `en/` file is `en`, and an unknown category is provided by nothing |
| Templates.LoadScenario | backend/tests/unit/test_prompt_manager.py:35-103 | the test registry returns both language variants; it rejects the whitespace-only template on validation, yet that template passes the lookup guard and fails only if the engine does; rendering an unknown category is the not-found error |
| Chains.NewContextManager | backend/app/core/chain_builder.py:16-17 | a new manager holds an empty context |
| Chains.SetContext | backend/app/core/chain_builder.py:19-21 | new keys override; every other stored key keeps its value; no key is lost |
| Chains.ClearContext | backend/app/core/chain_builder.py:27-29 | after clearing, no key is present |
| Chains.ContextCopyScenario | backend/tests/unit/test_chain_builder.py:14-49 | changing the copy `get_context` returns does not change the stored context, and clearing empties it |
| Chains.NewInjectedChain | backend/app/core/chain_builder.py:35-39 | the given manager is kept; without one, a fresh empty manager is used |
| Chains.InjectPrompt | backend/app/core/chain_builder.py:45-48 | only the template text changes; the model, the memory and the context are kept |
| Chains.TranscriptLines | backend/app/core/chain_builder.py:58-65 | at most one line per message |
| Chains.TranscriptLinesAppend | backend/app/core/chain_builder.py:58-65 | the transcript of a longer conversation extends the transcript of its start |
| Chains.TranscriptOfOne | backend/app/core/chain_builder.py:60-64 | a human message renders as `User: c`, an AI message as `AI: c`, and any other message renders as nothing |
| Chains.RetrieveMemory | backend/app/core/chain_builder.py:50-67 | an unreachable memory yields `[]` even when a string was asked for; otherwise the messages, or their transcript joined by newlines |
| Chains.StepArguments | backend/app/core/chain_builder.py:69-84 | stored context overlaid by external context (external wins); `input` is the user input iff it is truthy; a second `input` is an error exactly then |
| Chains.Step | backend/app/core/chain_builder.py:69-84 | the model call receives the combined arguments; its text or its failure is passed on |
| Chains.Build | backend/app/core/chain_builder.py:120-137 | fails iff the prompt or the model is missing; defaults the memory and the context manager; keeps the ones given |
| Chains.FromConfig | backend/app/core/chain_builder.py:139-145 | the prompt is set iff `prompt_template` is present; otherwise the builder is unchanged |
| Chains.BuildScenarios | backend/tests/unit/test_chain_builder.py:57-85 | building with prompt and model succeeds with an empty context; with only one of them it fails |
| Chains.StepScenario | backend/app/core/chain_builder.py:75-84 | a stored entry, an external entry and a question all reach the model call |
| Chains.ExternalOverridesStored | backend/app/core/chain_builder.py:79 | on a key both contexts hold, the external value reaches the model |
| FormAgent.FixedLines | backend/app/agents/base_form_agent.py:102-106 | at most one line per fixed field |
| FormAgent.ExtensionLines | backend/app/agents/base_form_agent.py:108-111 | one `key: value` line per extension entry, in insertion order |
| FormAgent.FormatCurrentData | backend/app/agents/base_form_agent.py:93-116 | the digest is the sentinel iff the dump is empty; otherwise it is the newline-joined digest lines |
| FormAgent.JoinAvoidsSentinel | backend/app/agents/base_form_agent.py:96-97 | joined lines that each carry a colon never equal a colon-free sentinel, so no real digest reads as "no data" |
| FormAgent.SentinelHasNoColon | backend/app/agents/base_form_agent.py:97 | the sentinel has no colon |
| FormAgent.FixedLinesHaveSpaceAndColon | backend/app/agents/base_form_agent.py:102-106 | every field line carries `": "` after its label |
| FormAgent.DigestLinesHaveColon | backend/app/agents/base_form_agent.py:102-114 | every digest line, the heading included, carries a colon |
| FormAgent.FixedLinesAppend | backend/app/agents/base_form_agent.py:102-106 | the lines of a concatenation of fields are the concatenated lines, so the order of fields is the order of lines |
| FormAgent.FixedLinesOfOne | backend/app/agents/base_form_agent.py:103-105 | one field gives `label: value` with `label = field_map.get(key, key)` when truthy, and nothing otherwise |
| FormAgent.DigestOfExtensionOnly | backend/app/agents/base_form_agent.py:108-116 | with no fixed field set, the digest is the heading followed by the extension lines |
| FormAgent.NoFixedLinesWhenFalsy | backend/app/agents/base_form_agent.py:102-106 | falsy fields give no lines |
| FormAgent.DigestOfEmptyStrings | backend/app/agents/base_form_agent.py:95-97 | fields that all hold `""` digest to `""`, not to the sentinel |
| FormAgent.HeadingIffExtension | backend/app/agents/base_form_agent.py:108-114 | the extension heading appears iff the extension map is non-empty |
| FormAgent.BasePromptContext | backend/app/agents/base_form_agent.py:118-126 | exactly the keys `form_fields` (the `", "`-join of the field list), `current_data` and `input`, in that order |
| FormAgent.SetupChain | backend/app/agents/base_form_agent.py:50-64 | a missing model is an error, and so is a falsy `zh` template; otherwise the chain carries the template, the model and the agent's name |
| FormAgent.NewFormAgent | backend/app/agents/base_form_agent.py:39-64 | construction succeeds iff a model is given and the `zh` template is truthy; a missing model is reported before a missing template; a built agent keeps its hooks and model and always holds a chain over that template, named after the agent |
| FormAgent.Process | backend/app/agents/base_form_agent.py:66-91 | a missing session or chain fails before the model call; a failing call leaves the session as it was; otherwise the reply and flag are the model's and the target is the merged state |
| CharacterManager.NamesExcept | backend/app/agents/character_manager.py:49-53 | the filter keeps every field name except the excluded one, and nothing else |
| CharacterManager.NamesExceptLast | backend/app/agents/character_manager.py:49-53 | when only the last field is excluded, the filter returns every other name in order |
| CharacterManager.FormFieldsAreModelFieldsButExtension | backend/app/agents/character_manager.py:46-53 | the form fields are the model fields without `additional_info`, in declaration order |
| CharacterManager.Described | backend/app/agents/character_manager.py:60-62 | at most one entry per model field |
| CharacterManager.DescribedAllButLast | backend/app/agents/character_manager.py:55-63 | when every field except the last is wanted, the map is those fields in order |
| CharacterManager.ModelFieldsDistinct | backend/app/models/game_state.py:24-28 | the five described fields have distinct names: the character field names |
| CharacterManager.GetFieldMap | backend/app/agents/character_manager.py:55-63 | the map's keys are the form fields, each mapped to its description; `additional_info` is absent |
| CharacterManager.FoldExtension | backend/app/agents/character_manager.py:114-117 | each key takes the value of the last applicable pair for it (non-empty key, some value); other keys keep their value and no key is lost |
| CharacterManager.UpdateFields | backend/app/agents/character_manager.py:109 | the update's five fixed fields |
| CharacterManager.UpdateTargetState | backend/app/agents/character_manager.py:103-117 | no update changes nothing; a fixed field is overwritten iff the update's value is truthy; extension pairs follow the last-applicable rule; no key is lost |
| CharacterManager.MergeKeepsKnownFacts | backend/app/agents/character_manager.py:110-112 | a merge never erases a truthy field, so a complete character stays complete |
| CharacterManager.EmptyUpdateChangesNothing | backend/app/agents/character_manager.py:106-117 | an update with no field and no pair leaves the state as it was |
| CharacterManager.ExtensionAccumulates | backend/app/agents/character_manager.py:114-117 | pairs for distinct keys both land; a later pair for the same key wins; empty keys and `None` values are skipped |
| CharacterManager.MergeScenario | backend/tests/unit/test_character_manager.py:54-71 | on the test's values: a new name, a new appearance, the background kept, the old extension entry kept and the new one added |
| CharacterManager.FormatWorldContext | backend/app/agents/character_manager.py:88-101 | the world sentinel iff the world dump is empty; otherwise raw `key: value` lines for the truthy fixed fields |
| CharacterManager.WorldContextIgnoresExtension | backend/app/agents/character_manager.py:94-100 | extension data never reaches the world context; with no fixed field set it yields `""` |
| CharacterManager.WorldContextScenario | backend/app/agents/character_manager.py:88-101 | two set fields give two raw lines in declaration order; a fresh world gives the sentinel |
| CharacterManager.GetPromptContext | backend/app/agents/character_manager.py:79-86 | the base context's keys plus `world_context` last; the other keys keep their base values |
| CharacterManager.NewCharacterAgent | backend/app/agents/character_manager.py:37-44 | construction succeeds iff there is a model and a truthy `character_form` template; without a model it fails with the missing-model error, otherwise with the missing-template error; a built agent holds the character hooks, the model and a chain over that template named `character_manager` |
| CharacterManager.CharacterTurn | backend/app/agents/character_manager.py:65-86 | the model sees the world context, the input (default `""`) and the digest; its reply and flag come back verbatim; only the character changes, by the merge rule |
| CharacterManager.CompletionPassThrough | backend/app/agents/character_manager.py:76-77 | a turn reports completion whenever the model does, even when fields are missing |
| CharacterManager.TwoTurnScenario | backend/app/agents/character_manager.py:103-112 | a name set in one turn survives a later turn that adds a background; the world is untouched |
| WorldBuilder.SetupChain | backend/app/agents/world_builder.py:38-52 | a chain exists iff there is a model and a truthy `zh` template; it starts with an empty context and the default memory |
| WorldBuilder.NewWorldBuilderAgent | backend/app/agents/world_builder.py:33-52 | a missing model or template never makes construction fail: the agent keeps the model it was given and has a chain iff there is a model and a truthy `zh` template; that chain carries the template, the model, the default memory and an empty context |
| WorldBuilder.GetFormFields | backend/app/agents/world_builder.py:143-145 | the form fields are the world's fixed field names |
| WorldBuilder.FormFieldsTextIsJoin | backend/app/agents/world_builder.py:66 | the hard-coded field text is the `", "`-join of the form fields |
| WorldBuilder.IsComplete | backend/app/agents/world_builder.py:147-157 | complete iff every fixed world field is truthy |
| WorldBuilder.IsCompleteAgreesWithSession | backend/app/agents/world_builder.py:147-157 | the agent's completion test and the session's `is_world_complete` agree |
| WorldBuilder.Labels | backend/app/agents/world_builder.py:103-112 | one label per world field name, in declaration order |
| WorldBuilder.FormatCurrentData | backend/app/agents/world_builder.py:100-114 | the sentinel iff no field is truthy; otherwise the labelled lines of the truthy fields, joined by newlines |
| WorldBuilder.TruthyFieldGivesLine | backend/app/agents/world_builder.py:102-114 | a dump gives a line iff one of its fields is truthy |
| WorldBuilder.DigestAgreesWithFormDigest | backend/app/agents/world_builder.py:100-114 | matches the generic digest when some field is truthy or every field is absent; they differ only for all-empty fields |
| WorldBuilder.NextBrace | backend/app/agents/world_builder.py:120 | the first brace at or after a position, with no brace before it |
| WorldBuilder.SpansFrom | backend/app/agents/world_builder.py:120-121 | every span found is a brace-free `{...}` span, and the spans do not overlap, in left-to-right order |
| WorldBuilder.SpanClosesAtNextBrace | backend/app/agents/world_builder.py:120 | a span opened at a position closes at the first brace after it |
| WorldBuilder.SpansFromComplete | backend/app/agents/world_builder.py:120-121 | the scan finds every brace-free `{...}` span |
| WorldBuilder.Matches | backend/app/agents/world_builder.py:120-121 | the matched texts are the found spans, braces included, in order |
| WorldBuilder.MatchesCharacterized | backend/app/agents/world_builder.py:120-121 | the matches are exactly the brace-free `{...}` substrings, in left-to-right order |
| WorldBuilder.FirstObject | backend/app/agents/world_builder.py:118-133 | no object iff no candidate the loop reaches decodes to an object; it reaches a candidate only past candidates that were skipped (a decode error or a non-object), so a candidate whose decoding raises anything else ends the scan |
| WorldBuilder.FirstObjectIsFirst | backend/app/agents/world_builder.py:123-131 | the object is the decoding of a reached candidate: every candidate before it was skipped |
| WorldBuilder.AbortEndsScan | backend/app/agents/world_builder.py:118-133 | once a reached candidate raises something other than a decode error, the outer handler returns `None` whatever candidates follow |
| WorldBuilder.ExtractJson | backend/app/agents/world_builder.py:116-133 | `None` iff no match the loop reaches decodes to an object; otherwise the object of a reached match, every earlier match having been skipped |
| WorldBuilder.SetField | backend/app/agents/world_builder.py:88-89 | a fixed-field name sets that field alone; any other name changes nothing |
| WorldBuilder.ApplyPairs | backend/app/agents/world_builder.py:87-89 | the extension map is never touched |
| WorldBuilder.ApplyPairsFields | backend/app/agents/world_builder.py:87-89 | each fixed field takes the object's value when that value is non-empty and otherwise keeps its own |
| WorldBuilder.MergeWorldData | backend/app/agents/world_builder.py:84-89 | no object changes nothing; otherwise each field follows the non-empty-value rule; the extension map is kept |
| WorldBuilder.FieldsDetermineWorld | backend/app/models/game_state.py:8-18 | two worlds with equal fixed fields and equal extension maps are equal |
| WorldBuilder.MergeKeepsKnownFacts | backend/app/agents/world_builder.py:84-92 | a merge never erases a truthy field, so a complete world stays complete |
| WorldBuilder.MergeIdempotent | backend/app/agents/world_builder.py:84-89 | merging the same object twice equals merging it once |
| WorldBuilder.TurnContext | backend/app/agents/world_builder.py:66-78 | exactly `form_fields` (the field text) and `current_data` (the digest) |
| WorldBuilder.Process | backend/app/agents/world_builder.py:54-98 | a missing session fails; without a chain the reply echoes the input, is not complete, and changes nothing; with a chain the context is written before the step, a failed step leaves the session as it was, and completion is the session's test on the merged world |
| WorldBuilder.NewAgentInputFree | backend/app/agents/world_builder.py:38-52 | a new agent's context holds no `input` |
| WorldBuilder.TurnContextKeepsInputFree | backend/app/agents/world_builder.py:77-78 | writing the turn's entries never introduces `input` |
| WorldBuilder.TurnsKeepInputFree | backend/app/agents/world_builder.py:77-81 | every turn keeps the context free of `input`, so a step fails only when the model call fails |
| WorldBuilder.TurnChangesWorldOnly | backend/app/agents/world_builder.py:83-98 | a turn changes only the session's world; the reported state is that world; reported completion implies the world is complete |
| WorldBuilder.ScenarioMatches | backend/app/agents/world_builder.py:120-121 | on a reply with prose, a span and a nested brace, the matches are the two brace-free spans, in order |
| WorldBuilder.ExtractScenario | backend/app/agents/world_builder.py:116-131 | a span that does not decode is skipped, and a nested inner span is found and extracted |
| WorldBuilder.AbortScenario | backend/app/agents/world_builder.py:118-133 | a first span whose decoding raises a non-decode error ends extraction with `None`, even though a later span holds an object |
| Narrative.GetSessionHistory | backend/app/agents/narrative_generator.py:21-28 | an existing transcript is returned as stored; a new id gets an empty transcript added last; other ids are untouched |
| Narrative.GetSessionHistoryStable | backend/app/agents/narrative_generator.py:21-28 | a second lookup returns what the first stored and changes nothing |
| Narrative.NewNarrativeAgent | backend/app/agents/narrative_generator.py:42-50 | construction fails iff the `zh` narrative template is falsy; otherwise the agent carries that template and the model |
| Narrative.ToResponse | backend/app/agents/narrative_generator.py:106-115 | the narrative is the text; the monologue is the fixed placeholder; game over iff the marker occurs in the text |
| Narrative.Cleanup | backend/app/agents/narrative_generator.py:117-119 | on game over the session's transcript is gone; otherwise the registry is unchanged; other sessions are untouched either way |
| Narrative.Process | backend/app/agents/narrative_generator.py:84-121 | a non-session or non-string input fails and touches nothing; otherwise the model sees the session's transcript and the context; a failure keeps the created transcript; success purges on game over |
| Narrative.TurnPurgesOnlyFinishedSession | backend/app/agents/narrative_generator.py:101-121 | after a successful turn the session has a transcript iff the game is not over; other sessions' transcripts are untouched |
| Narrative.GameOverScenario | backend/app/agents/narrative_generator.py:107-109 | a text with the marker anywhere ends the game; a text without it does not |
| Narrative.StreamProcess | backend/app/agents/narrative_generator.py:123-143 | the guard failure surfaces before any chunk; otherwise the chunks are the stream's, unchanged, and the session keeps its transcript |
| GameRouter.CheckRequest | backend/app/routers/game.py:25-42 | unknown session gives 404, then not ready gives 400, then a missing agent gives 500; it succeeds exactly when none applies |
| GameRouter.PlayTurn | backend/app/routers/game.py:19-59 | guard failures change nothing; a failing turn gives 500 with the prefixed message and deletes nothing; a finished game deletes the session |
| GameRouter.PlayTurnDeletesIffGameOver | backend/app/routers/game.py:44-59 | after a successful turn the session is stored iff the game is not over; other sessions are untouched |
| GameRouter.NonEmpty | backend/app/routers/game.py:88-91 | exactly the non-empty chunks are kept |
| GameRouter.ConcatNonEmpty | backend/app/routers/game.py:88-99 | dropping empty chunks does not change the joined text |
| GameRouter.DataFrames | backend/app/routers/game.py:95 | one `data: chunk` frame per kept chunk, in arrival order |
| GameRouter.StreamGenerator | backend/app/routers/game.py:81-110 | data frames, then one error frame iff the stream raised, then the closing frame; the session is deleted iff the stream was clean and the joined text has the marker |
| GameRouter.DataFrameInjective | backend/app/routers/game.py:95 | two data frames are equal only when their chunk texts are, so a frame identifies the text it carries |
| GameRouter.DoneOnlyAtEnd | backend/app/routers/game.py:95-110 | no frame before the last equals the closing frame unless a chunk or the encoded error is the text `[DONE]` |
| GameRouter.StreamEdgeCases | backend/app/routers/game.py:81-110 | an empty stream yields only the closing frame; a stream that raised deletes nothing; empty chunks yield no frames |
| GameRouter.SplitMarkerDeletes | backend/app/routers/game.py:98-102 | a marker split across two chunks still ends the game |
| GameRouter.PlayTurnStream | backend/app/routers/game.py:62-112 | a guard failure returns that guard's error and changes nothing; otherwise the response and the registries are those the generator leaves after the stream the narrative agent yields for the looked-up session |
| GameRouter.PlayTurnStreamEndToEnd | backend/app/routers/game.py:62-112 | end to end over the delivered chunks: guard failures change nothing; the response is one data frame per non-empty chunk, then an error frame iff the stream raised, and it always ends with the closing frame; the session leaves the store iff the stream did not raise and the joined chunks carry the marker; other sessions stay; the narrative transcript stays |

## Left out

- The model calls and LangChain machinery (`with_structured_output`, `PromptTemplate | llm`, `LLMChain`, `ConversationBufferMemory`, `RunnableWithMessageHistory`, `ainvoke`, `astream`, `arun`) are function parameters whose results are not visible.
- `json.loads`, `json.dumps`, Jinja's `Template(...)` with `render` and pydantic's `model_dump_json` are function parameters. `_format_game_context` is modelled only as their fixed surrounding text. The Jinja parameter returns a failure for a syntax or render error, and the `json.loads` parameter tells an object, a skipped span and any other exception apart; which texts produce which outcome is not modelled.
- The filesystem walk, the file reads and `mkdir` in `_load_templates` are an input list, not I/O. The `print` of a failed read is left out.
- Timestamps (`datetime.now`) are parameters. `asyncio.sleep`, the SSE transport, `print` and concurrency are left out.
- `get_capabilities` of every agent is a fixed list of names, with no behaviour to verify.
- `backend/app/main.py`, `backend/app/routers/agents.py`, `backend/app/services/llm_service.py`, `backend/app/config.py` and `backend/app/schemas.py` are not part of this model. They cover HTTP wiring, agent caches, provider selection and plain request records.
- FormAgent.SetupChain: template text is not parsed, so the ValueError `PromptTemplate.from_template` raises on a malformed template (an unbalanced `{`) is not modelled; the same holds for FormAgent.NewFormAgent, CharacterManager.NewCharacterAgent and the chain builder's `with_prompt_template`.
- WorldBuilder.NewWorldBuilderAgent: construction can still raise when `PromptTemplate.from_template` rejects a malformed template; template parsing is not modelled.
- Narrative.NewNarrativeAgent: the error `ChatPromptTemplate.from_messages` raises on a malformed template is not modelled; the model fails only on a falsy template.
- `InjectedChain.__getattr__` delegation is left out: the model reads the chain's fields directly.
- `LLMCharacterStateUpdate`, `DynamicField` and `NarrativeResponse` are used but not defined in the code shown. They are modelled from their use: optional string fields plus a list of key/optional-value pairs.
- Extension-map and JSON values are strings only. Non-string JSON values (numbers, lists, `false`) and their truthiness are not modelled.
- CharacterManager.UpdateTargetState: a field left unset and a field set to `None` are the same `None`, since the merge treats them alike.
- WorldBuilder.MergeWorldData: `hasattr` is modelled as "is one of the five fixed field names". Setting `additional_info` or a `BaseModel` attribute name from decoded JSON is not modelled.
- WorldBuilder.Process: an input that is not a string, or is `None`, is not modelled: the caller passes a string, `""` by default.
- FormAgent.Process: `if not session` is modelled as "no session": a `GameSession` is always truthy. An explicit `"user_input": None` is read as `""` like a missing key, whereas the code passes `None` on to the prompt.
- Narrative.GetSessionHistory: only the transcript's existence and its stored value are modelled, not the messages the history wrapper appends during a call.
- Narrative.StreamProcess: the transcript is not purged on game over, as in the code. The router deletes only the session.
- GameState.GetSession: `world_state` and `character_state` are always present; the `None` their `Optional` type admits is not modelled.
- Object identity is left out: the Python code mutates the session it fetched in place. The model returns the new session as a value, and the router then stores that value.
