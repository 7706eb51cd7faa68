# Strict-protocol triage engine, modelled in Dafny

This project models the deterministic triage engine of the symptom-checker
front end (`App.tsx`) and the protocol types it runs on (`types.ts`).

- **The session.** A patient first passes a global emergency screen.
  - Any of the five emergency buttons goes straight to the red "call 911" screen.
  - "NO" leads to the symptom picker. There the patient can search the symptom
    catalogue and toggle symptoms.
  - Starting the consultation loads the protocol module of the first selected
    symptom at its first question.
- **Each turn.** The free-text interpreter's answer is matched against the
  current question's logic rules. The first rule whose `condition` equals the
  answer decides the turn:
  - `SHOW_CARD` shows the rule's card and ends the consultation.
  - `NEXT_QUESTION` asks the next question. On the last question it instead
    ends with a fixed GREEN "MONITOR SYMPTOMS" card.
  - `JUMP_MODULE` does nothing, because the engine has no branch for it.
  - No match re-asks the same question.

Files:

- `Wrappers.dfy`: the `Option` type.
- `Text.dfy`: JavaScript `trim`, `toLowerCase` and `includes`.
- `Protocol.dfy`: the `types.ts` records and unions.
- `Engine.dfy` (module `TriageEngine`): the engine's state and turns, as pure
  step functions with their lemmas.
- `SymptomPicker.dfy`: the symptom catalogue, `toggleSymptom` and `filteredGroups`.
- `App.dfy` (module `TriageApp`): class `App`. Its fields are the component's
  state cells and its methods are the handlers. The engine handlers
  (`LoadModule`, `ProcessAnswer`, `HandleStartConsultation`,
  `HandleSendMessage`) are proved to perform the step functions' steps, and
  `AddBotMessage` to append a `BotMessage`. The other handlers are proved to
  set exactly the fields the source sets, to the values it sets them to.
- `Scenarios.dfy`: consultations over sample modules. The modules are
  transcribed from the Headache and Leg/Calf Pain screening questions in
  `constants.ts`.

The protocol registry `CLINICAL_PROTOCOLS` is not part of this model; it is an
input. Any map that holds `"GENERIC"` and whose modules all have a question
will do. The interpreter `interpretUserResponse` is not part of this model
either: the handlers receive the string it returned.

Behaviour of the code worth knowing:

- **`JUMP_MODULE` does nothing.** `processAnswer` has branches for `SHOW_CARD`
  and `NEXT_QUESTION` only, so a matched `JUMP_MODULE` rule changes no state
  and adds no message. A consultation therefore stays in its module, and the
  number of turns that move it is bounded by that module's questions
  (`MovesBounded`).
- **Answers after the end are dropped.** Once `isConsultationComplete` is set,
  `processAnswer` returns at once and adds no message. The send handler still
  appends the user's own message first.
- **The emergency buttons only change the screen.** Each sets the view to the
  red screen and touches no engine state.
- **Running out of questions ends GREEN.** A `NEXT_QUESTION` rule on the last
  question adds the fixed GREEN "MONITOR SYMPTOMS" card and completes the
  consultation.
- **The empty id is "no module".** `!currentModuleId` treats `""` like no
  module. An engine whose id is `""` ignores every answer, even though
  `loadModule("")` would have asked GENERIC's first question. The catalogue has
  no empty code, so the UI cannot reach this.
- **End Session keeps the index.** `handleEndSession` does not reset
  `currentQuestionIndex`. The next `loadModule` resets it.

## Model

| member | source | states |
|---|---|---|
| Protocol.ParseLevel | types.ts:16 | a level string is accepted exactly when it is one of RED, AMBER, YELLOW, GREEN, and is read as the level of that name |
| Protocol.LevelNameRoundTrip | types.ts:16 | each level has exactly one spelling and parsing it gives the level back |
| Protocol.ParseActionType | types.ts:23 | an action type is exactly one of NEXT_QUESTION, JUMP_MODULE, SHOW_CARD |
| Protocol.ActionTypeNameRoundTrip | types.ts:23 | each action type has one spelling, read back by the parser |
| TriageEngine.Resolve | App.tsx:83 | the protocol used for an id is the registry's entry, or GENERIC's when the id is absent; either way it has a first question |
| TriageEngine.KnownIdLoadsItsModule | App.tsx:83-90 | loading a registered id asks that module's own first question and records the id |
| TriageEngine.KnownIdAnswersFromItsModule | App.tsx:108-109 | with a registered id, the question a turn reads is that module's question at the current index, which exists |
| TriageEngine.FindRule | App.tsx:117 | the rule chosen is the first whose condition equals the answer; none is chosen exactly when no rule has that condition |
| TriageEngine.LoadStep | App.tsx:81-91 | loading sets the raw id, index 0 and an open consultation, and appends exactly one message asking the resolved module's first question with its options |
| TriageEngine.AnswerStep | App.tsx:104-147 | a turn changes nothing when no (truthy) module id is set or the consultation is complete; it never changes the module id, keeps the index in bounds, never reopens a consultation, moves the index by at most one, and appends at most one message |
| TriageEngine.Run | App.tsx:104-147 | over any sequence of turns the index stays in bounds, the module id is kept, the transcript only grows (at most one message per turn), and a completed consultation is left exactly as it is |
| TriageEngine.MovesBounded | App.tsx:129-145 | at most (questions - index) turns of any run move the consultation, and when that many have, it is complete |
| TriageEngine.NoRuleReprompts | App.tsx:117-123 | an answer matching no rule re-appends the same question's options and leaves module, index and completion unchanged |
| TriageEngine.ShowCardConcludes | App.tsx:126-128 | a SHOW_CARD rule appends one message carrying the rule's card data and sets completion, index unchanged; a rule following the cardData convention yields a card |
| TriageEngine.NextQuestionAdvances | App.tsx:129-134 | a NEXT_QUESTION rule before the last question increments the index by one and appends the new question |
| TriageEngine.LastQuestionMonitors | App.tsx:135-145 | a NEXT_QUESTION rule on the last question appends the fixed GREEN MONITOR SYMPTOMS card and sets completion |
| TriageEngine.JumpModuleIsInert | App.tsx:126-146 | a matched JUMP_MODULE rule changes no state and emits no message |
| TriageEngine.CoveredOptionIsNeverReprompted | App.tsx:119-123 | when every option of the question has a rule and the interpreter returns an option, the re-prompt never happens |
| TriageEngine.UnknownIdAnswersAsGeneric | App.tsx:108 | with an id absent from the registry every turn behaves as the GENERIC protocol's turn, the raw id being kept |
| TriageEngine.UnknownIdLoadsGeneric | App.tsx:83-90 | loading an id absent from the registry asks GENERIC's first question and records the raw id |
| TriageEngine.FindRuleIgnoresTargets | types.ts:24 | erasing the rules' targetId does not change which rule is chosen |
| TriageEngine.TargetIdIgnored | types.ts:24 | the engine never reads targetId: erasing every target in the registry leaves every turn's result unchanged |
| TriageEngine.BotMessage | App.tsx:93-100 | an assistant message carries exactly the given text, options and card, and is never a user message |
| TriageEngine.Ask | App.tsx:89-90 | asking a question shows its text with its options as the choices and no card |
| Text.Trim | App.tsx:171 | a trimmed string is empty exactly when all its characters are ECMAScript whitespace |
| Text.ToLower | App.tsx:195 | lower-casing keeps the length, maps each ASCII capital to its small letter, leaves every other character as it is, and leaves no ASCII capital behind |
| Text.Contains | App.tsx:197 | the `includes` test holds exactly when the query occurs at some index of the string |
| SymptomPicker.WithoutCode | App.tsx:205 | removing a code keeps, in order, exactly the entries with other codes, each as many times as before, drops every entry with that code, and keeps codes unique |
| SymptomPicker.Toggle | App.tsx:202-207 | a present code is removed from every entry, the others kept in order with their multiplicities; an absent one is appended as the new symptom |
| SymptomPicker.ToggleTwiceRestores | App.tsx:202-207 | toggling an unselected symptom twice restores the original selection |
| SymptomPicker.ToggleKeepsCodesUnique | App.tsx:202-207 | a selection without repeated codes stays without repeated codes |
| SymptomPicker.NarrowSymptoms | App.tsx:197 | the narrowed list keeps, in order and with their multiplicities, exactly the symptoms whose lower-cased name contains the query |
| SymptomPicker.NarrowGroups | App.tsx:196-198 | every group keeps its place and its category, and holds exactly those of its symptoms that match the query, in their order and with their multiplicities |
| SymptomPicker.DropEmpty | App.tsx:199 | the kept groups are, in order and with their multiplicities, exactly the groups with at least one symptom |
| SymptomPicker.FilteredGroups | App.tsx:193-200 | a blank search (after trimming) shows every group as it is; any other search shows only non-empty groups, each the narrowing of a catalogue group by the lower-cased search |
| SymptomPicker.SearchShowsOnlyMatches | App.tsx:195-199 | a non-blank search shows only non-empty groups, each its original group narrowed, in order, and every shown name contains the lower-cased (untrimmed) search |
| SymptomPicker.SearchHidesNoMatch | App.tsx:196-199 | every matching symptom is shown under its own category |
| SymptomPicker.SearchShowsExactlyMatches | App.tsx:195-199 | a non-blank search shows only symptoms whose lower-cased name contains the lower-cased search, and every such symptom under its own category |
| SymptomPicker.SearchKeepsCategoryOrder | App.tsx:193-200 | the shown categories are a subsequence of the catalogue's categories |
| TriageApp.IntroMessage | App.tsx:160-164 | the first message of a consultation is an assistant message without choices or card whose text is exactly "I understand you are experiencing ", the chosen symptom's name, then ". Let me ask you a few safety questions." |
| TriageApp.UserMessage | App.tsx:174 | the user's message keeps their text verbatim, with no choices and no card |
| TriageApp.App.ShownGroups | App.tsx:193-200 | the groups listed for the current search are `FilteredGroups` of the catalogue: all of them when the search is blank, otherwise only non-empty ones whose every symptom matches the lower-cased search, always in catalogue order; `SearchShowsExactlyMatches` adds that every matching symptom is listed |
| TriageApp.App.constructor | App.tsx:58-71 | the initial state: wizard screen, empty selection, search, transcript and input, no module, index 0, not complete |
| TriageApp.App.AddBotMessage | App.tsx:93-102 | appends exactly one assistant message with the given text, options and card |
| TriageApp.App.LoadModule | App.tsx:81-91 | performs LoadStep on the fields and keeps the index in bounds |
| TriageApp.App.ProcessAnswer | App.tsx:104-147 | performs AnswerStep on the fields; a complete consultation is untouched and the transcript only grows |
| TriageApp.App.HandleStartConsultation | App.tsx:152-168 | with no selection nothing changes; otherwise the chat opens with the intro message for the first selected symptom and that symptom's code is loaded |
| TriageApp.App.HandleSendMessage | App.tsx:170-180 | blank text changes nothing; otherwise the user's message is appended, the input cleared and the interpreted answer processed |
| TriageApp.App.HandleEndSession | App.tsx:182-190 | returns to the wizard and clears selection, transcript, search, module and completion; the question index is not in its frame |
| TriageApp.App.SelectEmergencyCheck | App.tsx:227-228 | any emergency button shows the red screen and changes nothing else, so no module is loaded |
| TriageApp.App.DenyEmergencies | App.tsx:238 | "NO" goes to symptom selection |
| TriageApp.App.Restart | App.tsx:296 | "Restart" goes back to the wizard |
| TriageApp.App.ToggleSymptom | App.tsx:270 | a symptom button replaces the selection by its toggle |
| TriageApp.App.ClearSelection | App.tsx:261 | "Clear" empties the selection |
| TriageApp.App.SetSymptomSearch | App.tsx:259 | typing sets the search text |
| TriageApp.App.SetInputText | App.tsx:333 | typing sets the chat input |
| TriageApp.App.RequestEndSession | App.tsx:307 | "END SESSION" opens the confirmation |
| TriageApp.App.CancelEndSession | App.tsx:350 | "Cancel" closes the confirmation |
| Scenarios.WorstHeadacheIsRed | constants.ts:420-424 | Headache, "Yes" to the first question: a RED card after exactly one question |
| Scenarios.HeadacheNoNoMonitors | constants.ts:420-424 | Headache, "No" twice: the module runs out and the GREEN monitor card ends it |
| Scenarios.SwollenLegIsRed | constants.ts:435-439 | Leg/Calf Pain, "Yes" to swelling: RED at once, the second question never asked |
| Scenarios.UnknownCodeAsksGeneric | App.tsx:83 | a code without a protocol asks GENERIC's well-formed first question |
| Scenarios.UnclearAnswerReprompts | App.tsx:120-121 | an answer matching no rule re-asks the Yes/No question |

## Left out

- The interpreter `interpretUserResponse` and the network clients are not part of this model. Each turn receives the interpreter's returned string as a parameter.
- `isLoading` and its guard in `handleSendMessage` are left out. The interpreter is asynchronous in the source, so the guard stops a second send while a turn is pending. The model's turn is synchronous, so no interleaving arises, and what follows is not captured:
  - END SESSION and its confirmation (App.tsx:307, 351) and Start Assessment are not disabled while `isLoading` is true. A `processAnswer` still waiting at App.tsx:113 then resumes on the next consultation with the old module, question and index it read before waiting (App.tsx:121-144). It can end the new consultation with the old module's card, or set an index past the new module's last question. The next turn then reads `undefined` at App.tsx:109, `question.text` throws, and `isLoading` stays true. `InBounds` holds in the model only.
  - A rejected `interpretUserResponse` skips `setIsLoading(false)` (App.tsx:112-114), so `isLoading` stays true and every later send is refused.
- Message ids (`Date.now()`), the `isError` flag, scroll effects and all rendering are left out. They are presentation or clock-dependent.
- The registry `CLINICAL_PROTOCOLS` is an input, required to hold GENERIC and only modules with at least one question. Its real contents are not part of this model.
- The lookup `CLINICAL_PROTOCOLS[id]` is modelled as map membership. The JavaScript object lookup would also find inherited properties such as `toString`. No catalogue code is such a name.
- The titles, timings and scripts of the sample RED and YELLOW cards in `Scenarios`, and the whole sample GENERIC module, are placeholders. The protocol text gives only the questions, the level and the action.
- Text.ToLower, Text.LowerChar: only the ASCII capitals are lowered. JavaScript's `toLowerCase` maps the full Unicode case table. Every catalogue name is ASCII, but the typed search need not be: JavaScript maps the Kelvin sign U+212A to "k", so the search "s\u212Ain" finds "Skin Rash" in the source and nothing in the model.
- Module switching (`JUMP_MODULE` with `targetId`), the one-way-ticket rule and cross-module termination are left out. No code implements them.
- The duplicate types and transport-only App under `AWS_LLAMA/` and the build configuration are left out.
- The `ChatState` record is declared in Protocol but is not used. The component keeps separate state cells, which the class models.
