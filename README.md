# ANONFY-ATOMAX app controller, modelled in Dafny

This project models the controller logic of the web code generator's root
component (`App.tsx`). A user turn sends a prompt to a generation service,
which streams back events:

- plans, which are forwarded to the chat store;
- file events, which build a live buffer of in-progress files;
- metadata events, which carry the grounding citations;
- result events, which carry the final files and answer text.

When the stream ends, the component dispatches `FINISH_STREAMING`. Then one of two things happens:

- **Navigation.** In the browser view, a `[ACTION:BROWSER_NAVIGATE("url")]`
  directive in the answer makes the component visit the page, extract its text
  and continue the turn with a continuation prompt.
- **Push.** Otherwise, non-empty final files are pushed as a new history
  snapshot.

Around this turn the component does the following:

- sanitises the chats restored from local storage;
- shows the files under the chat's history cursor, or an editing overlay;
- commits edits after a debounce;
- offers undo and redo;
- guards rename and delete;
- toggles selected preview elements.

The modules, one per file:

- `types.dfy` (`Types`): the records of `types.ts`, the stream events, the
  chat-store actions and a JSON value type.
- `text.dfy` (`Text`): JavaScript's `\s` class, `replace(/\s\s+/g, ' ')`,
  `trim()` and `slice(0, n)`.
- `directive.dfy` (`Directive`): the navigation directive as a leftmost
  match, and the continuation prompt.
- `live_buffer.dfy` (`LiveBuffer`): the live generation buffer fold.
- `event_fold.dfy` (`EventFold`): the final files, text and grounding, and the
  plan actions.
- `persist.dfy` (`Persist`): the load-time sanitiser, the choice of the active
  chat, and the shape the save effect writes.
- `workspace.dfy` (`Workspace`): the effective files, the edit map,
  undo/redo availability, the rename and delete guards, and the element
  toggle.
- `orchestrator.dfy` (`Orchestrator`): a pure specification of a whole turn.
  `Chain` gives every action dispatched, every stream request, every page
  visited and the state left behind, over a finite chain of hops.
- `app.dfy` (`AppShell`): class `App`, holding the component's state as
  fields. Its handlers are methods, and the send handler is a loop over the
  stream's events plus a recursive method for the navigation chain. The
  methods are proved against the `Orchestrator` specification.

The live generation buffer is cleared at the start of every hop
(`App.tsx:194`), a continuation hop included, and never when a stream ends.
`AppShell.App.RunHop` therefore leaves the buffer that the last hop built.

The recursive call at `App.tsx:240` goes through the handler captured when
the turn started. That handler holds the same chat, messages, files, view
and selected elements as the first hop. The model makes this explicit: every
hop takes the same `Orchestrator.Closure`. A continuation hop therefore sends
the pre-turn message list again, and it sends the files and selection of the
first hop.

## Model

| member | source | states |
|---|---|---|
| Text.Collapse | App.tsx:237 | the result is no longer than the input, starts and ends with whitespace exactly when the input does, and never holds two whitespace characters in a row |
| Text.CollapseSplit | App.tsx:237 | where no whitespace run crosses the junction of two strings, the replacement works on each side on its own |
| Text.CollapseOfRun | App.tsx:237 | a run of two or more whitespace characters becomes exactly one space |
| Text.CollapseOfChar | App.tsx:237 | a lone character, whitespace or not, is left as it is |
| Text.CollapseRun | App.tsx:237 | a run of two or more whitespace characters between text becomes one space, and the text on either side is collapsed on its own |
| Text.CollapseLoneSpace | App.tsx:237 | a single whitespace character between text is kept as it is |
| Text.CollapseKeepsText | App.tsx:237 | collapsing whitespace runs keeps the non-whitespace characters, in order |
| Text.CollapseFixesSingleSpaced | App.tsx:237 | text without a run of two whitespace characters is unchanged by the collapse |
| Text.CollapseIdempotent | App.tsx:237 | collapsing twice equals collapsing once |
| Text.Trim | App.tsx:237 | the result is a contiguous slice of the input that neither starts nor ends with whitespace |
| Text.TrimFixesTrimmed | App.tsx:237 | text that neither starts nor ends with whitespace is unchanged by `trim()` |
| Text.TrimKeepsText | App.tsx:237 | trimming keeps the non-whitespace characters, keeps single spacing, and is empty exactly for blank text |
| Text.Prefix | App.tsx:238 | `slice(0, n)`: a prefix of the text, the whole text when it has at most n characters and exactly n characters otherwise |
| Directive.Scan | App.tsx:222-223 | the first position at or after i where a directive matches, with no match before it; none when no later position matches |
| Directive.FindDirective | App.tsx:222-225 | the captured address is non-empty and free of `"` |
| Directive.FindDirectiveIsLeftmost | App.tsx:222-225 | a directive is found exactly when one occurs somewhere, and the address found is the one at the leftmost matching position |
| Directive.DirectiveRoundTrip | App.tsx:222-227 | embedding a non-empty, quote-free address in a directive after text without `[` gives that address back |
| Directive.MatchHereComplete | App.tsx:222 | every match of the pattern at a position is the one computed there |
| Directive.MatchAtUnique | App.tsx:222 | at most one address matches at any position |
| Directive.ReadableText | App.tsx:237 | the readable text is never empty |
| Directive.ReadableTextOfPage | App.tsx:237 | blank page text gives the fallback sentence; otherwise the same non-whitespace characters, singly spaced, without leading or trailing whitespace |
| Directive.ReadableTextJoinsAtRun | App.tsx:237 | two stretches of text separated by a run of two or more whitespace characters read as the two readable texts joined by exactly one space |
| Directive.ContinuationPrompt | App.tsx:238 | the fixed header followed by a non-empty prefix of the readable text: the whole text up to 10000 characters, exactly 10000 otherwise |
| LiveBuffer.AppendChunk | App.tsx:210 | same length, names, languages and statuses; every entry with the name gets the chunk appended to its content; entries with other names are unchanged; nothing changes when no entry has the name |
| LiveBuffer.MarkCompleted | App.tsx:211 | same length, names, languages and contents; every entry with the name is completed; entries with other names are unchanged |
| LiveBuffer.Created | App.tsx:209 | the buffer gains one entry at the end, with the file's name and language, empty content and status streaming; the earlier entries are kept |
| LiveBuffer.ApplyEvent | App.tsx:207-211 | only `file_create` lengthens the buffer, by one; events other than file events leave it as it is |
| LiveBuffer.BufferOf | App.tsx:209-211 | the buffer holds one entry per `file_create` |
| LiveBuffer.BufferEntry | App.tsx:209-211 | the entry a `file_create` opens keeps the file's name and language, holds exactly the chunks later sent to that name, and is completed exactly when a later `file_complete` names it |
| LiveBuffer.EntryAfter | App.tsx:209-211 | an event leaves an existing entry's name and language alone, appends a chunk only when it names that entry, and completes only the entry it names |
| LiveBuffer.OtherEventsLeaveBuffer | App.tsx:207-217 | an event that is not a file event leaves the buffer unchanged wherever it occurs |
| EventFold.LastResultWins | App.tsx:202-214 | the final files are those of the last `result` event, or empty without one |
| EventFold.LastTextWins | App.tsx:204-215 | the final text is the last non-empty `fallbackText`, or empty without one |
| EventFold.LastMetadataWins | App.tsx:203-212 | the grounding is that of the last `metadata` event, or empty without one |
| EventFold.PlanOnlyDispatches | App.tsx:208 | an `agent_plan` event anywhere adds its own `SET_AGENT_PLAN` in order and changes none of the accumulators |
| EventFold.PlanActionsArePlans | App.tsx:206-218 | the loop dispatches nothing but `SET_AGENT_PLAN` |
| EventFold.NoPlansNoActions | App.tsx:206-216 | a stream without `agent_plan` events dispatches nothing from the loop |
| EventFold.Step | App.tsx:212-215 | a `metadata` event sets the grounding to its citations and changes nothing else; a `result` event sets the files to its data and the content to its fallback text when that is non-empty, keeping the content otherwise; other events change nothing |
| EventFold.Accumulate | App.tsx:200-216 | the accumulators after the given events, from empty ones; characterised by `EventFold.LastResultWins`, `EventFold.LastTextWins` and `EventFold.LastMetadataWins` |
| EventFold.PlanActions | App.tsx:206-208 | no more actions than events; by `EventFold.PlanActionsArePlans`, `EventFold.PlanOnlyDispatches` and `EventFold.NoPlansNoActions`, exactly one `SET_AGENT_PLAN` per plan event, in order |
| Persist.FilterMessages | App.tsx:104-106 | a message is kept exactly when it is truthy with string `id` and `role`; nothing is lost when all pass |
| Persist.FilterKeepsOrder | App.tsx:104-106 | the filter keeps the original order: it distributes over concatenation |
| Persist.SanitiseMessages | App.tsx:103-105 | throws exactly for a truthy value that is not an array; a falsy or missing value gives no messages; an array gives exactly the messages the filter keeps, in order |
| Persist.SanitiseHistory | App.tsx:107-109 | the history is never empty: a non-empty array is kept, anything else becomes one empty snapshot |
| Persist.SanitiseIndex | App.tsx:110-112 | the cursor lies in the history: an in-range number is kept, anything else becomes 0 |
| Persist.SanitiseChat | App.tsx:102-120 | dropped exactly without a string id; throws exactly when the messages value is truthy and not an array; a kept chat is well formed and keeps the id, the filtered messages, the name or "Untitled Chat", the creation time or now, the sanitised history, and the saved cursor when it is an in-range number, else 0 |
| Persist.SanitisedChats | App.tsx:101-122 | the whole load throws exactly when some chat throws; otherwise the survivors are well formed and their ids are the string ids in order |
| Persist.SanitiseChatsOne | App.tsx:101-122 | one element gives its own sanitised chat, nothing when dropped, and a throw when it throws |
| Persist.SanitiseChatsConcat | App.tsx:101-122 | the result for a concatenation joins the results for its parts in order, and a throw in either part throws |
| Persist.Load | App.tsx:88-130 | the load throws exactly for unparseable stored chats or an array some element of which throws; an array that does not throw loads exactly its sanitised chats with the active id chosen among them; any other stored value loads no chats |
| Persist.LoadActions | App.tsx:130-139 | the first action is `CREATE_CHAT` when the load throws and otherwise `LOAD_STATE` of the loaded chats and active id; a second action, always `CREATE_CHAT`, follows exactly when the load succeeded and parsing `ai_useTailwind` or `ai_useGoogleSearch` threw |
| Persist.ChooseActive | App.tsx:126-128 | none exactly when no chat survives; the saved id when non-empty and held by a survivor, else the first survivor's id |
| Persist.LoadIsConsistent | App.tsx:86-139 | the load dispatches `CREATE_CHAT` alone, or `LOAD_STATE` of well-formed chats with an active id naming one of them (none only without chats), followed by `CREATE_CHAT` exactly when parsing `ai_useTailwind` or `ai_useGoogleSearch` throws |
| Persist.EncodeChat | App.tsx:145 | the saved object has exactly the six chat properties, holding the id, cursor, history and messages as they are |
| Persist.ChatRoundTrip | App.tsx:145 | a well-formed chat, as saved, loads back unchanged |
| Persist.SaveLoadRoundTrip | App.tsx:145 | well-formed chats, as saved, load back unchanged and in order |
| Persist.SanitiseIdempotent | App.tsx:98-128 | saving what was loaded and loading it again gives the same chats |
| Workspace.FilesFromHistory | App.tsx:158 | the files of the snapshot under the cursor; empty without a chat or with the cursor outside the history |
| Workspace.EffectiveFiles | App.tsx:159 | the overlay, even an empty one, hides the snapshot |
| Workspace.EditFile | App.tsx:423 | same length, names and languages; exactly the files with that name get the new content |
| Workspace.EditMissingFile | App.tsx:423 | editing a name that no file has changes nothing |
| Workspace.EditLastWins | App.tsx:421-426 | of two edits to one file only the later shows |
| Workspace.EditsCommute | App.tsx:423 | edits to different files commute |
| Workspace.UndoRedoAvailability | App.tsx:430-431 | with a valid cursor, undo is offered exactly when a snapshot precedes it, redo exactly when one follows, neither exactly for a single snapshot |
| Workspace.CanUndo | App.tsx:430 | the undo condition, without a contract; `Workspace.UndoRedoAvailability` states its meaning |
| Workspace.CanRedo | App.tsx:431 | the redo condition, without a contract; `Workspace.UndoRedoAvailability` states its meaning |
| Workspace.RenameActions | App.tsx:275-279 | at most one action; a `RENAME_CHAT` of the chosen chat to the trimmed, non-empty name |
| Workspace.RenameGuard | App.tsx:275-279 | a rename is dispatched exactly for a chosen chat and a name with some non-whitespace text; it names that chat and carries exactly the trimmed name, which keeps the text and has no whitespace at either end |
| Workspace.OpenDelete | App.tsx:280-283 | the modal opens, holding the chat, exactly when more than one chat exists |
| Workspace.DeleteActions | App.tsx:284-288 | one `DELETE_CHAT` of the chat the modal holds, nothing without one |
| Workspace.DeleteGuard | App.tsx:280-288 | asking to delete and confirming deletes the chat exactly when it is not the last one |
| Workspace.Without | App.tsx:320 | no entry has the id; other ids are present exactly as before; nothing changes without the id |
| Workspace.WithoutOne | App.tsx:320 | a single element survives exactly when its id differs |
| Workspace.WithoutConcat | App.tsx:320 | removing an id from a concatenation removes it from each part in turn, so the survivors keep their order and their contents |
| Workspace.WithoutAppended | App.tsx:320 | removing an id after appending an element with it equals removing it before |
| Workspace.Toggle | App.tsx:320 | the id's presence flips, other ids are untouched, and an unselected element is appended at the end |
| Workspace.ToggleTwice | App.tsx:320 | selecting and then deselecting an element restores the selection |
| Orchestrator.StreamErrorText | App.tsx:252-256 | "Generation stopped." exactly for an `AbortError`; otherwise the error prefix with the message or "An unknown error." |
| Orchestrator.JoinHtml | App.tsx:190 | empty for no elements, the element's own html for one; otherwise it starts with the first element's html |
| Orchestrator.JoinHtmlSnoc | App.tsx:190 | one more element adds a newline and its html at the end |
| Orchestrator.UserMessage | App.tsx:190 | a user message with the prompt and image; it carries the joined html exactly when elements are selected |
| Orchestrator.ThinkingMessage | App.tsx:191 | a model message `...`, thinking and streaming |
| Orchestrator.NavMessage | App.tsx:228 | a system message `Navigating to <url>...` that holds the address |
| Orchestrator.NavFailedMessage | App.tsx:242-243 | a system message `Navigation failed: ` with the error's message, or the fixed text for a value that is not an `Error` |
| Orchestrator.HopTail | App.tsx:220-250 | a finished stream dispatches `FINISH_STREAMING` of the final text, files and grounding first; a hop that navigates then dispatches the navigation notice for the found address, navigates to it and stays loading, and a failed extraction adds the failure notice as the third and last action; a failed stream dispatches only the error `FINISH_STREAMING`; it pushes exactly when it finished, did not navigate and has files; the tail holds exactly these actions and no others |
| Orchestrator.HopEffects | App.tsx:183-256 | one hop makes one request with the captured files, selection and view, navigates as `HopTail` says and leaves the buffer of its events |
| Orchestrator.Chain | App.tsx:180-265 | the chain's first request carries the caller's prompt and image and the captured files, selection and view |
| Orchestrator.RequestsPerHop | App.tsx:200-240 | one request per hop; every hop but a final stuck one navigates |
| Orchestrator.RequestsUseClosure | App.tsx:200-240 | every request carries the captured files, selection and view; the first carries the caller's prompt and image, every later one a continuation prompt and no image |
| Orchestrator.NoNavigationOutsideBrowser | App.tsx:225 | outside the browser view nothing is navigated, loading ends and one request is made |
| Orchestrator.NavigationTargets | App.tsx:222-233 | every page visited has a non-empty address free of `"` |
| Orchestrator.StartedActions | App.tsx:190-208 | a hop starts with the message list of the user message and thinking placeholder, then its plans |
| Orchestrator.TailPush | App.tsx:248-249 | the end of a hop pushes at most once, last, and the push holds the final files |
| Orchestrator.HopPush | App.tsx:225-250 | within a hop a push is only the last action, and happens exactly when the stream finished, no navigation happened and the final files are non-empty |
| Orchestrator.PushOnlyLast | App.tsx:225-250 | across the chain no action but the last is a push; the last is one exactly when a snapshot was pushed, and then it holds files and loading has ended |
| Orchestrator.PushExactlyWithFiles | App.tsx:248-250 | outside a navigation a finished stream pushes exactly when its final files are non-empty, and the push holds them |
| Orchestrator.StreamFailure | App.tsx:252-256 | a failed stream ends with `FINISH_STREAMING` of the error text and no files, no push, no navigation, loading cleared |
| Orchestrator.FailedExtractionKeepsLoading | App.tsx:232-246 | a navigation whose extraction throws or yields no html leaves loading set; a throw is reported after the navigation notice |
| Orchestrator.StuckOnlyAfterFailedExtraction | App.tsx:257-263 | loading stays set at the end exactly when the chain ends in a navigation without a page |
| Orchestrator.TailFinishesOnce | App.tsx:220-256 | the end of a hop starts with its only `FINISH_STREAMING` |
| Orchestrator.HopFinishesOnce | App.tsx:220-256 | each hop dispatches exactly one `FINISH_STREAMING` |
| Orchestrator.OneFinishPerRequest | App.tsx:220-256 | the chain dispatches as many `FINISH_STREAMING` as it makes requests |
| Orchestrator.HopRestarts | App.tsx:192-245 | every message list a hop dispatches starts with the captured messages, a user message and the thinking placeholder |
| Orchestrator.TailRestarts | App.tsx:229-245 | every message list the end of a hop dispatches starts from the captured messages, the user message and the placeholder |
| Orchestrator.MessagesRestartFromClosure | App.tsx:192-265 | every message list of the chain starts from the messages captured at the start of the turn, so a later hop replaces the messages of earlier ones |
| AppShell.App.constructor | App.tsx:51-71 | the initial state: not loading, preview view, empty buffer and selection, navigate mode, no overlay, no controllers |
| AppShell.App.Render | App.tsx:163-165 | the overlay is dropped exactly when the chat or its cursor changed |
| AppShell.App.HandleStopGeneration | App.tsx:169-173 | loading ends; present controllers are aborted, absent ones stay absent |
| AppShell.App.PushToHistory | App.tsx:175-178 | one `PUSH_TO_HISTORY` of the snapshot is dispatched and the overlay is dropped |
| AppShell.App.HandleUndo | App.tsx:291-294 | the overlay is dropped and `UNDO` is dispatched |
| AppShell.App.HandleRedo | App.tsx:295-298 | the overlay is dropped and `REDO` is dispatched |
| AppShell.App.HandleFileContentChange | App.tsx:421-426 | the edited effective files become the overlay and replace the pending debounced commit |
| AppShell.App.FlushPendingEdit | App.tsx:418-420 | the latest pending edit, if any, is pushed once and the overlay dropped; without one nothing changes |
| AppShell.App.OnElementSelected | App.tsx:319-320 | the selection becomes its toggle by the element's id |
| AppShell.App.ToggleInteractionMode | App.tsx:269 | select and navigate swap |
| AppShell.App.HandleToggleBrowserView | App.tsx:270 | the browser view and the preview swap; any other view becomes the browser |
| AppShell.App.LoadPersistedState | App.tsx:86-140 | the load effect's actions are dispatched |
| AppShell.App.ConsumeEvent | App.tsx:207-215 | one event changes the accumulators as `EventFold.Step`, the buffer as `LiveBuffer.ApplyEvent`, and dispatches its plan if it is one |
| AppShell.App.ConsumeStream | App.tsx:202-218 | the loop returns the accumulators of all events, leaves the buffer they build, and dispatches their plans in order |
| AppShell.App.BeginHop | App.tsx:183-197 | controllers armed, loading set, opening message list dispatched, buffer, image, selection and mode reset, one request recorded |
| AppShell.App.FinishHop | App.tsx:220-250 | the actions, navigations, overlay and navigation flag are those of `HopTail` |
| AppShell.App.HopBody | App.tsx:183-250 | the logs, buffer and overlay show the hop's `HopEffects` applied; it reports navigating exactly when the hop navigates |
| AppShell.App.RunHop | App.tsx:180-264 | the logs, buffer and overlay show the whole chain's effects applied, loading is the chain's final flag, and both controllers are released |
| AppShell.App.HandleSendMessage | App.tsx:180-265 | nothing changes without an active chat; otherwise the chain runs under the chat, files, view and selection of this moment |

## Left out

- Rendering and UI wiring. This covers the JSX, the modals, the command
  palette, the device picker, the model selector and the registration of the
  keyboard and `message` listeners, including the Escape, undo and redo
  shortcuts. These only connect the handlers above to the page.
- Local storage I/O and `JSON.parse`. Loading starts from the stored value as
  absent, unparseable or parsed JSON. A failure to parse `ai_useTailwind` or
  `ai_useGoogleSearch` (App.tsx:133, 135) is a flag each. Saving is modelled
  as the JSON value written, not as a string.
- A malformed `ai_apiKeys` value. It is parsed inside the updater passed to
  `setApiKeys` (App.tsx:132), which React runs after the effect, outside its
  `try`. The throw escapes the effect and dispatches no `CREATE_CHAT`; the
  model records nothing for it.
- The preferences and API keys (`ai_apiKeys`, `ai_useTailwind`,
  `ai_systemPrompt`, `ai_useGoogleSearch`). They are state the turn passes
  through unchanged to the service.
- The generation service and the browser service. Their answers are inputs:
  a `Turn` lists each hop's events, how its stream ended and what extraction
  returned. `DOMParser` is replaced by the page's body text.
- The model identifier, API keys, Tailwind flag, system prompt and search flag
  among the stream arguments. Only the prompt, image, files, selection and
  view are recorded.
- The element-text edit path (App.tsx:321-336). It depends on `DOMParser` and
  DOM serialisation.
- Zip download and GitHub and Supabase deployment (App.tsx:342-415). These are
  network calls and a foreign library.
- The chat and modal reducers. They are not part of this model. Actions are
  logged, and the active chat only changes through `AppShell.App.Render`.
  `CREATE_CHAT` and `SELECT_CHAT` from the chat-history modal are plain
  dispatches with no logic of their own.
- Debounce timing. The pending commit is a field that a newer edit replaces;
  the timer firing is `AppShell.App.FlushPendingEdit`.
- Concurrency. This covers a second send while one runs, and a stop that
  arrives during a stream. A stop during a stream appears as a stream that
  ended with an `AbortError`.
- A stop during page extraction. In the source `handleStopGeneration` clears
  the loading flag at once (App.tsx:169-172), and the aborted extraction then
  reports a navigation failure. The model can show that stop only as an
  `ExtractThrew` hop. There, `Orchestrator.FailedExtractionKeepsLoading` and
  `Orchestrator.StuckOnlyAfterFailedExtraction` leave the loading flag set,
  because the handler's own `finally` does not clear it. The clearing by the
  stop handler, which runs in between, is not captured.
- `uuidv4()` and `Date.now()`. The identifiers and the time are parameters.
- constants.ts (static model tables) and src/App.tsx (a counter demo).
- Persist.SanitiseIndex: a JavaScript number may be fractional. The model uses
  integers, so a fractional in-range `historyIndex`, which the source keeps,
  cannot be represented.
- Directive.ContinuationPrompt: `slice(0, 10000)` counts UTF-16 code units,
  while the model counts characters. Text outside the Basic Multilingual Plane
  would be cut at a different point.
- AppShell.App.Render: the source's effect watches `activeChatId` and the
  active chat's `historyIndex`. The model watches the id and cursor of the
  active chat it is given. A change between two ids that name no chat clears
  the overlay in the source but not in the model.
- AppShell.App.HandleSendMessage: the reducer's effect on the chat's messages
  is not modelled. Each hop's payload is the captured message list plus its
  own messages, recorded as dispatched.
