# Photo editor session model

The project models the client-side logic of a one-page photo editor. The user
uploads an image and types an editing instruction. The page sends both to a
Gemini image model and shows the edited picture. It also keeps a short history
of the prompts that worked. Everything on the page apart from this logic is
rendering.

The model is written in Dafny and has these modules:

- `Wrappers`: `Option` (a TypeScript `undefined`/`null`) and `Result` (a promise
  that resolves or rejects).
- `Js`: the parts of the ECMAScript runtime the code relies on. These are
  `String.prototype.trim` with its exact whitespace set, `split` and `join` on a
  one-character separator, and thrown values (an `Error` with a message, or
  any other value).
- `GenAi`: the SDK's request and response shapes, restricted to the fields the
  code reads. Each of those fields is an `Option`, so every shape of them the
  code can meet can be written down.
- `FileUtils`: the encoder. It covers the data-URL payload (`split(',')[1]`)
  and the inline-data `Part` built from a file.
- `GeminiService`: the edit client. It covers request part order, the
  validating pick of the image data from a reply, and the collapse of every
  failure into one message. The SDK call is a parameter
  `server: Request -> RemoteReply`, so the request actually sent is visible.
- `PromptHistory` and `PromptControls`: the caption shortening for history
  chips, the chip wiring, and the predicate that disables the Generate button.
- `App`: the session state machine. The session is an immutable record with
  the original image, edited image, prompt, loading flag, error and history.
  Each handler is a pure function on it. `handleGenerate` is split in two.
  `Start` validates, switches loading on and yields the `Call`: what the
  handler's closure captured, namely the file, the trimmed prompt and the
  history as it was. `Complete` applies `Succeeded(base64)` or
  `Failed(thrown)` to the session as it is at settlement. The history check
  reads the captured history and the update reads the current one, as the
  `includes` test and the functional updater do. `Generate` runs the two
  halves back to back.
- `App.Step`/`App.Run`: the page. A `Page` is the session plus the pending
  generation. Events are the controls the page renders and the settlement of
  the pending generation. Each control acts only when it is shown, and
  Generate and the chips only when not disabled. Other events may come between
  a start and its settlement.

Behaviour follows the code. In a few places the code does less than a stricter
design would, and the model keeps what the code does:

- Neither the state nor the handler has a generation counter. A result that
  settles after a new upload is still written next to the new image
  (`StaleResultIsApplied`).
- The handler does not check the loading flag. The only single-flight guard is
  the disabled Generate button (`StartIgnoresLoading`,
  `GenerateButtonMatchesValidation`, `PendingBlocksGenerate`). The history
  stays duplicate-free only because of that guard. Two generations started
  back to back on the handler alone both see the history without the prompt,
  and two successes then record it twice (`OverlappingStartsDuplicate`,
  `StaleSnapshotDuplicates`).
- Succeeding again with a prompt already in the history leaves the history
  exactly as it was. The prompt is not moved to the front (`RecordPrompt`).
- The upload handler listens to `onloadend`, which fires after a read error
  too. A failed read therefore still installs the image, with no preview URL,
  and clears the edited image and the error (`Upload`).
- The encoder rejects with the reader's error event, which is not an `Error`.
  A read failure during generation therefore shows the generic fallback text,
  not the service's message (`GenerateFails`).

## Model

| member | source | states |
|---|---|---|
| Js.Trim | App.tsx:34 | `trim` yields the piece of the prompt left after removing whitespace and line terminators from both ends: everything before and after it is trimmable, it has none at either end, and it is empty exactly when the prompt is all whitespace |
| Js.TrimOfTrimmed | App.tsx:34 | a prompt with no whitespace at either end trims to itself |
| Js.Split | utils/fileUtils.ts:16 | `split(',')` yields at least one comma-free piece, and joining the pieces with commas restores the string |
| Js.SplitJoin | utils/fileUtils.ts:16 | splitting undoes joining of comma-free pieces, so split and join are inverses |
| FileUtils.Base64Payload | utils/fileUtils.ts:16 | `split(',')[1]` is comma-free when it exists |
| FileUtils.PayloadAbsentIffNoComma | utils/fileUtils.ts:16 | index 1 of the split is undefined exactly when the data URL has no comma |
| FileUtils.PayloadIsSecondSegment | utils/fileUtils.ts:16 | the payload is exactly the text between the first comma and the next comma or the end |
| FileUtils.DataUrlRoundTrip | utils/fileUtils.ts:14-16 | for `data:<mime>;base64,<b64>` with no comma in mime or b64, the payload is exactly `<b64>` |
| FileUtils.GenerativePart | utils/fileUtils.ts:18-34 | a read error rejects with a non-Error value and no part; otherwise the part has inline data only, with the split payload and the file's declared media type |
| FileUtils.PartOfWellFormedRead | utils/fileUtils.ts:27-34 | for a browser-made data URL the part carries the base64 content and declared type verbatim |
| GeminiService.BuildRequest | services/geminiService.ts:22-27 | the request parts are the image part, then a text-only part with the prompt |
| GeminiService.ExtractImage | services/geminiService.ts:35-45 | the reply yields data exactly when the first candidate's first part has non-empty `inlineData.data`, and then yields that string |
| GeminiService.LaterCandidatesIgnored | services/geminiService.ts:35 | candidates after the first never affect the result |
| GeminiService.LaterPartsIgnored | services/geminiService.ts:40 | parts after the first never affect the result |
| GeminiService.EditImage | services/geminiService.ts:17-51 | the result is the image data of the reply to the built request; every failure carries the one fixed message |
| GeminiService.FailuresAreNormalised | services/geminiService.ts:47-50 | a failed call and every kind of faulty reply give the same error |
| GeminiService.OnlyTheBuiltRequestMatters | services/geminiService.ts:19-28 | the outcome depends on the remote call only through its reply to the one built request |
| PromptHistory.Label | components/PromptHistory.tsx:32 | a caption is at most 25 long; a prompt of 25 or fewer is shown as is; a longer one shows as its first 22 characters plus "..." |
| PromptHistory.Render | components/PromptHistory.tsx:18-31 | an empty history shows only the placeholder; otherwise one chip per entry in order, each selecting its full prompt, all with the same disabled flag |
| PromptHistory.ChipsShowShortSelectLong | components/PromptHistory.tsx:27-32 | every caption fits the limit; the i-th chip selects the i-th full prompt; a shortened caption differs from the prompt it selects |
| PromptControls.GenerateDisabled | components/PromptControls.tsx:31 | the Generate button is disabled while loading, while the editor is disabled, and while the prompt is all whitespace, and in no other case |
| PromptControls.GenerateEnabledIff | components/PromptControls.tsx:31 | Generate is enabled exactly when not loading, not disabled and the prompt is not all whitespace |
| App.UpdateHistory | App.tsx:49-52 | the membership test reads the history the generation saw at its start and the update reads the current one: a prompt seen leaves the current history as it is; a new one goes first, followed by the current history cut to at most 15 in all |
| App.StaleSnapshotDuplicates | App.tsx:50-51 | when the prompt was added after the generation's snapshot, the update adds it a second time |
| App.RecordPrompt | App.tsx:49-52 | with no settlement in between (snapshot and current history agree) the prompt is in the history after a success; a known prompt leaves the history unchanged and unreordered; a new one goes first, followed by the old history cut to at most 15 in all |
| App.RecordPromptKeepsHistoryValid | App.tsx:49-52 | recording keeps the history at most 15 long and duplicate-free |
| App.RecordPromptIdempotent | App.tsx:50 | succeeding twice with one prompt records it once |
| App.Upload | App.tsx:20-31 | upload installs the file (preview URL only when the read succeeded), clears the edited image and error, and changes nothing else |
| App.SetPrompt | components/PromptControls.tsx:23 | the editor stores the raw, untrimmed text and changes nothing else |
| App.SelectPrompt | App.tsx:68-70 | selecting a history prompt sets only the prompt |
| App.Clear | App.tsx:61-66 | Start Over empties image, edited image, prompt and error, and keeps history and loading |
| App.ClearIdempotent | App.tsx:61-66 | clearing twice is the same as clearing once |
| App.Start | App.tsx:33-42 | with no image or an all-whitespace prompt only the error changes, to the validation message, and no call is made; otherwise loading is set, error and edited image are cleared, and a call starts on the image's file with the trimmed prompt and the history as it is now |
| App.StartIgnoresLoading | App.tsx:33-38 | the handler's validation does not consult the loading flag |
| App.ErrorText | App.tsx:55 | an `Error` shows its message; any other thrown value shows the fallback text |
| App.Dispatched | App.tsx:45-46 | once the file is read, the request sent carries the encoded image and the call's prompt; a failed read sends nothing |
| App.Perform | App.tsx:44-46 | a read failure becomes a non-Error rejection; every service failure is an `Error` with the fixed message; once the file is read, the generation succeeds exactly when the reply to the dispatched request holds image data, and the result is that data |
| App.PerformAsksOnlyDispatched | App.tsx:45-46 | servers that agree on the dispatched request give the same outcome |
| App.Complete | App.tsx:47-58 | success shows a PNG data URL of the data and updates the history by the start-time test (a prompt already seen then leaves the current history unchanged; a new one goes first), which is `RecordPrompt` when nothing else settled meanwhile; failure shows the thrown message and keeps result and history; loading always ends |
| App.Generate | App.tsx:33-59 | a rejected generation only sets the validation error; a started one always ends not loading, with either an edited image or an error but not both, and with image and prompt unchanged |
| App.GenerateSendsTrimmedPrompt | App.tsx:34-46 | the request sent carries the trimmed prompt as text, after the image part |
| App.GenerateSucceeds | App.tsx:47-52 | on success the edited image is `data:image/png;base64,` plus the data, the error is cleared and the trimmed prompt is recorded |
| App.GenerateFails | App.tsx:53-58 | on failure there is no edited image, the error is the service message (or the fallback after a read error), and the history is unchanged |
| App.StaleResultIsApplied | App.tsx:33-59 | a result that settles after a new upload is still written next to the new image |
| App.ControlsProps | App.tsx:81-89 | the editor shows only when an image is present, and is then never disabled |
| App.GenerateButtonMatchesValidation | components/PromptControls.tsx:31 | the button is enabled exactly when the handler would start a call and nothing is loading |
| App.HistoryPanel | App.tsx:90-94 | the history panel shows with the editor, and is then the rendering of the session's history (placeholder when empty, otherwise shortened captions in order) with chips disabled exactly while loading |
| App.ChipClickSelectsEntry | components/PromptHistory.tsx:27 | clicking the i-th chip puts the i-th full history entry in the editor |
| App.OverlappingStartsDuplicate | App.tsx:33-52 | two generations started on the handler without the button's guard, both succeeding, leave the new prompt twice at the front of the history |
| App.Step | App.tsx:80-100 | each event applies its handler exactly when its control is shown and enabled, and otherwise leaves the page as it is: upload always installs the file; editing and Start Over act only with an image; Generate, when shown and enabled, applies `Start` and keeps its call pending; a chip click, with an image, while not loading and for an existing entry, selects that full entry; a settlement applies `Complete` to the pending call and closes it, and does nothing when none is pending; only a successful settlement changes the history |
| App.PendingBlocksGenerate | components/PromptControls.tsx:31 | while a generation is pending, clicking Generate does nothing |
| App.StepKeepsInvariant | App.tsx:49-52 | every page event keeps the history valid, keeps a call pending exactly while loading, and keeps the pending call's snapshot equal to the current history |
| App.RunKeepsInvariant | App.tsx:49-52 | any sequence of page events, in any interleaving with the settlement, keeps that invariant |
| App.ReachableHistoryValid | App.tsx:18 | every page reachable from the first render has a history of at most 15 distinct prompts |

## Left out

- FileReader I/O and its callbacks (App.tsx:21-30, utils/fileUtils.ts:10-19). Each read outcome is an input: a data URL or a read error.
- The SDK call, model name, `responseModalities` setting and the module-level API key check (services/geminiService.ts:5-9, 19-32). These are library and configuration concerns. The call is a parameter from request to reply.
- Base64 encoding and decoding. The code never decodes, so payloads are opaque strings.
- `console.error` logging in the catch blocks, which is not observable state.
- React's render scheduling and batching of state updates. Each handler's state updates are applied together, and a settlement sees the session as it is then. The one stale read that matters, the history captured by `handleGenerate`, is modelled as the call's snapshot.
- Reply shapes the code never reads: `null` entries inside `candidates` or `parts` (a `null` first part throws a TypeError at services/geminiService.ts:41, which the catch turns into the fixed message like any fault) and the `Part` fields other than `inlineData` and `text`.
- Rendering-only components: ResultDisplay (view selection, fixed download filename), ImageUploader (drag and drop, first file picked) and Header (static markup).
- PromptHistory.Label: lengths count Unicode code points, while JavaScript `length` and `substring` count UTF-16 code units. The two differ only for prompts with characters outside the Basic Multilingual Plane.
- Js.Trim: same code-point versus UTF-16 caveat. The whitespace set itself is the full ECMAScript one.
- GeminiService.ExtractImage: a first candidate with no `content` throws a runtime TypeError. It is modelled as its own fault, and its message is not modelled because it is replaced anyway.
