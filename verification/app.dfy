/** The session state machine of the editor page: the image being edited, the
    edited result, the prompt, the loading flag, the last error and the
    history of prompts that produced an image. Each event handler of the page
    is a pure function from one session to the next. */
module App {
  import opened Wrappers
  import opened Js
  import opened GenAi
  import opened FileUtils
  import opened GeminiService
  import PromptControls
  import PromptHistory

  const ValidationMessage := "Please upload an image and enter a prompt."
  /** Shown when something other than an `Error` instance was thrown. */
  const FallbackMessage := "An unexpected error occurred. Please try again."
  /** The edited image is always displayed as PNG, whatever the model sent. */
  const PngDataUrlPrefix := "data:image/png;base64,"
  const MaxHistory := 15

  /** The uploaded image: the file, and the reader's data URL used as preview
      (`null` when the read ended in an error). */
  datatype ImageFile = ImageFile(file: File, dataUrl: Option<string>)

  datatype Session = Session(
    originalImage: Option<ImageFile>,
    editedImage: Option<string>,
    prompt: string,
    isLoading: bool,
    error: Option<string>,
    history: seq<string>)

  /** The page as first rendered. */
  const Initial := Session(None, None, "", false, None, [])

  predicate NoDuplicates(h: seq<string>) {
    forall i, j :: 0 <= i < j < |h| ==> h[i] != h[j]
  }

  /** The promise about prompt history: short and duplicate-free. */
  predicate ValidHistory(h: seq<string>) {
    |h| <= MaxHistory && NoDuplicates(h)
  }

  /** The history update after `prompt` produced an image. The membership
      test reads `seen`, the history the generation saw when it started; the
      update reads `current`, the history when it settles. A prompt already
      seen leaves the current history as it is; otherwise the prompt goes to
      the front and the oldest entries beyond fifteen fall off. */
  function UpdateHistory(seen: seq<string>, current: seq<string>, prompt: string): (h: seq<string>)
    ensures prompt in seen ==> h == current
    ensures prompt !in seen ==> |h| == if |current| < MaxHistory then |current| + 1 else MaxHistory
    ensures prompt !in seen ==> h[0] == prompt && h[1..] <= current
  {
    if prompt in seen then current
    else
      var n := if |current| < MaxHistory then |current| + 1 else MaxHistory;
      var h := ([prompt] + current)[..n];
      assert h[0] == prompt;
      assert h[1..] == current[..n - 1];
      h
  }

  /** The update when nothing settled in between, so both reads see the same
      history: the prompt ends up in the history; a known prompt leaves it
      unchanged and in the same order; a new one goes to the front. */
  function RecordPrompt(history: seq<string>, prompt: string): (h: seq<string>)
    ensures prompt in h
    ensures prompt in history ==> h == history
    ensures prompt !in history ==> h[0] == prompt && h[1..] <= history
    ensures prompt !in history ==> |h| == if |history| < MaxHistory then |history| + 1 else MaxHistory
  {
    UpdateHistory(history, history, prompt)
  }

  /** Recording a prompt keeps the history short and duplicate-free. */
  lemma RecordPromptKeepsHistoryValid(history: seq<string>, prompt: string)
    requires ValidHistory(history)
    ensures ValidHistory(RecordPrompt(history, prompt))
  {
  }

  /** With a stale snapshot the update can duplicate: a prompt missing from
      the history a generation saw, but added since by another generation,
      is added a second time. */
  lemma StaleSnapshotDuplicates(seen: seq<string>, current: seq<string>, prompt: string)
    requires prompt !in seen && prompt in current && |current| < MaxHistory
    ensures !NoDuplicates(UpdateHistory(seen, current, prompt))
  {
    var h := UpdateHistory(seen, current, prompt);
    var j :| 0 <= j < |current| && current[j] == prompt;
    assert h[1..][j] == current[j];
    assert h[0] == h[j + 1];
  }

  /** Succeeding twice with the same prompt remembers it once. */
  lemma RecordPromptIdempotent(history: seq<string>, prompt: string)
    ensures RecordPrompt(RecordPrompt(history, prompt), prompt) == RecordPrompt(history, prompt)
  {
  }

  /** `handleImageUpload`, once the reader has finished (`onloadend` fires on
      success and on error alike): the new image replaces the old one and the
      edited image and error are cleared; nothing else changes. */
  function Upload(s: Session, file: File, read: ReadOutcome): (r: Session)
    ensures r.originalImage.Some? && r.originalImage.value.file == file
    ensures r.originalImage.value.dataUrl == (if read.Loaded? then Some(read.dataUrl) else None)
    ensures r.editedImage.None? && r.error.None?
    ensures r.(originalImage := s.originalImage, editedImage := s.editedImage, error := s.error) == s
  {
    var url := if read.Loaded? then Some(read.dataUrl) else None;
    s.(originalImage := Some(ImageFile(file, url)), editedImage := None, error := None)
  }

  /** The prompt editor's change handler: the raw, untrimmed text is stored. */
  function SetPrompt(s: Session, value: string): (r: Session)
    ensures r.prompt == value
    ensures r.(prompt := s.prompt) == s
  {
    s.(prompt := value)
  }

  /** `handleSelectPrompt`: a history chip sets the prompt and nothing else;
      it does not generate. */
  function SelectPrompt(s: Session, selected: string): (r: Session)
    ensures r.prompt == selected
    ensures r.(prompt := s.prompt) == s
  {
    SetPrompt(s, selected)
  }

  /** `handleClear`: empties image, result, prompt and error; the history and
      the loading flag survive. */
  function Clear(s: Session): (r: Session)
    ensures r.originalImage.None? && r.editedImage.None? && r.prompt == "" && r.error.None?
    ensures r.history == s.history && r.isLoading == s.isLoading
  {
    s.(originalImage := None, editedImage := None, prompt := "", error := None)
  }

  lemma ClearIdempotent(s: Session)
    ensures Clear(Clear(s)) == Clear(s)
  {
  }

  /** A generation in flight: what the handler's closure captured when it
      started, namely the image's file, the trimmed prompt and the history. */
  datatype Call = Call(file: File, prompt: string, seenHistory: seq<string>)

  /** The first, synchronous half of `handleGenerate`: the session it leaves
      behind and the call it starts, if any. */
  datatype Launch = Launch(next: Session, call: Option<Call>)

  /** Validation and start. With no image or a blank prompt only the error is
      set (to the validation message) and no call is made; otherwise loading
      is switched on, error and edited image are cleared, and a call starts
      with the trimmed prompt. The loading flag itself is not consulted. */
  function Start(s: Session): (l: Launch)
    ensures l.call.None? <==> s.originalImage.None? || AllTrimmable(s.prompt)
    ensures l.call.None? ==> l.next == s.(error := Some(ValidationMessage))
    ensures l.call.Some? ==> l.call.value.file == s.originalImage.value.file
    ensures l.call.Some? ==> l.call.value.prompt == Trim(s.prompt) && l.call.value.prompt != ""
    ensures l.call.Some? ==> l.call.value.seenHistory == s.history
    ensures l.call.Some? ==> l.next.isLoading && l.next.error.None? && l.next.editedImage.None?
    ensures l.call.Some? ==> l.next.(isLoading := s.isLoading, error := s.error, editedImage := s.editedImage) == s
  {
    var trimmed := Trim(s.prompt);
    if s.originalImage.None? || trimmed == "" then
      Launch(s.(error := Some(ValidationMessage)), None)
    else
      Launch(s.(isLoading := true, error := None, editedImage := None),
             Some(Call(s.originalImage.value.file, trimmed, s.history)))
  }

  /** The single-flight guard is not in the handler: starting behaves the
      same whether or not a generation is already loading. */
  lemma StartIgnoresLoading(s: Session)
    ensures Start(s).call == Start(s.(isLoading := !s.isLoading)).call
  {
  }

  /** How the asynchronous half of `handleGenerate` settled. */
  datatype Outcome = Succeeded(base64: string) | Failed(thrown: Thrown)

  /** The message the catch block shows for a thrown value. */
  function ErrorText(t: Thrown): (msg: string)
    ensures t.ErrorObject? ==> msg == t.message
    ensures t.OtherValue? ==> msg == FallbackMessage
  {
    match t
    case ErrorObject(m) => m
    case OtherValue => FallbackMessage
  }

  /** The request a call sends once the file has been read: the encoded image
      and the call's prompt. A failed read sends nothing. */
  function Dispatched(call: Call, read: ReadOutcome): (req: Option<Request>)
    ensures req.Some? <==> read.Loaded?
    ensures req.Some? ==> |req.value.parts| == 2 && req.value.parts[1].text == Some(call.prompt)
    ensures req.Some? ==> req.value.parts[0].inlineData == Some(Blob(Base64Payload(read.dataUrl), Some(call.file.mimeType)))
  {
    match GenerativePart(call.file, read)
    case Ok(part) => Some(BuildRequest(part, call.prompt))
    case Err(_) => None
  }

  /** The awaited body of the try block: encode the file, then call the
      service. A read error surfaces as a non-`Error` value; every service
      failure as an `Error` with the fixed message; success as the base64
      text of the reply to the dispatched request. */
  function Perform(call: Call, read: ReadOutcome, server: Request -> RemoteReply): (o: Outcome)
    ensures read.ReadFailed? ==> o == Failed(OtherValue)
    ensures read.Loaded? && o.Failed? ==> o.thrown == ErrorObject(FailureMessage)
    ensures read.Loaded? ==> (o.Succeeded? <==> server(Dispatched(call, read).value).Responded?
                                                && ExtractImage(server(Dispatched(call, read).value).response).Ok?)
    ensures o.Succeeded? ==> Dispatched(call, read).Some? && o.base64 != ""
    ensures o.Succeeded? ==> server(Dispatched(call, read).value).Responded?
                             && ExtractImage(server(Dispatched(call, read).value).response) == Ok(o.base64)
  {
    match GenerativePart(call.file, read)
    case Err(t) => Failed(t)
    case Ok(part) =>
      match EditImage(part, call.prompt, server)
      case Ok(data) => Succeeded(data)
      case Err(msg) => Failed(ErrorObject(msg))
  }

  /** The remote call is asked exactly one question: two servers that agree
      on the dispatched request give the same outcome. */
  lemma PerformAsksOnlyDispatched(call: Call, read: ReadOutcome, s1: Request -> RemoteReply, s2: Request -> RemoteReply)
    requires Dispatched(call, read).Some? ==> s1(Dispatched(call, read).value) == s2(Dispatched(call, read).value)
    ensures Perform(call, read, s1) == Perform(call, read, s2)
  {
    if read.Loaded? {
      var part := GenerativePart(call.file, read).value;
      OnlyTheBuiltRequestMatters(part, call.prompt, s1, s2);
    }
  }

  /** The second half of `handleGenerate` (the body after the await, the catch
      block and the finally block), applied to whatever the session is when
      the call settles. Success shows the result as a PNG data URL and updates
      the history, testing the history the call saw at its start; failure
      shows the thrown message and leaves result and history alone. Either
      way loading ends. The two clauses after the `RecordPrompt` one are
      consequences of the `UpdateHistory` clause, spelled out as the two
      branches of the `includes` test. */
  function Complete(s: Session, call: Call, outcome: Outcome): (r: Session)
    ensures !r.isLoading
    ensures r.originalImage == s.originalImage && r.prompt == s.prompt
    ensures outcome.Succeeded? ==> r.editedImage == Some(PngDataUrlPrefix + outcome.base64) && r.error == s.error
    ensures outcome.Succeeded? ==> r.history == UpdateHistory(call.seenHistory, s.history, call.prompt)
    ensures outcome.Succeeded? && call.seenHistory == s.history ==> r.history == RecordPrompt(s.history, call.prompt)
    ensures outcome.Succeeded? && call.prompt in call.seenHistory ==> r.history == s.history
    ensures outcome.Succeeded? && call.prompt !in call.seenHistory ==>
              r.history[0] == call.prompt && r.history[1..] <= s.history
    ensures outcome.Failed? ==> r.error == Some(ErrorText(outcome.thrown))
    ensures outcome.Failed? ==> r.editedImage == s.editedImage && r.history == s.history
  {
    match outcome
    case Succeeded(data) =>
      s.(editedImage := Some(PngDataUrlPrefix + data),
         history := UpdateHistory(call.seenHistory, s.history, call.prompt),
         isLoading := false)
    case Failed(t) =>
      s.(error := Some(ErrorText(t)), isLoading := false)
  }

  /** `handleGenerate` run to completion with nothing in between: validation,
      start, the call, and its settlement. */
  function Generate(s: Session, read: ReadOutcome, server: Request -> RemoteReply): (r: Session)
    ensures Start(s).call.None? ==> r == s.(error := Some(ValidationMessage))
    ensures Start(s).call.Some? ==> !r.isLoading
    ensures Start(s).call.Some? ==> (r.editedImage.Some? <==> r.error.None?)
    ensures Start(s).call.Some? ==>
              r.(editedImage := s.editedImage, error := s.error, history := s.history, isLoading := s.isLoading) == s
  {
    var l := Start(s);
    match l.call
    case None => l.next
    case Some(c) => Complete(l.next, c, Perform(c, read, server))
  }

  /** The request a generation sends carries the trimmed prompt, never the
      raw text, and the image part comes first. */
  lemma GenerateSendsTrimmedPrompt(s: Session, read: ReadOutcome)
    requires Start(s).call.Some? && read.Loaded?
    ensures Dispatched(Start(s).call.value, read).Some?
    ensures Dispatched(Start(s).call.value, read).value.parts[1].text == Some(Trim(s.prompt))
    ensures Dispatched(Start(s).call.value, read).value.parts[0].inlineData.Some?
  {
  }

  /** A successful generation shows the returned image as a PNG data URL,
      clears the error and records the trimmed prompt. */
  lemma GenerateSucceeds(s: Session, read: ReadOutcome, server: Request -> RemoteReply, base64: string)
    requires Start(s).call.Some? && read.Loaded?
    requires EditImage(GenerativePart(s.originalImage.value.file, read).value, Trim(s.prompt), server) == Ok(base64)
    ensures Generate(s, read, server).editedImage == Some(PngDataUrlPrefix + base64)
    ensures Generate(s, read, server).error.None?
    ensures Generate(s, read, server).history == RecordPrompt(s.history, Trim(s.prompt))
  {
  }

  /** A failed generation shows no image and an error, and keeps the history:
      the fixed service message when the service failed, the fallback text
      when the file could not be read. */
  lemma GenerateFails(s: Session, read: ReadOutcome, server: Request -> RemoteReply)
    requires Start(s).call.Some?
    requires read.Loaded? ==> EditImage(GenerativePart(s.originalImage.value.file, read).value, Trim(s.prompt), server).Err?
    ensures Generate(s, read, server).editedImage.None?
    ensures Generate(s, read, server).error == Some(if read.Loaded? then FailureMessage else FallbackMessage)
    ensures Generate(s, read, server).history == s.history
  {
  }

  /** No interleaving guard: a generation that settles after a new upload
      still writes its result next to the new image. */
  lemma StaleResultIsApplied(s: Session, file: File, read: ReadOutcome, base64: string)
    requires s.originalImage.Some? && !AllTrimmable(s.prompt)
    ensures var c := Start(s).call.value;
            var r := Complete(Upload(Start(s).next, file, read), c, Succeeded(base64));
            && c.file == s.originalImage.value.file
            && r.originalImage.value.file == file
            && r.editedImage == Some(PngDataUrlPrefix + base64)
  {
  }

  /** The editor's props: it is shown only once an image is present, and is
      then never disabled. */
  function ControlsProps(s: Session): (p: Option<PromptControls.Props>)
    ensures p.Some? <==> s.originalImage.Some?
    ensures p.Some? ==> p.value.prompt == s.prompt && p.value.isLoading == s.isLoading && !p.value.disabled
  {
    if s.originalImage.Some? then Some(PromptControls.Props(s.prompt, s.isLoading, s.originalImage.None?))
    else None
  }

  /** Clicking Generate is possible exactly when the handler would start a
      call and none is loading: an enabled click always passes validation,
      and a loading session cannot start a second call from the button. */
  lemma GenerateButtonMatchesValidation(s: Session)
    ensures (ControlsProps(s).Some? && !PromptControls.GenerateDisabled(ControlsProps(s).value))
            <==> (Start(s).call.Some? && !s.isLoading)
  {
  }

  /** The history panel, shown next to the editor, with chips disabled while
      loading. */
  function HistoryPanel(s: Session): (v: Option<PromptHistory.View>)
    ensures v.Some? <==> s.originalImage.Some?
    ensures v.Some? ==> v.value == PromptHistory.Render(s.history, s.isLoading)
    ensures v.Some? && |s.history| > 0 ==> v.value.Chips? && |v.value.chips| == |s.history|
    ensures v.Some? && v.value.Chips? ==> forall i :: 0 <= i < |v.value.chips| ==> v.value.chips[i].disabled == s.isLoading
  {
    if s.originalImage.Some? then Some(PromptHistory.Render(s.history, s.isLoading)) else None
  }

  /** Clicking the i-th chip puts the i-th full history entry in the editor,
      even when its caption was shortened. */
  lemma ChipClickSelectsEntry(s: Session, i: int)
    requires HistoryPanel(s).Some? && HistoryPanel(s).value.Chips?
    requires 0 <= i < |HistoryPanel(s).value.chips|
    ensures SelectPrompt(s, HistoryPanel(s).value.chips[i].selects).prompt == s.history[i]
  {
  }

  /** Two generations started back to back on the handler alone (nothing
      stops this but the disabled button) both see the history without the
      prompt, so two successes record it twice. */
  lemma OverlappingStartsDuplicate(s: Session, a: string, b: string)
    requires s.originalImage.Some? && !AllTrimmable(s.prompt)
    requires Trim(s.prompt) !in s.history
    ensures var first := Start(s);
            var second := Start(first.next);
            && second.call.Some?
            && var h := Complete(Complete(second.next, first.call.value, Succeeded(a)), second.call.value, Succeeded(b)).history;
               |h| >= 2 && h[0] == Trim(s.prompt) && h[1] == Trim(s.prompt)
  {
    var first := Start(s);
    var second := Start(first.next);
    var s1 := Complete(second.next, first.call.value, Succeeded(a));
    assert s1.history[0] == Trim(s.prompt);
  }

  /** The page: the session and the one generation still to settle, if any. */
  datatype Page = Page(session: Session, pending: Option<Call>)

  const InitialPage := Page(Initial, None)

  /** What the user can do on the page, and the settlement of a generation. */
  datatype Event =
    | UploadImage(file: File, read: ReadOutcome)
    | EditPrompt(value: string)
    | ClickGenerate
    | Settle(outcome: Outcome)
    | PickChip(index: nat)
    | ClickStartOver

  /** The page's wiring. The uploader is always there; the editor, the
      Generate button, the chips and Start Over only once an image is
      present. A disabled button or chip ignores clicks. A settlement closes
      the pending generation, and there is none to close when nothing is
      pending. */
  function Step(p: Page, e: Event): (r: Page)
    ensures e.UploadImage? ==> r == p.(session := Upload(p.session, e.file, e.read))
    ensures e.EditPrompt? && p.session.originalImage.Some? ==> r == p.(session := SetPrompt(p.session, e.value))
    ensures e.EditPrompt? && p.session.originalImage.None? ==> r == p
    ensures (e.ClickGenerate? && ControlsProps(p.session).Some?
             && !PromptControls.GenerateDisabled(ControlsProps(p.session).value))
            ==> r == Page(Start(p.session).next, Start(p.session).call)
    ensures e.Settle? && p.pending.Some? ==> r == Page(Complete(p.session, p.pending.value, e.outcome), None)
    ensures (e.PickChip? && p.session.originalImage.Some? && !p.session.isLoading
             && e.index < |p.session.history|)
            ==> r == p.(session := SelectPrompt(p.session, p.session.history[e.index]))
    ensures (e.PickChip? && (p.session.originalImage.None? || p.session.isLoading
                             || e.index >= |p.session.history|))
            ==> r == p
    ensures e.ClickStartOver? && p.session.originalImage.Some? ==> r == p.(session := Clear(p.session))
    ensures e.ClickStartOver? && p.session.originalImage.None? ==> r == p
    ensures (e.ClickGenerate?
             && (ControlsProps(p.session).None? || PromptControls.GenerateDisabled(ControlsProps(p.session).value)))
            ==> r == p
    ensures e.ClickGenerate? && r != p ==> r.pending == Start(p.session).call && r.pending.Some?
    ensures e.Settle? && p.pending.None? ==> r == p
    ensures e.Settle? && p.pending.Some? ==> r.pending.None?
    ensures r.pending.Some? && r.pending != p.pending ==> e.ClickGenerate?
    ensures r.session.history != p.session.history ==> e.Settle? && e.outcome.Succeeded? && p.pending.Some?
  {
    var s := p.session;
    match e
    case UploadImage(f, rd) => p.(session := Upload(s, f, rd))
    case EditPrompt(v) => if ControlsProps(s).Some? then p.(session := SetPrompt(s, v)) else p
    case ClickGenerate =>
      if ControlsProps(s).Some? && !PromptControls.GenerateDisabled(ControlsProps(s).value) then
        GenerateButtonMatchesValidation(s);
        var l := Start(s);
        Page(l.next, l.call)
      else p
    case Settle(o) =>
      if p.pending.Some? then Page(Complete(s, p.pending.value, o), None) else p
    case PickChip(i) =>
      var panel := HistoryPanel(s);
      if panel.Some? && panel.value.Chips? && i < |panel.value.chips| && !panel.value.chips[i].disabled
      then p.(session := SelectPrompt(s, panel.value.chips[i].selects))
      else p
    case ClickStartOver => if s.originalImage.Some? then p.(session := Clear(s)) else p
  }

  function Run(p: Page, events: seq<Event>): Page
    decreases |events|
  {
    if |events| == 0 then p else Run(Step(p, events[0]), events[1..])
  }

  /** What holds on every reachable page: the history is valid, a generation
      is pending exactly while loading, and the pending generation saw the
      history as it still is. */
  predicate PageInvariant(p: Page) {
    && ValidHistory(p.session.history)
    && (p.pending.Some? <==> p.session.isLoading)
    && (p.pending.Some? ==> p.pending.value.seenHistory == p.session.history)
  }

  /** Single flight: while a generation is pending, clicking Generate does
      nothing. */
  lemma PendingBlocksGenerate(p: Page)
    requires PageInvariant(p) && p.pending.Some?
    ensures Step(p, ClickGenerate) == p
  {
  }

  /** Every event keeps the invariant. Because the button keeps a single
      generation in flight, its snapshot of the history is still current when
      it settles, and the update is the duplicate-free `RecordPrompt`. */
  lemma StepKeepsInvariant(p: Page, e: Event)
    requires PageInvariant(p)
    ensures PageInvariant(Step(p, e))
  {
    if e.Settle? && e.outcome.Succeeded? && p.pending.Some? {
      RecordPromptKeepsHistoryValid(p.session.history, p.pending.value.prompt);
    }
  }

  /** Whatever the user does, in whatever order, and whenever the pending
      generation settles, the invariant holds. */
  lemma {:induction false} RunKeepsInvariant(p: Page, events: seq<Event>)
    requires PageInvariant(p)
    ensures PageInvariant(Run(p, events))
    decreases |events|
  {
    if |events| > 0 {
      StepKeepsInvariant(p, events[0]);
      RunKeepsInvariant(Step(p, events[0]), events[1..]);
    }
  }

  /** Every page reachable from the first render has a history of at most
      fifteen distinct prompts. */
  lemma ReachableHistoryValid(events: seq<Event>)
    ensures ValidHistory(Run(InitialPage, events).session.history)
  {
    RunKeepsInvariant(InitialPage, events);
  }
}
