/** The edit client: sends the image part and the instruction to the model
    and picks the edited image out of the reply. The SDK call itself is a
    parameter, `server`, mapping the request to what the call produced. */
module GeminiService {
  import opened Wrappers
  import opened GenAi

  /** The one message every failure of `editImage` is rethrown with. */
  const FailureMessage := "Failed to generate image. The model may have refused the request. Please try a different prompt."

  /** What awaiting `generateContent` produced: a reply, or a rejection
      (network, authentication, quota, refusal by the SDK). */
  datatype RemoteReply = Responded(response: Response) | CallFailed

  /** Why a reply was unusable. Each is thrown inside `editImage` (the first
      and last with their own message, the middle one as the runtime's
      TypeError) and then replaced by `FailureMessage`. */
  datatype ResponseFault =
    | NoContent     // no first candidate, or its parts are missing or empty
    | ContentAbsent // the first candidate has no `content`: reading its parts throws
    | NoImageData   // the first part's `inlineData.data` is missing or empty

  /** The request `editImage` sends: the image part, then the instruction. */
  function BuildRequest(imagePart: Part, prompt: string): (req: Request)
    ensures |req.parts| == 2
    ensures req.parts[0] == imagePart
    ensures req.parts[1].text == Some(prompt) && req.parts[1].inlineData.None?
  {
    Request([imagePart, TextPart(prompt)])
  }

  /** The first part of the first candidate, when the reply has one. */
  function FirstPart(response: Response): Option<Part> {
    match response.candidates
    case Some(cs) =>
      if |cs| > 0 && cs[0].content.Some? && cs[0].content.value.parts.Some?
         && |cs[0].content.value.parts.value| > 0
      then Some(cs[0].content.value.parts.value[0])
      else None
    case None => None
  }

  /** The validating pick over a reply: the first candidate's first part must
      carry non-empty inline data, which is returned verbatim; every other
      shape is a fault. */
  function ExtractImage(response: Response): (r: Result<string, ResponseFault>)
    ensures r.Ok? <==> FirstPart(response).Some? && FirstPart(response).value.inlineData.Some?
                       && FirstPart(response).value.inlineData.value.data.Some?
                       && FirstPart(response).value.inlineData.value.data.value != ""
    ensures r.Ok? ==> FirstPart(response).value.inlineData.value.data == Some(r.value)
    ensures r.Err? && r.error == NoImageData ==> FirstPart(response).Some?
  {
    var first := if response.candidates.Some? && |response.candidates.value| > 0
                 then Some(response.candidates.value[0]) else None;
    if first.None? then Err(NoContent)
    else if first.value.content.None? then Err(ContentAbsent)
    else if first.value.content.value.parts.None? || |first.value.content.value.parts.value| == 0 then Err(NoContent)
    else
      var part := first.value.content.value.parts.value[0];
      if part.inlineData.None? || part.inlineData.value.data.None? || part.inlineData.value.data.value == ""
      then Err(NoImageData)
      else Ok(part.inlineData.value.data.value)
  }

  /** Candidates after the first never influence the extracted image. */
  lemma LaterCandidatesIgnored(c: Candidate, rest: seq<Candidate>)
    ensures ExtractImage(Response(Some([c] + rest))) == ExtractImage(Response(Some([c])))
  {
  }

  /** Parts after the first never influence the extracted image. */
  lemma LaterPartsIgnored(p: Part, rest: seq<Part>)
    ensures ExtractImage(Response(Some([Candidate(Some(Content(Some([p] + rest))))])))
         == ExtractImage(Response(Some([Candidate(Some(Content(Some([p]))))])))
  {
  }

  /** `editImage(imagePart, prompt)`: the base64 image of the reply to the
      request `[imagePart, {text: prompt}]`, or the single fixed message,
      whatever went wrong. */
  function EditImage(imagePart: Part, prompt: string, server: Request -> RemoteReply): (r: Result<string, string>)
    ensures r.Err? ==> r.error == FailureMessage
    ensures r.Ok? <==> server(BuildRequest(imagePart, prompt)).Responded?
                       && ExtractImage(server(BuildRequest(imagePart, prompt)).response).Ok?
    ensures r.Ok? ==> r.value != ""
    ensures r.Ok? ==> r.value == ExtractImage(server(BuildRequest(imagePart, prompt)).response).value
  {
    match server(BuildRequest(imagePart, prompt))
    case CallFailed => Err(FailureMessage)
    case Responded(response) =>
      match ExtractImage(response)
      case Ok(data) => Ok(data)
      case Err(_) => Err(FailureMessage)
  }

  /** The three failure situations are indistinguishable to the caller: a
      failed call and every faulty reply produce the same error. */
  lemma FailuresAreNormalised(imagePart: Part, prompt: string, server: Request -> RemoteReply, f: ResponseFault)
    requires server(BuildRequest(imagePart, prompt)) == CallFailed
             || (server(BuildRequest(imagePart, prompt)).Responded?
                 && ExtractImage(server(BuildRequest(imagePart, prompt)).response) == Err(f))
    ensures EditImage(imagePart, prompt, server) == Err(FailureMessage)
  {
  }

  /** The outcome depends on the remote call only through its reply to the
      one request built from the image part and the prompt. */
  lemma OnlyTheBuiltRequestMatters(imagePart: Part, prompt: string, s1: Request -> RemoteReply, s2: Request -> RemoteReply)
    requires s1(BuildRequest(imagePart, prompt)) == s2(BuildRequest(imagePart, prompt))
    ensures EditImage(imagePart, prompt, s1) == EditImage(imagePart, prompt, s2)
  {
  }
}
