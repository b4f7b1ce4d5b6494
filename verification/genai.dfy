/** The data shapes of the generative-AI SDK that the application reads and
    writes. Only the fields the code reads are declared, and each one the
    SDK declares optional is an `Option`, so every shape of those fields can
    be represented. */
module GenAi {
  import opened Wrappers

  /** Inline binary content: base64 text and its media type. */
  datatype Blob = Blob(data: Option<string>, mimeType: Option<string>)

  /** One content part: inline data, text, or (in a malformed reply) neither. */
  datatype Part = Part(inlineData: Option<Blob>, text: Option<string>)

  datatype Content = Content(parts: Option<seq<Part>>)

  datatype Candidate = Candidate(content: Option<Content>)

  /** The body of a `generateContent` reply. */
  datatype Response = Response(candidates: Option<seq<Candidate>>)

  /** The `contents` of a `generateContent` request. */
  datatype Request = Request(parts: seq<Part>)

  /** A part holding only text, as the request's instruction. */
  function TextPart(text: string): Part {
    Part(None, Some(text))
  }
}
