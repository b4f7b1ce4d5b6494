/** The encoder: turns an uploaded file into the SDK part sent to the model.
    Reading the file is platform I/O, so its outcome is an input here. */
module FileUtils {
  import opened Wrappers
  import opened Js
  import opened GenAi

  /** A browser `File`: its name and the media type the browser declared.
      The bytes are never inspected, only read back as a data URL. */
  datatype File = File(name: string, mimeType: string)

  /** What a `FileReader.readAsDataURL` produced: the data URL on `load`, or
      an `error` event. */
  datatype ReadOutcome = Loaded(dataUrl: string) | ReadFailed

  /** The data URL the browser produces for a base64 payload. */
  function DataUrl(mimeType: string, base64: string): string {
    "data:" + mimeType + ";base64," + base64
  }

  /** `dataUrl.split(',')[1]`: the piece between the first and the second
      comma, or `undefined` (`None`) when there is no comma at all. */
  function Base64Payload(dataUrl: string): (r: Option<string>)
    ensures r.Some? ==> ',' !in r.value
  {
    var parts := Split(dataUrl, ',');
    if |parts| >= 2 then Some(parts[1]) else None
  }

  /** No payload exists exactly when the data URL has no comma. */
  lemma PayloadAbsentIffNoComma(dataUrl: string)
    ensures Base64Payload(dataUrl).None? <==> ',' !in dataUrl
  {
    if ',' !in dataUrl {
      SplitWithoutSeparator(dataUrl, ',');
    }
  }

  /** The payload is whatever follows the first comma, up to the next comma
      or the end of the string. */
  lemma PayloadIsSecondSegment(head: string, payload: string, tail: string)
    requires ',' !in head && ',' !in payload
    requires tail == [] || tail[0] == ','
    ensures Base64Payload(head + "," + payload + tail) == Some(payload)
  {
    var s := head + "," + payload + tail;
    assert s == head + [','] + (payload + tail);
    SplitAtFirstSeparator(head, ',', payload + tail);
    if tail == [] {
      assert payload + tail == payload;
      SplitWithoutSeparator(payload, ',');
    } else {
      assert payload + tail == payload + [','] + tail[1..];
      SplitAtFirstSeparator(payload, ',', tail[1..]);
    }
  }

  /** A well-formed `data:<mime>;base64,<payload>` URL gives back exactly its
      payload when neither the media type nor the payload holds a comma
      (standard base64 never does). */
  lemma DataUrlRoundTrip(mimeType: string, base64: string)
    requires ',' !in mimeType && ',' !in base64
    ensures Base64Payload(DataUrl(mimeType, base64)) == Some(base64)
  {
    var head := "data:" + mimeType + ";base64";
    assert DataUrl(mimeType, base64) == head + "," + base64 + [];
    PayloadIsSecondSegment(head, base64, []);
  }

  /** `fileToGenerativePart`: a read error rejects with the error event (not
      an `Error` instance) and yields no part; otherwise the part carries only
      inline data, whose payload is the data URL's second segment and whose
      media type is the file's declared type. */
  function GenerativePart(file: File, read: ReadOutcome): (r: Result<Part, Thrown>)
    ensures r.Err? <==> read.ReadFailed?
    ensures r.Err? ==> r.error == OtherValue
    ensures r.Ok? ==> r.value.text.None? && r.value.inlineData.Some?
    ensures r.Ok? ==> r.value.inlineData.value.mimeType == Some(file.mimeType)
    ensures r.Ok? ==> r.value.inlineData.value.data == Base64Payload(read.dataUrl)
  {
    match read
    case ReadFailed => Err(OtherValue)
    case Loaded(url) => Ok(Part(Some(Blob(Base64Payload(url), Some(file.mimeType))), None))
  }

  /** For a browser-produced data URL the part carries the file's base64
      content verbatim and the declared media type, whatever the content. */
  lemma PartOfWellFormedRead(file: File, base64: string)
    requires ',' !in file.mimeType && ',' !in base64
    ensures GenerativePart(file, Loaded(DataUrl(file.mimeType, base64)))
            == Ok(Part(Some(Blob(Some(base64), Some(file.mimeType))), None))
  {
    DataUrlRoundTrip(file.mimeType, base64);
  }
}
