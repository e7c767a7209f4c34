/**
 The multipart/form-data parser as a state machine on values. A `char` stands for one byte, as in
 the parser's own buffers; nothing depends on the alphabet.
 */
module MultipartSpec {
  import opened Basics
  import opened Sequences

  datatype Error =
    | NotMultipart | NoBoundary | ContentTypeNotSet | TooMuchData
    | NotFormData | NoName | OpenName | OpenFileName | NoFieldType | NoTempDir

  datatype FieldType = Untyped | TextType | FileType

  datatype Storage = InFilesystem | InMemory

  /** A field as a caller sees it; `content` holds the bytes wherever they are stored. */
  datatype FieldView = FieldView(fieldType: FieldType, content: string, fileName: string,
                                 storage: Storage, tempDir: string)

  datatype Status = LookingForStartingBoundary | ProcessingHeaders | ProcessingContentOfTheField

  /** What is fixed while a body is fed; `boundary` carries its two leading dashes. */
  datatype Config = Config(boundary: string, storage: Storage, tempDir: string)

  datatype State = State(status: Status, buffer: string, name: string, fields: map<string, FieldView>)
  {
    /** The invariant of the content state: there is a field to send the content to. */
    predicate Valid() {
      status == ProcessingContentOfTheField ==> name in fields
    }

    function Append(data: string): State {
      this.(buffer := buffer + data)
    }
  }

  /** A state together with the exception that the call ended with, if any. */
  datatype Outcome = Outcome(state: State, error: Option<Error>)

  const CRLF: string := "\r\n"
  const BLANK_LINE: string := "\r\n\r\n"
  const DISPOSITION: string := "Content-Disposition: form-data;"
  const NAME_KEY: string := "name=\""
  const FILENAME_KEY: string := "filename=\""
  const QUOTE: string := "\""

  function NewField(storage: Storage, tempDir: string): FieldView {
    FieldView(Untyped, "", "", storage, tempDir)
  }

  /** The bytes up to the first NUL: what a std::string built from a C string keeps. */
  function UntilNul(s: string): (r: string)
    ensures r <= s && '\0' !in r && (r == s || s[|r|] == '\0')
    ensures '\0' !in s ==> r == s
  {
    if s == "" || s[0] == '\0' then "" else [s[0]] + UntilNul(s[1..])
  }

  function Store(field: FieldView, data: string): (FieldView, Option<Error>) {
    match field.fieldType
    case TextType => (field.(content := field.content + data), None)
    case FileType =>
      if field.storage == InFilesystem && field.tempDir == "" then (field, Some(NoTempDir))
      else (field.(content := field.content + data), None)
    case Untyped => (field, Some(NoFieldType))
  }

  datatype Result<+T> = Success(value: T) | Failure(error: Error)

  /** The value of the `name` attribute in a block of headers. */
  function NameIn(headers: string): Result<string> {
    if IndexOf(headers, DISPOSITION) < 0 then Failure(NotFormData)
    else
      var namePos := IndexOf(headers, NAME_KEY);
      if namePos < 0 then Failure(NoName)
      else
        var nameEnd := IndexFrom(headers, QUOTE, namePos + |NAME_KEY|);
        if nameEnd < 0 then Failure(OpenName) else Success(headers[namePos + |NAME_KEY|..nameEnd])
  }

  /** The field that a block of headers with a name describes, entered even when its file name is open. */
  function FieldIn(cfg: Config, headers: string): (FieldView, Option<Error>) {
    var filePos := IndexOf(headers, FILENAME_KEY);
    if filePos < 0 then (NewField(InFilesystem, "").(fieldType := TextType), None)
    else
      var field := NewField(cfg.storage, cfg.tempDir).(fieldType := FileType);
      var fileEnd := IndexFrom(headers, QUOTE, filePos + |FILENAME_KEY|);
      if fileEnd < 0 then (field, Some(OpenFileName))
      else (field.(fileName := headers[filePos + |FILENAME_KEY|..fileEnd]), None)
  }

  /** `_ParseHeaders`: names the field that follows and creates it, replacing one of the same name. */
  function ParseHeaders(cfg: Config, st: State, headers: string): (r: Outcome)
    ensures r.state.status == st.status && r.state.buffer == st.buffer
    ensures r.error.None? ==> r.state.name in r.state.fields
  {
    match NameIn(headers)
    case Failure(error) => Outcome(st, Some(error))
    case Success(name) =>
      var (field, error) := FieldIn(cfg, headers);
      Outcome(st.(name := name, fields := st.fields[name := field]), error)
  }

  /** The number of buffered bytes that `ProcessContentOfTheField` sends to the field; may be negative. */
  function FlushLength(boundary: string, buffer: string): int {
    var n := IndexOf(buffer, boundary);
    if n >= 0 then n - 2 else |buffer| - (|boundary| + 2)
  }

  /** The part of `ProcessContentOfTheField` that moves bytes from the buffer to the field. */
  function Flush(cfg: Config, st: State): (r: Outcome)
    requires st.name in st.fields
    ensures r.state.status == st.status && r.state.name == st.name
    ensures r.state.fields.Keys == st.fields.Keys && |r.state.buffer| <= |st.buffer|
  {
    var n := FlushLength(cfg.boundary, st.buffer);
    if n <= 0 then Outcome(st, None)
    else
      var (field, error) := Store(st.fields[st.name], st.buffer[..n]);
      if error.Some? then Outcome(st, error)
      else Outcome(st.(buffer := st.buffer[n..], fields := st.fields[st.name := field]), None)
  }

  /** `FindStartingBoundaryAndTruncData`, and whether the loop repeats. */
  function StepBoundary(cfg: Config, st: State): (Outcome, bool) {
    var n := IndexOf(st.buffer, cfg.boundary);
    if n < 0 then (Outcome(st, None), false)
    else (Outcome(st.(buffer := st.buffer[n + |cfg.boundary|..], status := ProcessingHeaders), None), true)
  }

  /** `WaitForHeadersEndAndParseThem`, and whether the loop repeats. */
  function StepHeaders(cfg: Config, st: State): (Outcome, bool) {
    var n := IndexOf(st.buffer, BLANK_LINE);
    if n < 0 then (Outcome(st, None), false)
    else
      var r := ParseHeaders(cfg, st, UntilNul(st.buffer[..n]));
      if r.error.Some? then (r, false)
      else (Outcome(r.state.(buffer := st.buffer[n + 4..], status := ProcessingContentOfTheField), None), true)
  }

  /** `ProcessContentOfTheField`, and whether the loop repeats. */
  function StepContent(cfg: Config, st: State): (Outcome, bool)
    requires st.name in st.fields
  {
    var r := Flush(cfg, st);
    if r.error.Some? || IndexOf(st.buffer, cfg.boundary) < 0 then (r, false)
    else (Outcome(r.state.(status := LookingForStartingBoundary), None), true)
  }

  /** One turn of the do/while loop: the outcome, and whether the loop repeats. */
  function Step(cfg: Config, st: State): (r: (Outcome, bool))
    requires st.Valid()
    ensures r.0.state.Valid()
    ensures r.1 ==> r.0.error.None? && |r.0.state.buffer| <= |st.buffer|
    ensures r.1 && cfg.boundary != "" ==>
              |r.0.state.buffer| < |st.buffer|
              || (|r.0.state.buffer| == |st.buffer| && Rank(r.0.state.status) < Rank(st.status))
  {
    match st.status
    case LookingForStartingBoundary => StepBoundary(cfg, st)
    case ProcessingHeaders => StepHeaders(cfg, st)
    case ProcessingContentOfTheField => StepContent(cfg, st)
  }

  /** Leaving the content state may consume nothing, but it leads to a state that must. */
  function Rank(status: Status): nat {
    if status == ProcessingContentOfTheField then 1 else 0
  }

  /** `_ProcessData`: turns of the loop until one does not ask to repeat. */
  function Process(cfg: Config, st: State): (r: Outcome)
    requires cfg.boundary != "" && st.Valid()
    ensures r.state.Valid()
    decreases |st.buffer|, Rank(st.status)
  {
    var (r, again) := Step(cfg, st);
    if again then Process(cfg, r.state) else r
  }

  /** `AcceptSomeData` once a content type is set. */
  function Accept(cfg: Config, limit: int, st: State, data: string): (r: Outcome)
    requires cfg.boundary != "" && st.Valid()
    ensures r.state.Valid()
  {
    if |st.buffer| + |data| > limit then Outcome(st.Append(data), Some(TooMuchData))
    else Process(cfg, st.Append(data))
  }

  /** The body-reading loop of `accept_request`: it gives up at the first exception. */
  function AcceptBody(cfg: Config, limit: int, st: State, chunks: seq<string>): (r: Outcome)
    requires cfg.boundary != "" && st.Valid()
    ensures r.state.Valid()
    decreases chunks
  {
    if chunks == [] then Outcome(st, None)
    else
      var r := Accept(cfg, limit, st, chunks[0]);
      if r.error.Some? then r else AcceptBody(cfg, limit, r.state, chunks[1..])
  }

  const START: State := State(LookingForStartingBoundary, "", "", map[])
}
