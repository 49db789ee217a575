/**
 The two outbound contracts of the meeting-notes client, the responses it can
 get back, and the fixed messages it shows. The summarize and share calls are
 split into a request value (what the client posts) and a response value (what
 the post resolves or rejects with); the transport itself is not modelled.
 */
module Protocol {

  datatype Option<T> = None | Some(value: T)

  /** The browser's file object picked in the upload control. A summarize
      request carries this object itself, not the text the client decoded
      from it; that reading is the separate `FileLoaded` event. */
  datatype FileHandle = FileHandle(name: string)

  /** What a summarize request carries as its transcript: the uploaded file or
      the typed text, never both. */
  datatype TranscriptSource = UploadedFile(file: FileHandle) | TypedText(text: string)

  /** The multipart form posted to the summarize endpoint. */
  datatype SummarizeRequest = SummarizeRequest(source: TranscriptSource, customPrompt: string)

  /** The JSON body posted to the share endpoint. */
  datatype ShareRequest = ShareRequest(recipients: seq<string>, subject: string, summary: string)

  /** How a post settles:
      - `Ok(v)`: the body has `success: true` (and, for summarize, the summary `v`);
      - `NotSuccess`: the post resolves but the body has no `success` flag, which
        is what the server sends with its `{"error": ...}` bodies;
      - `Thrown(m)`: the post rejects; `m` is the `error` field of the error
        response's body when there is one. */
  datatype Response<T> = Ok(value: T) | NotSuccess | Thrown(message: Option<string>)

  const MissingTranscript := "Please provide a transcript or upload a file"
  const SummaryGenerated := "Summary generated successfully!"
  const GenerateFailed := "Failed to generate summary"
  const NoRecipients := "Please add at least one recipient"
  const EmptySummary := "Summary cannot be empty"
  const SummaryShared := "Summary shared successfully!"
  const ShareFailed := "Failed to share summary"
  const DefaultSubject := "Meeting Summary Shared"

  /** `error.response?.data?.error || fallback`: the server's message when it
      sent a non-empty one, the fallback otherwise. Never empty, so a failure
      always shows an error. */
  function FailureMessage(message: Option<string>, fallback: string): (r: string)
    requires fallback != ""
    ensures r != ""
    ensures r == fallback || (message.Some? && r == message.value)
    ensures message.Some? && message.value != "" ==> r == message.value
  {
    match message
    case Some(m) => if m != "" then m else fallback
    case None => fallback
  }

  /** `subject || DefaultSubject`: only the empty subject is replaced, so the
      subject sent is never empty and any non-empty subject, even one made of
      blanks, goes out as typed. */
  function SubjectOrDefault(subject: string): (r: string)
    ensures r != ""
    ensures subject != "" ==> r == subject
    ensures subject == "" ==> r == DefaultSubject
  {
    if subject == "" then DefaultSubject else subject
  }
}
