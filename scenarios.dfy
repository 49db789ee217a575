/**
 Sessions driven through the controller's handlers, each
 proved from the handlers' contracts alone: what the user sees and what is
 posted at the end of each.
 */
module Scenarios {
  import opened Text
  import opened Protocol
  import opened Workflow

  /** A typed transcript is summarized: the typed text and the instructions are
      posted, both summary cells hold the returned text, the share panel is
      shown with the success message only, and nothing is loading any more. */
  method GenerateFromTypedText(typed: string, prompt: string, text: string)
    returns (req: Option<SummarizeRequest>, summary: string, editable: string,
             panelShown: bool, errorShown: string, successShown: string, loading: bool)
    requires !IsBlank(typed)
    ensures req == Some(SummarizeRequest(TypedText(typed), prompt))
    ensures summary == editable == text
    ensures panelShown && errorShown == "" && successShown == SummaryGenerated && !loading
  {
    var c := new Controller();
    c.EditTranscript(typed);
    c.EditCustomPrompt(prompt);
    req := c.BeginGenerate();
    c.CompleteGenerate(Ok(text));
    summary, editable, panelShown, errorShown, successShown, loading :=
      c.summary, c.editableSummary, c.showShare, c.error, c.success, c.isLoading;
  }

  /** The generate handler run with a blank transcript and no file: nothing is
      posted, nothing is loading and the missing-transcript error is set. On
      the page this guard is not reached from a click, since the Generate
      button is disabled under the same condition. */
  method GenerateWithoutTranscript(typed: string)
    returns (req: Option<SummarizeRequest>, message: string, loading: bool)
    requires IsBlank(typed)
    ensures req.None? && message == MissingTranscript && !loading
  {
    var c := new Controller();
    c.EditTranscript(typed);
    req := c.BeginGenerate();
    message, loading := c.error, c.isLoading;
  }

  /** Once a file is picked the typed text is cleared and the file is what is
      posted, even after the file's own text has been loaded as the transcript. */
  method GenerateFromFile(typed: string, file: FileHandle, fileText: string)
    returns (req: Option<SummarizeRequest>, transcriptAfterPick: string)
    ensures req == Some(SummarizeRequest(UploadedFile(file), ""))
    ensures transcriptAfterPick == ""
  {
    var c := new Controller();
    c.EditTranscript(typed);
    c.SelectFile(Some(file));
    transcriptAfterPick := c.transcript;
    c.FileLoaded(fileText);
    req := c.BeginGenerate();
  }

  /** The summarize post resolves with the server's `{"error": ...}` body: the
      call stops loading, but no message at all is shown and there is still no
      summary. */
  method GenerateRejectedInBody(typed: string)
    returns (errorShown: string, successShown: string, summary: string, loading: bool)
    requires !IsBlank(typed)
    ensures errorShown == "" && successShown == "" && summary == "" && !loading
  {
    var c := new Controller();
    c.EditTranscript(typed);
    var _ := c.BeginGenerate();
    c.CompleteGenerate(NotSuccess);
    errorShown, successShown, summary, loading := c.error, c.success, c.summary, c.isLoading;
  }

  /** A fresh session in which `typed` was summarized into `text`: the
      starting point of the share scenarios. */
  method SummarizedSession(typed: string, text: string) returns (c: Controller)
    requires !IsBlank(typed)
    ensures fresh(c) && c.Valid() && c.inFlight == NoRequest
    ensures c.State() == Cells(typed, "", None, text, text, false, "", SummaryGenerated, true, [], "", "")
  {
    c := new Controller();
    c.EditTranscript(typed);
    var _ := c.BeginGenerate();
    c.CompleteGenerate(Ok(text));
  }

  /** The share handler run with a summary but no recipients: nothing is
      posted, the no-recipient error is set and the earlier success message
      is left as it was. On the page this guard is not reached from a click,
      since the Share button is disabled while the list is empty. */
  method ShareWithoutRecipients(typed: string, text: string)
    returns (req: Option<ShareRequest>, errorShown: string, successShown: string)
    requires !IsBlank(typed)
    ensures req.None?
    ensures errorShown == NoRecipients && successShown == SummaryGenerated
  {
    var c := SummarizedSession(typed, text);
    req := c.BeginShare();
    errorShown, successShown := c.error, c.success;
  }

  /** The summary edited down to blanks, one recipient listed: nothing is
      posted and the empty-summary error is shown while the earlier success
      message is still set, so the page shows both messages at once. */
  method ShareBlankSummary(typed: string, text: string, edited: string, address: string)
    returns (req: Option<ShareRequest>, message: string, successShown: string)
    requires !IsBlank(typed) && IsBlank(edited) && IsTrimmed(address)
    ensures req.None? && message == EmptySummary
    ensures successShown == SummaryGenerated
  {
    var c := SummarizedSession(typed, text);
    c.EditSummary(edited);
    c.EditNewRecipient(address);
    TrimmedIffFixed(address);
    c.AddRecipient();
    req := c.BeginShare();
    message, successShown := c.error, c.success;
  }

  /** Two different addresses added, subject left empty, share succeeds: the
      default subject, the addresses in the order added and the summary are
      posted; afterwards the list, the subject and the recipient field are
      empty and the summary is kept. */
  method ShareToTwo(typed: string, text: string, first: string, second: string)
    returns (req: Option<ShareRequest>, recipients: seq<string>, subject: string,
             summary: string, editable: string, message: string)
    requires !IsBlank(typed) && !IsBlank(text)
    requires IsTrimmed(first) && IsTrimmed(second) && first != second
    ensures req == Some(ShareRequest([first, second], DefaultSubject, text))
    ensures recipients == [] && subject == ""
    ensures summary == editable == text
    ensures message == SummaryShared
  {
    var c := SummarizedSession(typed, text);
    c.EditNewRecipient(first);
    TrimmedIffFixed(first);
    c.AddRecipient();
    c.EditNewRecipient(second);
    TrimmedIffFixed(second);
    c.AddRecipient();
    assert c.recipients == [first, second];
    req := c.BeginShare();
    c.CompleteShare(Ok(()));
    recipients, subject, summary, editable, message :=
      c.recipients, c.subject, c.summary, c.editableSummary, c.success;
  }

  /** A first share succeeds; a second one, to another address, resolves with
      a body lacking `success` (how the server reports a failed delivery):
      no error is shown, the first share's success message stays on screen,
      and the second address is still listed. */
  method ShareRejectedInBody(typed: string, text: string, first: string, second: string)
    returns (errorShown: string, successShown: string, recipients: seq<string>, loading: bool)
    requires !IsBlank(typed) && !IsBlank(text)
    requires IsTrimmed(first) && IsTrimmed(second)
    ensures errorShown == "" && successShown == SummaryShared
    ensures recipients == [second] && !loading
  {
    var c := SummarizedSession(typed, text);
    c.EditNewRecipient(first);
    TrimmedIffFixed(first);
    c.AddRecipient();
    var _ := c.BeginShare();
    c.CompleteShare(Ok(()));
    c.EditNewRecipient(second);
    TrimmedIffFixed(second);
    c.AddRecipient();
    var _ := c.BeginShare();
    c.CompleteShare(NotSuccess);
    errorShown, successShown, recipients, loading := c.error, c.success, c.recipients, c.isLoading;
  }
}
