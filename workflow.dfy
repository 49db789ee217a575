/**
 The workflow controller of the meeting-notes client: the `App` component's
 dozen state cells and the handlers that write them. Each handler is a method
 that changes the cells in place; the two network calls are each split into a
 Begin method, which validates and returns the request to post, and a Complete
 method, which takes the response.
 */
module Workflow {
  import opened Text
  import opened Recipients
  import opened Protocol

  /** A snapshot of every state cell, so a contract can say in one line what a
      handler changes and that nothing else changes. */
  datatype Cells = Cells(
    transcript: string,
    customPrompt: string,
    selectedFile: Option<FileHandle>,
    summary: string,
    editableSummary: string,
    isLoading: bool,
    error: string,
    success: string,
    showShare: bool,
    recipients: seq<string>,
    newRecipient: string,
    subject: string)

  /** Which post, if any, has been sent and not yet settled. */
  datatype InFlight = NoRequest | Summarizing | Sharing

  class Controller {
    var transcript: string
    var customPrompt: string
    var selectedFile: Option<FileHandle>
    var summary: string
    var editableSummary: string
    var isLoading: bool
    var error: string
    var success: string
    var showShare: bool
    var recipients: seq<string>
    var newRecipient: string
    var subject: string
    ghost var inFlight: InFlight

    ghost function State(): Cells
      reads this
    {
      Cells(transcript, customPrompt, selectedFile, summary, editableSummary, isLoading,
            error, success, showShare, recipients, newRecipient, subject)
    }

    /** What every handler preserves:
        - the recipient list has no duplicates and holds trimmed, non-empty addresses;
        - `isLoading` is set exactly while a post is in flight;
        - a summary only exists once the share panel has been revealed, and
          no handler ever hides the panel again (only `CompleteGenerate`
          writes `showShare`, and only to true);
        - no message is shown while a summary is being generated, and no error
          while a share is in flight (dispatch cleared them). */
    ghost predicate Valid()
      reads this
    {
      NoDuplicates(recipients) && AllTrimmed(recipients) &&
      (isLoading <==> inFlight != NoRequest) &&
      (!showShare ==> summary == "") &&
      (inFlight == Summarizing ==> error == "" && success == "") &&
      (inFlight == Sharing ==> error == "")
    }

    /** The initial values of the `useState` hooks. */
    constructor ()
      ensures Valid() && inFlight == NoRequest
      ensures State() == Cells("", "", None, "", "", false, "", "", false, [], "", "")
    {
      transcript, customPrompt, selectedFile := "", "", None;
      summary, editableSummary := "", "";
      isLoading, error, success, showShare := false, "", "", false;
      recipients, newRecipient, subject := [], "", "";
      inFlight := NoRequest;
    }

    /** The upload control's change event; `file` is the first file picked, or
        None when the dialog was dismissed. A picked file replaces any earlier
        one and clears the transcript until its text has been read. */
    method SelectFile(file: Option<FileHandle>)
      requires Valid()
      modifies this
      ensures Valid() && inFlight == old(inFlight)
      ensures file.None? ==> State() == old(State())
      ensures file.Some? ==> State() == old(State()).(selectedFile := file, transcript := "")
    {
      if file.Some? {
        selectedFile := file;
        transcript := "";
      }
    }

    /** The file reader's load event for the selected file: its text becomes
        the transcript shown in the (disabled) text area. */
    method FileLoaded(text: string)
      requires Valid() && selectedFile.Some?
      modifies this
      ensures Valid() && inFlight == old(inFlight)
      ensures State() == old(State()).(transcript := text)
    {
      transcript := text;
    }

    /** Typing in the transcript text area, which is disabled once a file is selected. */
    method EditTranscript(text: string)
      requires Valid() && selectedFile.None?
      modifies this
      ensures Valid() && inFlight == old(inFlight)
      ensures State() == old(State()).(transcript := text)
    {
      transcript := text;
    }

    /** Typing in the custom-instructions text area. */
    method EditCustomPrompt(text: string)
      requires Valid()
      modifies this
      ensures Valid() && inFlight == old(inFlight)
      ensures State() == old(State()).(customPrompt := text)
    {
      customPrompt := text;
    }

    /** Clicking Generate: with a blank transcript and no file, only the error
        is set and nothing is posted; otherwise the request carries the file if
        one is selected and the typed transcript if not, always with the custom
        instructions, and the call is marked in flight with both messages cleared. */
    method BeginGenerate() returns (req: Option<SummarizeRequest>)
      requires Valid() && !isLoading
      modifies this
      ensures Valid()
      ensures IsBlank(old(transcript)) && old(selectedFile).None? ==>
        req.None? && inFlight == NoRequest &&
        State() == old(State()).(error := MissingTranscript)
      ensures !IsBlank(old(transcript)) || old(selectedFile).Some? ==>
        req.Some? && inFlight == Summarizing &&
        State() == old(State()).(isLoading := true, error := "", success := "")
      ensures req.Some? ==>
        req.value.customPrompt == customPrompt &&
        (req.value.source.UploadedFile? <==> selectedFile.Some?) &&
        (req.value.source.UploadedFile? ==> req.value.source.file == selectedFile.value) &&
        (req.value.source.TypedText? ==> req.value.source.text == transcript)
    {
      var blank := TrimsToEmpty(transcript);
      if blank && selectedFile.None? {
        error := MissingTranscript;
        req := None;
      } else {
        isLoading := true;
        error := "";
        success := "";
        inFlight := Summarizing;
        var source := if selectedFile.Some? then UploadedFile(selectedFile.value) else TypedText(transcript);
        req := Some(SummarizeRequest(source, customPrompt));
      }
    }

    /** The summarize post settling. A summary replaces both the original and
        the working copy, reveals the share panel and shows the success
        message; a rejection shows the server's message or the fallback; a body
        without `success` changes nothing. In every case the call stops loading,
        and the summary cells change only on success. */
    method CompleteGenerate(resp: Response<string>)
      requires Valid() && inFlight == Summarizing
      modifies this
      ensures Valid() && inFlight == NoRequest && !isLoading
      ensures resp.Ok? ==>
        State() == old(State()).(summary := resp.value, editableSummary := resp.value,
                                 showShare := true, success := SummaryGenerated, isLoading := false)
      ensures resp.NotSuccess? ==> State() == old(State()).(isLoading := false)
      ensures resp.Thrown? ==>
        State() == old(State()).(error := FailureMessage(resp.message, GenerateFailed), isLoading := false)
      ensures !resp.Ok? ==> summary == old(summary) && editableSummary == old(editableSummary)
      ensures resp.Ok? ==> error == "" && success != ""
      ensures resp.Thrown? ==> error != "" && success == ""
    {
      match resp {
        case Ok(s) =>
          summary := s;
          editableSummary := s;
          showShare := true;
          success := SummaryGenerated;
        case NotSuccess =>
        case Thrown(m) =>
          error := FailureMessage(m, GenerateFailed);
      }
      isLoading := false;
      inFlight := NoRequest;
    }

    /** Typing in the summary text area. */
    method EditSummary(text: string)
      requires Valid()
      modifies this
      ensures Valid() && inFlight == old(inFlight)
      ensures State() == old(State()).(editableSummary := text)
    {
      editableSummary := text;
    }

    /** "Reset to Original": the working copy becomes the generated summary
        again. Resetting an unedited summary changes nothing, so a second reset
        in a row is a no-op. */
    method ResetSummary()
      requires Valid()
      modifies this
      ensures Valid() && inFlight == old(inFlight)
      ensures State() == old(State()).(editableSummary := old(summary))
      ensures editableSummary == summary
      ensures old(editableSummary) == old(summary) ==> State() == old(State())
    {
      editableSummary := summary;
    }

    /** Typing in the subject field. */
    method EditSubject(text: string)
      requires Valid()
      modifies this
      ensures Valid() && inFlight == old(inFlight)
      ensures State() == old(State()).(subject := text)
    {
      subject := text;
    }

    /** Typing in the recipient field. */
    method EditNewRecipient(text: string)
      requires Valid()
      modifies this
      ensures Valid() && inFlight == old(inFlight)
      ensures State() == old(State()).(newRecipient := text)
    {
      newRecipient := text;
    }

    /** Clicking Add: the trimmed input is appended when it is non-empty and
        not yet listed, and then the field is cleared; an empty or duplicate
        input changes nothing at all. */
    method AddRecipient()
      requires Valid()
      modifies this
      ensures Valid() && inFlight == old(inFlight)
      ensures recipients == WithRecipient(old(recipients), old(newRecipient))
      ensures recipients != old(recipients) ==> State() == old(State()).(recipients := recipients, newRecipient := "")
      ensures recipients == old(recipients) ==> State() == old(State())
    {
      AddKeepsNoDuplicates(recipients, newRecipient);
      AddKeepsTrimmed(recipients, newRecipient);
      var candidate := Trim(newRecipient);
      if candidate != "" && candidate !in recipients {
        recipients := recipients + [candidate];
        newRecipient := "";
      }
    }

    /** A key press in the recipient field: Enter adds, any other key does nothing. */
    method KeyPress(key: string)
      requires Valid()
      modifies this
      ensures Valid() && inFlight == old(inFlight)
      ensures key != "Enter" ==> State() == old(State())
      ensures key == "Enter" ==> recipients == WithRecipient(old(recipients), old(newRecipient))
      ensures key == "Enter" && recipients != old(recipients) ==>
        State() == old(State()).(recipients := recipients, newRecipient := "")
      ensures key == "Enter" && recipients == old(recipients) ==> State() == old(State())
    {
      if key == "Enter" {
        AddRecipient();
      }
    }

    /** Clicking the remove button next to `email`: every entry equal to it is
        dropped, the others keep their order. */
    method RemoveRecipient(email: string)
      requires Valid()
      modifies this
      ensures Valid() && inFlight == old(inFlight)
      ensures State() == old(State()).(recipients := WithoutRecipient(old(recipients), email))
      ensures email !in old(recipients) ==> State() == old(State())
    {
      RemoveKeepsNoDuplicates(recipients, email);
      RemoveKeepsTrimmed(recipients, email);
      if email !in recipients {
        WithoutAbsentUnchanged(recipients, email);
      }
      recipients := WithoutRecipient(recipients, email);
    }

    /** Clicking Share. Two checks, in this order, each setting only the error
        and posting nothing: an empty recipient list, then a blank working
        copy. Otherwise the current recipients, the subject (or the default one
        when the subject is empty) and the working copy verbatim are posted,
        and the call is marked in flight with the error cleared; the success
        message is left as it was. */
    method BeginShare() returns (req: Option<ShareRequest>)
      requires Valid() && !isLoading
      modifies this
      ensures Valid()
      ensures old(recipients) == [] ==>
        req.None? && inFlight == NoRequest &&
        State() == old(State()).(error := NoRecipients)
      ensures old(recipients) != [] && IsBlank(old(editableSummary)) ==>
        req.None? && inFlight == NoRequest &&
        State() == old(State()).(error := EmptySummary)
      ensures old(recipients) != [] && !IsBlank(old(editableSummary)) ==>
        inFlight == Sharing &&
        State() == old(State()).(isLoading := true, error := "") &&
        req == Some(ShareRequest(recipients, SubjectOrDefault(subject), editableSummary))
      ensures req.Some? ==>
        req.value.recipients != [] && !IsBlank(req.value.summary) && req.value.subject != ""
    {
      if recipients == [] {
        error := NoRecipients;
        return None;
      }
      var blank := TrimsToEmpty(editableSummary);
      if blank {
        error := EmptySummary;
        return None;
      }
      isLoading := true;
      error := "";
      inFlight := Sharing;
      req := Some(ShareRequest(recipients, SubjectOrDefault(subject), editableSummary));
    }

    /** The share post settling. On success the success message is shown and
        the recipients, subject and recipient field are cleared; a rejection
        shows the server's message or the fallback; a body without `success`
        changes nothing. The summary and its working copy are never touched,
        so the same text can be shared again. */
    method CompleteShare(resp: Response<()>)
      requires Valid() && inFlight == Sharing
      modifies this
      ensures Valid() && inFlight == NoRequest && !isLoading
      ensures resp.Ok? ==>
        State() == old(State()).(success := SummaryShared, recipients := [], subject := "",
                                 newRecipient := "", isLoading := false)
      ensures resp.NotSuccess? ==> State() == old(State()).(isLoading := false)
      ensures resp.Thrown? ==>
        State() == old(State()).(error := FailureMessage(resp.message, ShareFailed), isLoading := false)
      ensures summary == old(summary) && editableSummary == old(editableSummary)
    {
      match resp {
        case Ok(_) =>
          success := SummaryShared;
          recipients := [];
          subject := "";
          newRecipient := "";
        case NotSuccess =>
        case Thrown(m) =>
          error := FailureMessage(m, ShareFailed);
      }
      isLoading := false;
      inFlight := NoRequest;
    }
  }
}
