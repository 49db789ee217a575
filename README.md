# Meetly client workflow controller, in Dafny

Meetly turns a meeting transcript into an AI-written summary and mails that
summary to a list of recipients. This project models the browser side of
that workflow: the single `App` React component in `frontend/src/App.jsx`.
The component keeps a dozen state cells: transcript, custom prompt, selected
file, summary, working copy of the summary, loading flag, error message,
success message, share-panel flag, recipient list, recipient field and
subject. Its event handlers update those cells step by step.

The component becomes `Workflow.Controller`, a class with one field per state
cell and one method per handler. It also has a ghost field that records which
post (summarize or share) is in flight. Each of the two network calls is split
into two methods:

- a `Begin` method runs the handler's validation and returns the request it
  would post, or `None`;
- a `Complete` method takes how the post settled (`Protocol.Response`):
  - `Ok`: the body carries `success: true`;
  - `NotSuccess`: the body has no success flag, which is how the server
    reports its own errors;
  - `Thrown`: the post rejected, possibly carrying a server message.

Every method states the whole new state as an update of the old one
(`State() == old(State()).(...)`). So each contract also says that nothing
else changes. Every method also preserves `Controller.Valid()`:

- the recipient list has no duplicates;
- every listed address is non-empty and trimmed;
- `isLoading` is set exactly while a post is in flight;
- a summary only exists once the share panel is shown;
- no message is set while a summary is being generated, and no error while a
  share is in flight.

JavaScript's `trim()` is modelled in module `Text` over the ECMAScript
whitespace and line-terminator characters. Module `Recipients` gives the
list updates as functions with their invariant lemmas. Module `Scenarios`
drives whole sessions through the controller and proves what the user ends
up seeing and what gets posted.

Behaviour the model keeps exactly as the code has it:

- **Two message cells.** The error and success messages are separate cells,
  so both can be shown at once:
  - Generate clears both;
  - Share clears only the error;
  - a failed validation sets only the error.

  `Scenarios.ShareBlankSummary` exhibits this: with a recipient listed the
  Share button is enabled, and the blank-summary check leaves the earlier
  success message in place. A rejected share does the same, since the share
  dispatch clears only the error.
- **Empty error body.** A post that resolves with a body lacking `success`
  only resets the loading flag. For Generate, which cleared both messages
  when it started, no message is shown at all
  (`Scenarios.GenerateRejectedInBody`). For Share, whose start clears only
  the error, no error appears, any earlier success message stays on screen
  and the recipient list is kept: after one successful share, a second one
  whose delivery fails still shows "Summary shared successfully!"
  (`Scenarios.ShareRejectedInBody`).
- **No way to un-select a file.** Nothing ever clears the selected file.
  `SelectFile(None)` (a dismissed dialog) changes nothing.
- **Subject default.** The default subject replaces only the empty subject.
  A subject of blanks is sent as typed.
- **Empty server message.** A server message that is the empty string falls
  back to the built-in failure text, because the code uses JavaScript `||`.
- **Validation stays reachable.** The Generate and Share buttons are also
  disabled when there is no transcript, or no recipients. Only the
  `isLoading` half of those `disabled` conditions is a precondition. Each
  handler's own validation branch is therefore modelled and reachable.
- **Transcript edits.** The transcript text area is disabled once a file is
  selected. `EditTranscript` requires that no file is selected.

## Model

| member | source | states |
|---|---|---|
| Text.LeadingWhitespace | frontend/src/App.jsx:36 | the count of leading characters `trim()` strips: all of them are whitespace and the next character is not |
| Text.ContentEnd | frontend/src/App.jsx:36 | where the trailing whitespace `trim()` strips begins: everything after is whitespace, the character before is not |
| Text.Trim | frontend/src/App.jsx:78-79 | `trim()` is never longer than its input, and its result is empty or neither starts nor ends with whitespace |
| Text.TrimIsMiddle | frontend/src/App.jsx:78-79 | reference definition: for any split into blank prefix, middle with non-whitespace ends, and blank suffix, the trimmed string is that middle |
| Text.TrimEmptyIffBlank | frontend/src/App.jsx:36 | `!s.trim()` holds exactly when every character of `s` is whitespace (both directions) |
| Text.TrimIdempotent | frontend/src/App.jsx:78-79 | trimming an already trimmed address changes nothing |
| Text.TrimmedIffFixed | frontend/src/App.jsx:78-79 | a non-empty string is left unchanged by `trim()` exactly when it has no whitespace at either end |
| Text.TrimsToEmpty | frontend/src/App.jsx:94 | the test `!editableSummary.trim()` returns true exactly when the text is blank |
| Protocol.FailureMessage | frontend/src/App.jsx:71 | `error.response?.data?.error \|\| fallback` is never empty; it is the server's message when that is non-empty, else the fallback |
| Protocol.SubjectOrDefault | frontend/src/App.jsx:105 | the subject sent is never empty; it is the typed subject when that is non-empty and "Meeting Summary Shared" exactly when it is empty |
| Recipients.WithRecipient | frontend/src/App.jsx:78-79 | Add appends the trimmed input at the end, and changes the list exactly when that input is non-empty and not yet listed |
| Recipients.WithoutRecipient | frontend/src/App.jsx:85 | `filter(r => r !== email)` leaves no occurrence of the email, keeps the other entries in their order and keeps every other address's count |
| Recipients.AddKeepsNoDuplicates | frontend/src/App.jsx:78-79 | Add preserves the no-duplicates invariant |
| Recipients.AddKeepsTrimmed | frontend/src/App.jsx:78-79 | Add preserves "every address non-empty and trimmed" |
| Recipients.AddTwiceListsOnce | frontend/src/App.jsx:78 | adding the same address twice lists it exactly once |
| Recipients.WithoutAbsentUnchanged | frontend/src/App.jsx:85 | removing an address that is not listed leaves the list unchanged |
| Recipients.WithoutMembers | frontend/src/App.jsx:85 | an address survives removal exactly when it was listed and is not the removed one |
| Recipients.RemoveKeepsNoDuplicates | frontend/src/App.jsx:85 | removal preserves the no-duplicates invariant |
| Recipients.RemoveKeepsTrimmed | frontend/src/App.jsx:85 | removal preserves "every address non-empty and trimmed" |
| Recipients.NoDuplicatesCount | frontend/src/App.jsx:78 | a list kept free of duplicates holds each address at most once |
| Recipients.RemoveListedShrinksByOne | frontend/src/App.jsx:85 | removing a listed address from a duplicate-free list takes out exactly one entry |
| Workflow.Controller.constructor | frontend/src/App.jsx:7-18 | the initial values of the twelve state cells; nothing in flight |
| Workflow.Controller.SelectFile | frontend/src/App.jsx:20-25 | a picked file becomes the selected file and clears the transcript; a dismissed dialog changes nothing |
| Workflow.Controller.FileLoaded | frontend/src/App.jsx:28-30 | the selected file's text becomes the transcript and nothing else changes |
| Workflow.Controller.EditTranscript | frontend/src/App.jsx:187-189 | typing (allowed only while no file is selected) sets the transcript and nothing else |
| Workflow.Controller.EditCustomPrompt | frontend/src/App.jsx:201 | typing sets the custom prompt and nothing else |
| Workflow.Controller.BeginGenerate | frontend/src/App.jsx:35-52 | blank transcript and no file: only the error is set, no request; otherwise loading starts, both messages clear, and the request carries the file if one is selected, else the typed transcript, always with the custom prompt |
| Workflow.Controller.CompleteGenerate | frontend/src/App.jsx:64-74 | Ok sets summary and working copy to the result, shows the share panel and the success message; Thrown sets the server's or the fallback error; NotSuccess only stops loading; the summary cells change only on Ok |
| Workflow.Controller.EditSummary | frontend/src/App.jsx:229 | typing sets the working copy and nothing else |
| Workflow.Controller.ResetSummary | frontend/src/App.jsx:236 | the working copy becomes the generated summary, nothing else changes, and resetting an unedited summary is a no-op |
| Workflow.Controller.EditSubject | frontend/src/App.jsx:256 | typing sets the subject and nothing else |
| Workflow.Controller.EditNewRecipient | frontend/src/App.jsx:270 | typing sets the recipient field and nothing else |
| Workflow.Controller.AddRecipient | frontend/src/App.jsx:77-82 | the list becomes `WithRecipient` of the old list and field; the field is cleared exactly when the list changed; otherwise nothing changes; the list invariants are kept |
| Workflow.Controller.KeyPress | frontend/src/App.jsx:122-126 | Enter behaves as Add; any other key changes nothing |
| Workflow.Controller.RemoveRecipient | frontend/src/App.jsx:84-86 | the list becomes `WithoutRecipient` of the old list and nothing else changes; an absent address changes nothing |
| Workflow.Controller.BeginShare | frontend/src/App.jsx:88-107 | the checks run in order (empty list, then blank working copy), each setting only its error and posting nothing; otherwise loading starts, the error clears, and the request carries the list in order, the subject or its default, and the working copy verbatim |
| Workflow.Controller.CompleteShare | frontend/src/App.jsx:109-119 | Ok shows the success message and clears list, subject and field; Thrown sets the server's or the fallback error; NotSuccess only stops loading; summary and working copy are never touched |
| Scenarios.GenerateFromTypedText | frontend/src/App.jsx:35-74 | a typed transcript and prompt are posted; afterwards both summary cells hold the result, the panel is shown with only the success message, and nothing is loading |
| Scenarios.GenerateWithoutTranscript | frontend/src/App.jsx:36-39 | with a blank transcript and no file nothing is posted and the missing-transcript error is shown |
| Scenarios.GenerateFromFile | frontend/src/App.jsx:20-52 | after picking a file the transcript is cleared, and the file, not its loaded text, is what is posted |
| Scenarios.GenerateRejectedInBody | frontend/src/App.jsx:64-74 | a body without `success` leaves no summary and shows no message at all |
| Scenarios.SummarizedSession | frontend/src/App.jsx:35-74 | the exact state of a fresh session after a successful summarize |
| Scenarios.ShareWithoutRecipients | frontend/src/App.jsx:88-92 | the share handler with no recipients posts nothing, sets the error and leaves the earlier success message (the disabled button keeps a click from reaching this guard) |
| Scenarios.ShareBlankSummary | frontend/src/App.jsx:94-97 | with a recipient listed and a blank working copy nothing is posted and the empty-summary error is shown next to the earlier success message |
| Scenarios.ShareRejectedInBody | frontend/src/App.jsx:99-119 | after a successful share, a second share answered without `success` shows no error, keeps the first share's success message and keeps the second address listed |
| Scenarios.ShareToTwo | frontend/src/App.jsx:77-114 | two distinct addresses, empty subject: the addresses in order, the default subject and the summary are posted; afterwards the list, subject and field are empty and the summary is kept |

## Left out

- The server (`server/app/main.py`): LLM call, PDF extraction, markdown rendering and mail delivery are foreign services. Its HTTP-200 `{"error": ...}` bodies are what the `NotSuccess` response case stands for.
- The axios transport, `BACKEND_URL` and the multipart headers: a post is the request value a `Begin` method returns plus a later call of the matching `Complete` method.
- The `FileReader`: reading is the separate `FileLoaded` event after `SelectFile`; a failed read is that event never arriving.
- The JSX markup and styling, apart from the `disabled` conditions used as preconditions. The render conditions on `summary` and `showShare` only hide controls, so they are not preconditions.
- Concurrency and timing: promise interleaving is not modelled. A `Complete` method is only called for the post that is in flight, and a `Begin` method only while nothing is loading.
- Workflow.Controller.EditTranscript: the text area's `disabled` attribute is a precondition, not a branch, so typing while a file is selected is not modelled.
- Text.Trim: strings are sequences of Unicode code points, not the UTF-16 code units JavaScript uses; the whitespace set is the same, and no whitespace character lies outside the basic plane.
- The browser file object is reduced to its name. A summarize request carries the file object itself, not the text the client decoded from it; that reading is the separate `FileLoaded` event, and the file name shown on the page is not modelled.
