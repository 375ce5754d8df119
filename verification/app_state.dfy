/**
 * The upload component's state and the two handlers that change it: the upload
 * handler and the copy-to-clipboard handler. Each state setter is an
 * assignment applied at once, in program order.
 */
module AppState {
  import opened Wrappers
  import opened UploadNormalizer
  import opened Clipboard

  class App {
    var responseData: seq<ProcessedFile>
    var error: Option<string>
    var loading: bool
    var copyState: CopyState

    /** The initial `useState` values. */
    constructor ()
      ensures responseData == [] && error == None && !loading && copyState == Idle
    {
      responseData := [];
      error := None;
      loading := false;
      copyState := Idle;
    }

    /** The two fields an upload decides. */
    function Fields(): Settled
      reads this
    {
      Settled(responseData, error)
    }

    /** The two fields the copy action decides. */
    function CopyFields(): CopyView
      reads this
    {
      CopyView(copyState, error)
    }

    /**
     * The start of `handleFiles`: nothing happens for a missing or empty file
     * list; otherwise the request is sent with `loading` set and both result
     * fields cleared.
     */
    method BeginUpload<F>(acceptedFiles: Option<seq<F>>) returns (sent: bool)
      modifies this
      ensures sent <==> acceptedFiles.Some? && |acceptedFiles.value| > 0
      ensures !sent ==> unchanged(this)
      ensures sent ==> loading && Fields() == Cleared && copyState == old(copyState)
    {
      if acceptedFiles.None? || |acceptedFiles.value| == 0 {
        return false;
      }
      loading := true;
      responseData := [];
      error := None;
      sent := true;
    }

    /**
     * The rest of `handleFiles` once the request has ended: the reply or the
     * catch block, then `loading` cleared by the finally block whatever happened.
     */
    method CompleteUpload(outcome: Outcome, submitted: nat)
      requires outcome.Reply? ==> WellTypedReply(outcome.data)
      modifies this
      ensures !loading && copyState == old(copyState)
      ensures Fields() == Complete(old(Fields()), outcome, submitted)
    {
      match outcome {
        case Reply(data) =>
          var files := RepliedFiles(data);
          if files.Some? {
            var processedFiles := ClassifyFiles(files.value);
            responseData := processedFiles;
            var hasSuccessfulFiles := exists i :: 0 <= i < |processedFiles| && !processedFiles[i].isErrorFile;
            if |processedFiles| > 0 && !hasSuccessfulFiles {
              error := Some(AllFailedMessage);
            } else if |processedFiles| == 0 && submitted > 0 {
              error := Some(EmptyListMessage);
            }
          } else {
            error := Some(UnexpectedFormatMessage);
            responseData := [];
          }
        case _ =>
          // None: the catch block throws before it sets anything.
          var displayErrorMessage := FailureMessage(outcome);
          if displayErrorMessage.Some? {
            error := displayErrorMessage;
            responseData := [];
          }
      }
      loading := false;
    }

    /** `handleFiles` with the request's outcome given. */
    method HandleFiles<F>(acceptedFiles: Option<seq<F>>, outcome: Outcome) returns (sent: bool)
      requires outcome.Reply? ==> WellTypedReply(outcome.data)
      modifies this
      ensures sent <==> acceptedFiles.Some? && |acceptedFiles.value| > 0
      ensures !sent ==> unchanged(this)
      ensures sent ==> !loading && copyState == old(copyState)
      ensures sent ==> Fields() == Settle(outcome, |acceptedFiles.value|)
    {
      sent := BeginUpload(acceptedFiles);
      if sent {
        CompleteUpload(outcome, |acceptedFiles.value|);
      }
    }

    /**
     * `copyToClipboard` up to the clipboard write: returns the text handed to
     * the write, if one is started.
     */
    method CopyToClipboard(clipboardAvailable: bool, secureContext: bool) returns (write: Option<string>)
      modifies this
      ensures responseData == old(responseData) && loading == old(loading)
      ensures (CopyFields(), write) == RequestCopy(old(CopyFields()), responseData, clipboardAvailable, secureContext)
    {
      if copyState == Copying {
        return None;
      }
      if !clipboardAvailable {
        error := Some(UnavailableMessage(secureContext));
        return None;
      }
      copyState := Copying;
      var textToCopy := Payload(responseData);
      if textToCopy == "" {
        error := Some(NothingToCopyMessage);
        copyState := Idle;
        return None;
      }
      write := Some(textToCopy);
    }

    /** The write's promise resolved. */
    method OnWriteResolved()
      modifies this
      ensures responseData == old(responseData) && loading == old(loading)
      ensures CopyFields() == WriteResolved(old(CopyFields()))
    {
      copyState := Success;
    }

    /** The write's promise rejected with an error of this name and message. */
    method OnWriteRejected(name: string, message: string)
      modifies this
      ensures responseData == old(responseData) && loading == old(loading)
      ensures CopyFields() == WriteRejected(old(CopyFields()), name, message)
    {
      error := Some(CopyFailedPrefix + name + " - " + message);
      copyState := Idle;
    }

    /** The timer set after a successful write fired. */
    method OnTimerFired()
      modifies this
      ensures responseData == old(responseData) && loading == old(loading)
      ensures CopyFields() == TimerFired(old(CopyFields()))
    {
      copyState := Idle;
    }
  }
}
