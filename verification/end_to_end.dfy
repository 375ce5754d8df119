/**
 * The two sides of the upload endpoint together: what the component makes of
 * each response the backend can send. The JSON written by the backend is taken
 * to reach the component unchanged.
 */
module EndToEnd {
  import opened Wrappers
  import opened JsonValue
  import opened HttpErrors
  import opened UploadRouter
  import opened UploadNormalizer

  /** Every placeholder the router writes is read as an error file. */
  lemma PlaceholderIsErrorContent()
    ensures IsErrorContent(Utf8FailureContent)
  {
    assert Utf8FailureContent[..|Utf8ErrorPrefix|] == Utf8ErrorPrefix;
  }

  /** The reply body the router sends for files that do not abort. */
  function ReplyBody(files: seq<UploadFile>): Json
  {
    FilesBody(Appended(files) + Deferred(files))
  }

  /** The component finds the router's entries in a `{"files": [...]}` body. */
  lemma FilesBodyRead(entries: seq<Entry>)
    ensures RepliedFiles(FilesBody(entries)).Some?
    ensures |RepliedFiles(FilesBody(entries)).value| == |entries|
    ensures forall i :: 0 <= i < |entries| ==> RepliedFiles(FilesBody(entries)).value[i] == EntryJson(entries[i])
    ensures WellTypedReply(FilesBody(entries))
  {
  }

  /**
   * A successful reply is shown entry by entry: same length, names and
   * contents, and every placeholder entry (they follow the decoded ones) is an
   * error file.
   */
  lemma RouterReplyShown(files: seq<UploadFile>, submitted: nat)
    requires FirstAbort(files).None? && submitted > 0
    ensures WellTypedReply(ReplyBody(files))
    ensures var entries := Appended(files) + Deferred(files);
      var after := Settle(Reply(ReplyBody(files)), submitted);
      && |after.responseData| == |entries|
      && (forall k :: 0 <= k < |entries| ==>
            after.responseData[k].filename == Some(JStr(entries[k].filename))
            && after.responseData[k].content == entries[k].content)
      && (forall k :: |Appended(files)| <= k < |entries| ==> after.responseData[k].isErrorFile)
  {
    var entries := Appended(files) + Deferred(files);
    FilesBodyRead(entries);
    PlaceholderIsErrorContent();
    DeferredArePlaceholders(files);
  }

  lemma {:induction false} DeferredArePlaceholders(files: seq<UploadFile>)
    ensures forall e :: e in Deferred(files) ==> e.content == Utf8FailureContent
  {
    if files != [] {
      DeferredArePlaceholders(files[..|files| - 1]);
    }
  }

  /** Every 400 detail of the router starts with "F". */
  lemma AbortDetailStartsWithF(f: UploadFile)
    requires FileStep(f).Abort?
    ensures |FileStep(f).exc.detail| > 0 && FileStep(f).exc.detail[0] == 'F'
  {
    AbortDetails(f);
  }

  /** A text that starts with "F" never looks like an HTML page. */
  lemma StartsWithFNotHtml(s: string)
    requires |s| > 0 && s[0] == 'F'
    ensures !LooksLikeHtml(s)
  {
    assert !IsTrimmable(s[0]);
    assert TrimStart(s) == s;
    var t := TrimEnd(s);
    assert Trim(s) == t;
    if |t| > 0 {
      assert t[0] == s[0];
      var u := Lower(t);
      assert u[0] == LowerChar('F') == 'f';
      FirstCharDiffers(u, "<html>");
    }
  }

  lemma FirstCharDiffers(u: string, p: string)
    requires |u| > 0 && |p| > 0 && u[0] != p[0]
    ensures !StartsWith(u, p)
  {
    if |p| <= |u| {
      assert u[..|p|][0] != p[0];
    }
  }

  /** A non-empty string body (no `detail` to read) goes to the string-body branch. */
  lemma StringBodyShown(status: int, statusText: string, s: string, submitted: nat)
    requires status != 413 && s != [] && submitted > 0
    ensures Settle(HttpError(status, statusText, JStr(s)), submitted) ==
      Settled([], Some(BodyMessage(status, statusText, JStr(s))))
  {
    assert Prop(JStr(s), "detail") == None;
    assert HttpErrorMessage(status, statusText, JStr(s)) == Some(BodyMessage(status, statusText, JStr(s)));
  }

  /**
   * A 400 whose detail starts with "F" is shown through the string-body branch:
   * the detail verbatim, or the generic server message when it is over 300
   * UTF-16 units long.
   */
  lemma BadRequestShown(exc: HttpException, statusText: string, submitted: nat)
    requires exc.statusCode == 400 && |exc.detail| > 0 && exc.detail[0] == 'F'
    requires submitted > 0
    ensures var response := BaseErrorHandler(exc);
      Settle(HttpError(response.status, statusText, response.body), submitted) ==
        Settled([], Some(if Utf16Length(exc.detail) > 300
                         then ServerErrorMessage(400, statusText, StringBodyFallback)
                         else exc.detail))
  {
    StringBodyShown(400, statusText, exc.detail, submitted);
    StartsWithFNotHtml(exc.detail);
  }

  /** So is every request the router aborts. */
  lemma RouterAbortShown(files: seq<UploadFile>, statusText: string, submitted: nat)
    requires FirstAbort(files).Some? && submitted > 0
    ensures var exc := FirstAbort(files).value;
      var response := BaseErrorHandler(exc);
      Settle(HttpError(response.status, statusText, response.body), submitted) ==
        Settled([], Some(if Utf16Length(exc.detail) > 300
                         then ServerErrorMessage(400, statusText, StringBodyFallback)
                         else exc.detail))
  {
    var exc := FirstAbort(files).value;
    FirstAbortIsFirst(files);
    var i :| 0 <= i < |files| && FileStep(files[i]) == Abort(exc);
    AbortDetailStartsWithF(files[i]);
    BadRequestShown(exc, statusText, submitted);
  }

  /** The 500 body has neither a `detail` nor a string shape: the generic message. */
  lemma InternalErrorShown(excText: string, statusText: string, submitted: nat)
    requires submitted > 0
    ensures var response := InternalExceptionHandler(excText);
      Settle(HttpError(response.status, statusText, response.body), submitted) ==
        Settled([], Some(ServerErrorMessage(500, statusText, OtherBodyFallback)))
  {
  }

  /**
   * A text file whose own content is a sentinel is indistinguishable from a
   * failure: it is shown as an error file and the upload as all-failed.
   */
  lemma SentinelTextIsMisread()
    ensures var files := [UploadFile("notes.txt", Decoded(TooLargeContent))];
      FirstAbort(files).None? &&
      Settle(Reply(ReplyBody(files)), 1) ==
        Settled([ProcessedFile(Some(JStr("notes.txt")), TooLargeContent, true, true)], Some(AllFailedMessage))
  {
    var files := [UploadFile("notes.txt", Decoded(TooLargeContent))];
    assert files[..0] == [];
    FirstAbortNoneIff(files);
    assert Appended(files) == [Entry("notes.txt", TooLargeContent)];
    assert Deferred(files) == [];
    RouterReplyShown(files, 1);
  }
}
