/**
 * The copy-to-clipboard action of the upload component: the text it copies,
 * its idle / copying / success states, and the button label for each state.
 * The clipboard itself, the secure-context flag and the 2-second timer are
 * inputs and events here.
 */
module Clipboard {
  import opened Wrappers
  import opened JsonValue
  import opened UploadNormalizer

  datatype CopyState = Idle | Copying | Success

  const NothingToCopyMessage: string := "Нет текстового содержимого от успешно обработанных файлов для копирования."
  const ClipboardUnavailableText: string := "Clipboard API (navigator.clipboard) is not available."
  const SecureContextSuffix: string := " Context is secure, but API still unavailable."
  const InsecureContextSuffix: string := " Context is NOT secure (requires HTTPS or localhost)."
  const CopyFailedPrefix: string := "Failed to copy content to clipboard. Error: "

  /** The copy button's text: one label per state. */
  function ButtonLabel(state: CopyState): (text: string)
    ensures text == "Copying..." <==> state == Copying
    ensures text == "\U{2713} Copied!" <==> state == Success
    ensures text == "Copy All Content" <==> state == Idle
  {
    match state
    case Copying => "Copying..."
    case Success => "\U{2713} Copied!"
    case Idle => "Copy All Content"
  }

  /** A result whose text is copied: not an error file and with non-empty content. */
  predicate Copyable(f: ProcessedFile) {
    !f.isErrorFile && f.content != ""
  }

  /** "{filename}\n\n{content}" for one file. */
  function FileBlock(f: ProcessedFile): (block: string)
    ensures StartsWith(block, TemplateText(f.filename) + "\n\n")
    ensures EndsWith(block, f.content)
    ensures |block| == |TemplateText(f.filename)| + 2 + |f.content|
  {
    TemplateText(f.filename) + "\n\n" + f.content
  }

  /** The blocks of the copyable files, in the order of the results. */
  function Blocks(files: seq<ProcessedFile>): (blocks: seq<string>)
    ensures |blocks| <= |files|
  {
    if files == [] then []
    else (if Copyable(files[0]) then [FileBlock(files[0])] else []) + Blocks(files[1..])
  }

  /** Every block is the block of a copyable file. */
  lemma {:induction false} BlocksAreCopyableFiles(files: seq<ProcessedFile>)
    ensures forall k :: 0 <= k < |Blocks(files)| ==>
      exists i :: 0 <= i < |files| && Copyable(files[i]) && Blocks(files)[k] == FileBlock(files[i])
  {
    if files != [] {
      var rest := files[1..];
      BlocksAreCopyableFiles(rest);
      var head := if Copyable(files[0]) then [FileBlock(files[0])] else [];
      assert Blocks(files) == head + Blocks(rest);
      forall k | 0 <= k < |Blocks(files)|
        ensures exists i :: 0 <= i < |files| && Copyable(files[i]) && Blocks(files)[k] == FileBlock(files[i])
      {
        if k < |head| {
          assert 0 < |files| && Copyable(files[0]) && Blocks(files)[k] == FileBlock(files[0]);
        } else {
          var i :| 0 <= i < |rest| && Copyable(rest[i]) && Blocks(rest)[k - |head|] == FileBlock(rest[i]);
          assert rest[i] == files[i + 1];
          assert Blocks(files)[k] == Blocks(rest)[k - |head|];
          assert 0 <= i + 1 < |files| && Copyable(files[i + 1]) && Blocks(files)[k] == FileBlock(files[i + 1]);
        }
      }
    } else {
      assert |Blocks(files)| == 0;
    }
  }

  /**
   * The text handed to the clipboard: the blocks joined by a blank line. It is
   * empty exactly when no result is copyable.
   */
  function Payload(files: seq<ProcessedFile>): (text: string)
    ensures text == "" <==> forall i :: 0 <= i < |files| ==> !Copyable(files[i])
  {
    var blocks := Blocks(files);
    BlocksEmptyIff(files);
    if blocks == [] then ""
    else
      JoinStartsWithFirst(blocks, "\n\n");
      JoinStrings(blocks, "\n\n")
  }

  lemma {:induction false} BlocksEmptyIff(files: seq<ProcessedFile>)
    ensures Blocks(files) == [] <==> forall i :: 0 <= i < |files| ==> !Copyable(files[i])
    ensures forall k :: 0 <= k < |Blocks(files)| ==> Blocks(files)[k] != ""
  {
    if files != [] {
      BlocksEmptyIff(files[1..]);
      assert forall i :: 1 <= i < |files| ==> files[i] == files[1..][i - 1];
    }
  }

  lemma {:induction false} BlocksAppend(a: seq<ProcessedFile>, b: seq<ProcessedFile>)
    ensures Blocks(a + b) == Blocks(a) + Blocks(b)
  {
    if a != [] {
      assert (a + b)[1..] == a[1..] + b;
      BlocksAppend(a[1..], b);
    } else {
      assert a + b == b;
    }
  }

  /**
   * The payload of two lists of results is the payload of each, separated by a
   * blank line when both are non-empty: each copyable file contributes its block
   * in order.
   */
  lemma PayloadAppend(a: seq<ProcessedFile>, b: seq<ProcessedFile>)
    ensures Payload(a + b) ==
      if Payload(a) == "" then Payload(b)
      else if Payload(b) == "" then Payload(a)
      else Payload(a) + "\n\n" + Payload(b)
  {
    BlocksAppend(a, b);
    BlocksEmptyIff(a);
    BlocksEmptyIff(b);
    if Blocks(a) == [] {
      assert Blocks(a + b) == Blocks(b);
    } else if Blocks(b) == [] {
      assert Blocks(a + b) == Blocks(a);
    } else {
      JoinAppend(Blocks(a), Blocks(b), "\n\n");
    }
  }

  /**
   * One result alone is copied as its block, or not at all; with `PayloadAppend`
   * this fixes the copied text of every list of results.
   */
  lemma PayloadOne(f: ProcessedFile)
    ensures Payload([f]) == if Copyable(f) then FileBlock(f) else ""
  {
    assert [f][1..] == [];
  }

  /** The component fields the copy action touches. */
  datatype CopyView = CopyView(copyState: CopyState, error: Option<string>)

  /** The error shown when the clipboard API is missing. */
  function UnavailableMessage(secureContext: bool): string
  {
    ClipboardUnavailableText + (if secureContext then SecureContextSuffix else InsecureContextSuffix)
  }

  /**
   * A click on the copy button: the new fields, and the text handed to the
   * clipboard write if one is started.
   */
  function RequestCopy(before: CopyView, files: seq<ProcessedFile>, clipboardAvailable: bool, secureContext: bool)
    : (r: (CopyView, Option<string>))
    ensures before.copyState == Copying ==> r == (before, None)
    ensures before.copyState != Copying && !clipboardAvailable ==>
      r == (CopyView(before.copyState, Some(UnavailableMessage(secureContext))), None)
    ensures r.1.Some? <==> before.copyState != Copying && clipboardAvailable && exists i :: 0 <= i < |files| && Copyable(files[i])
    ensures r.1.Some? ==> r == (CopyView(Copying, before.error), Some(Payload(files))) && r.1.value != ""
    ensures before.copyState != Copying && clipboardAvailable && r.1.None? ==>
      r.0 == CopyView(Idle, Some(NothingToCopyMessage))
  {
    if before.copyState == Copying then (before, None)
    else if !clipboardAvailable then (CopyView(before.copyState, Some(UnavailableMessage(secureContext))), None)
    else
      var textToCopy := Payload(files);
      if textToCopy == "" then (CopyView(Idle, Some(NothingToCopyMessage)), None)
      else (CopyView(Copying, before.error), Some(textToCopy))
  }

  /** The clipboard write resolved. */
  function WriteResolved(before: CopyView): (after: CopyView)
    ensures after.copyState == Success && after.error == before.error
  {
    CopyView(Success, before.error)
  }

  /** The clipboard write rejected with an error of the given name and message. */
  function WriteRejected(before: CopyView, name: string, message: string): (after: CopyView)
    ensures after.copyState == Idle
    ensures after.error.Some? && StartsWith(after.error.value, CopyFailedPrefix + name + " - ")
    ensures EndsWith(after.error.value, message)
    ensures after.error == Some(CopyFailedPrefix + name + " - " + message)
  {
    CopyView(Idle, Some(CopyFailedPrefix + name + " - " + message))
  }

  /** The timer a successful write starts fired, 2000 milliseconds later. */
  function TimerFired(before: CopyView): (after: CopyView)
    ensures after.copyState == Idle && after.error == before.error
  {
    CopyView(Idle, before.error)
  }

  /**
   * From idle, with something to copy and a clipboard: copying, then success
   * once the write resolves, then idle again when the timer fires; the error
   * field is left as it was throughout.
   */
  lemma CopyCycle(error: Option<string>, files: seq<ProcessedFile>, secureContext: bool, k: nat)
    requires k < |files| && Copyable(files[k])
    ensures var (copying, write) := RequestCopy(CopyView(Idle, error), files, true, secureContext);
      && copying == CopyView(Copying, error)
      && write == Some(Payload(files))
      && WriteResolved(copying) == CopyView(Success, error)
      && TimerFired(WriteResolved(copying)) == CopyView(Idle, error)
  {
  }

  /** With only error files (or empty texts) the clipboard is never written. */
  lemma NothingCopyableNeverWrites(before: CopyView, files: seq<ProcessedFile>, clipboardAvailable: bool, secureContext: bool)
    requires forall i :: 0 <= i < |files| ==> !Copyable(files[i])
    ensures RequestCopy(before, files, clipboardAvailable, secureContext).1 == None
    ensures before.copyState != Copying && clipboardAvailable ==>
      RequestCopy(before, files, clipboardAvailable, secureContext).0 == CopyView(Idle, Some(NothingToCopyMessage))
  {
  }
}
