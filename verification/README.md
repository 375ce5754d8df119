# DragAndDrop upload: a Dafny model

DragAndDrop is a small web application. A user drops files onto a React page. The
page posts them to a FastAPI endpoint, which decodes each file as UTF-8 text and
returns a list of file names and contents. The page then shows each file, highlighted
in the language its extension suggests, and can copy the whole result to the clipboard.

This project models the core of both sides and proves what each promises:

- **The upload endpoint** (`upload_files`). Each file is read and decoded. A decoded
  file gives an entry. A file that is not UTF-8 gives a placeholder entry, except a
  `.pyc`/`.pyo` file, which is dropped silently. Any other error aborts the whole
  request with a 400 chosen by the first matching `except` clause. Decoded entries come
  first, then the placeholders. The endpoint is the method `UploadFiles`, a loop proved
  against the specification functions `Appended`, `Deferred` and `FirstAbort`.
- **The backend's exceptions and their two handlers.** The 400/404 errors carry their
  default details. The base handler replies with the bare detail string. The internal
  handler replies with `{"code": 500, "err": …}`.
- **The component's upload handler** (`handleFiles`). Given how the request ended, the
  function `Settle` gives the new `responseData` and `error`:
  - a reply with a `files` array;
  - a malformed reply;
  - an HTTP error: 413, a string `detail`, a validation array, an HTML or over-long
    string body, or any other body;
  - no response;
  - a local failure.

  The class `AppState.App` holds the component's fields. Its methods perform the same
  updates in place and are proved equal to `Settle`.
- **The copy action** (`copyToClipboard`) and the copy button's label
  (`renderButtonText`). The copied text is the blocks of the copyable files joined by a
  blank line. The copy states go idle → copying → success → idle.
- **The language lookup** (`getLanguage`). The key is the last dot-separated piece of
  the file name, lower-cased. It is looked up in a fixed table, and a missing key gives
  "text".
- **End to end.** What the component shows for every response the endpoint and the
  handlers can send: a success reply, a 400 abort and a 500.

JavaScript behaviour the component relies on is written out in `JsonValue`:
- truthiness, and property reads giving `undefined`;
- `String(v)` and template literals, for values whose conversion does not throw: an object is written as "[object Object]";
- `Array.prototype.join`, which writes null as "";
- `trim`, with its WhiteSpace and LineTerminator set;
- `toLowerCase`, for the characters that can become ASCII letters;
- `length`, counted in UTF-16 units.

Python's `except` order is a list of clauses with first-match on `isinstance`, so a
`UnicodeDecodeError`, which is also a `ValueError`, is taken by the clause written first.
The placeholder text keeps the 28 spaces that the backslash continuation carries into
the string literal at `backend/api/router.py:33-34`.

## Model

Helper predicates and functions that name one source expression are covered by the rows of the members whose contracts use them:
- `IsErrorContent` (App.js:45-49) by `ClassifyFiles`;
- `LocPath` (App.js:91) by `ValidationItemText` and `MissingFieldLocation`;
- `LooksLikeHtml` (App.js:95) by `BodyMessage` and `StartsWithFNotHtml`;
- `Copyable` (App.js:165) by `BlocksEmptyIff`, `BlocksAreCopyableFiles`, `Payload` and `PayloadOne`;
- `UnavailableMessage` (App.js:158) by `RequestCopy`;
- `IsBytecodeName` (router.py:29) by `FileStep` and `DecodeFailureNeverAborts`;
- `FilesBody` (router.py:55-58) by `FilesBodyRead`;
- `Appended`, `Deferred` and `FirstAbort`, the specification functions of the upload loop, by `UploadFiles` and the lemmas about them;
- `DroppedCount` (router.py:29) by `DroppedCountConcat` and `PartitionLength`;
- `Catches`, Python's `isinstance` test in an `except` clause (router.py:25-52), by `FirstCatching`, `HandlingClause` and `ClauseOrder`;
- `StringDetail`, `DetailItems`, `ValidationShaped` and `ThrowsOnItems` (App.js:86-93) by `HttpErrorMessage` and `HttpErrorMessageBodies`;
- `ClassifyFile` (App.js:44-58) by `ClassifyFiles`;
- `Text`, `TemplateText` and `JoinValues`, JavaScript's `String()`, template literals and `join` (App.js:91-92, 166), by `ValidationItemText`, `MissingFieldLocation` and `FileBlock`. `JoinStrings`, the `join` of a list of strings (App.js:93, 167), is covered by `JoinStartsWithFirst` and `JoinAppend`.

| member | source | states |
|---|---|---|
| JsonValue.TrimStart | draganddrop/frontend/src/App.js:95 | the leading part of `trim`: the result ends the input, does not start with a trimmable character, and every character cut off before it is trimmable |
| JsonValue.TrimEnd | draganddrop/frontend/src/App.js:95 | the trailing part of `trim`: the result starts the input, does not end with a trimmable character, and every character cut off after it is trimmable |
| JsonValue.Lower | draganddrop/frontend/src/App.js:194 | lower-casing keeps the length and lowers each character in place |
| JsonValue.Utf16Length | draganddrop/frontend/src/App.js:95 | a string's `length` lies between its number of characters and twice that; it equals the number of characters exactly when no character is outside the Basic Multilingual Plane, and twice it exactly when every character is |
| JsonValue.Utf16LengthConcat | draganddrop/frontend/src/App.js:95 | the `length` of a concatenation is the sum of the lengths |
| JsonValue.Utf16LengthChar | draganddrop/frontend/src/App.js:95 | one character counts 2 units outside the Basic Multilingual Plane and 1 inside it |
| JsonValue.IntToString | draganddrop/frontend/src/App.js:96 | a status code is written as non-empty text that starts with "-" exactly when the code is negative |
| JsonValue.IntToStringDecimal | draganddrop/frontend/src/App.js:96 | the text is the code's decimal digits, after a "-" for a negative code, with no leading zero: reading the digits back gives the absolute value |
| JsonValue.NatToString | draganddrop/frontend/src/App.js:96 | a natural number is written as decimal digits whose value is the number, without a leading zero |
| JsonValue.JoinStartsWithFirst | draganddrop/frontend/src/App.js:167 | a join of pieces starts with the first piece |
| JsonValue.JoinAppend | draganddrop/frontend/src/App.js:92 | joining two non-empty lists puts one separator between the two joins |
| UploadNormalizer.ClassifyFiles | draganddrop/frontend/src/App.js:44-59 | one processed file per reply entry, in order, with the same filename and content; it is an error file exactly when its content starts with the UTF-8 sentinel or equals the too-large sentinel; `is_binary` equals `is_error_file` |
| UploadNormalizer.RepliedFiles | draganddrop/frontend/src/App.js:43 | a reply is read as a file list exactly when it is an object whose `files` is an array, and then that array is used |
| UploadNormalizer.ServerErrorMessage | draganddrop/frontend/src/App.js:96 | every "server error" message starts with the "Ошибка сервера " prefix |
| UploadNormalizer.ServerErrorMessageParts | draganddrop/frontend/src/App.js:96 | the message is the prefix, the status code's text and ": ", followed by the status text, or by the fallback when the status text is empty, and nothing else |
| UploadNormalizer.WithoutBody | draganddrop/frontend/src/App.js:91 | the location path keeps exactly its segments other than "body", and a one-segment path is kept or emptied |
| UploadNormalizer.WithoutBodyConcat | draganddrop/frontend/src/App.js:91 | filtering goes segment by segment, so the kept segments stay in their order |
| UploadNormalizer.ValidationItemText | draganddrop/frontend/src/App.js:90-92 | an item reads "loc: msg" when its filtered location path is non-empty, and just its `msg` text otherwise |
| UploadNormalizer.ItemTexts | draganddrop/frontend/src/App.js:89-92 | one text per validation item, in the items' order |
| UploadNormalizer.ValidationMessage | draganddrop/frontend/src/App.js:89-93 | the validation message starts with "Ошибка валидации: ", and it cannot be built (the catch block throws) exactly when an item is null |
| UploadNormalizer.ValidationMessageSingle | draganddrop/frontend/src/App.js:89-93 | a single item is written alone after the prefix |
| UploadNormalizer.ValidationMessageConcat | draganddrop/frontend/src/App.js:89-93 | the items are written in order and separated by "; ": the message for two lists is the first one's, then "; ", then the second one's item texts joined |
| UploadNormalizer.BodyMessage | draganddrop/frontend/src/App.js:94-102 | a string body that looks like HTML or is longer than 300 UTF-16 units gives the server-error message with the "error on the server" fallback, a shorter non-HTML string is shown verbatim, and any other body gives the server-error message with the "could not process" fallback |
| UploadNormalizer.HttpErrorMessage | draganddrop/frontend/src/App.js:80-105 | 413 always gives the size-limit message; otherwise an empty body gives the unknown-error message and a string `detail` is shown verbatim; the catch block throws exactly when a non-empty `detail` array has a null first item, or passes the `msg` test and holds a null; the message is empty exactly when the `detail` string is empty |
| UploadNormalizer.HttpErrorMessageBodies | draganddrop/frontend/src/App.js:87-102 | the remaining branches, in the source's order: a `detail` array whose first item has a truthy `msg` gives the validation message; a non-empty string body gives the string-body message; any other truthy body gives the "could not process" server message |
| UploadNormalizer.MissingFieldLocation | draganddrop/frontend/src/App.js:91 | the location ["body", "x"] reads "x" |
| UploadNormalizer.MissingFieldItemText | draganddrop/frontend/src/App.js:90-92 | the item for a missing field "x" reads "x: required" |
| UploadNormalizer.ValidationExample | draganddrop/frontend/src/App.js:89-93 | a 422 reply whose `detail` is that one item is shown as "Ошибка валидации: x: required" |
| UploadNormalizer.FailureMessage | draganddrop/frontend/src/App.js:76-110 | an HTTP error gives the HTTP-error message; no response gives the connectivity message; a local failure gives exactly "Ошибка приложения: " followed by its message, or the default message when the message is empty |
| UploadNormalizer.Complete | draganddrop/frontend/src/App.js:33-116 | a failure clears the results and sets its message, and keeps the state when the catch block throws; a malformed reply gives the unexpected-format message; otherwise the results are the classified entries, the all-failed message is set whenever there are results and all are error files, the empty-list message whenever there are none and files were sent, and otherwise the error is kept |
| UploadNormalizer.Settle | draganddrop/frontend/src/App.js:21-117 | an HTTP error clears the results and shows its message; no response shows the connectivity message; a local failure shows "Ошибка приложения: " and its message, or the default message; a reply without a `files` array gives the unexpected-format message; otherwise the results are the classified entries, the error is the all-failed message exactly when there are results and all are error files, the empty-list message exactly when there are none, and null exactly when one result succeeded |
| Clipboard.ButtonLabel | draganddrop/frontend/src/App.js:224-230 | the label is "Copying..." exactly while copying, "✓ Copied!" exactly after success, and "Copy All Content" exactly when idle |
| Clipboard.FileBlock | draganddrop/frontend/src/App.js:166 | a file's block is its filename, a blank line, and its content |
| Clipboard.Blocks | draganddrop/frontend/src/App.js:164-166 | there are at most as many blocks as files |
| Clipboard.BlocksAreCopyableFiles | draganddrop/frontend/src/App.js:164-166 | every block is the block of some copyable file |
| Clipboard.BlocksEmptyIff | draganddrop/frontend/src/App.js:164-166 | there are no blocks exactly when no file is copyable (successful with non-empty content), and no block is empty |
| Clipboard.Payload | draganddrop/frontend/src/App.js:164-167 | the copied text is empty exactly when no file is copyable |
| Clipboard.PayloadOne | draganddrop/frontend/src/App.js:164-167 | one result is copied as its block (filename, blank line, content) when copyable and not at all otherwise; with `PayloadAppend` this fixes the copied text of every list |
| Clipboard.BlocksAppend | draganddrop/frontend/src/App.js:164-166 | filtering and mapping the results goes file by file: the blocks of two lists are the blocks of each, in order |
| Clipboard.PayloadAppend | draganddrop/frontend/src/App.js:164-167 | the copied text of two result lists is each one's text, separated by a blank line when both are non-empty |
| Clipboard.RequestCopy | draganddrop/frontend/src/App.js:152-173 | while copying a click does nothing; with no clipboard, the error names the context's security and the state is kept; a write starts exactly when something is copyable, with the non-empty payload and the state copying; otherwise the state is idle with the nothing-to-copy error |
| Clipboard.WriteResolved | draganddrop/frontend/src/App.js:176-177 | a resolved write sets the success state and keeps the error |
| Clipboard.WriteRejected | draganddrop/frontend/src/App.js:180-185 | a rejected write returns to idle with the error "Failed to copy content to clipboard. Error: ", the error's name, " - " and its message |
| Clipboard.TimerFired | draganddrop/frontend/src/App.js:178 | the timer returns to idle and keeps the error |
| Clipboard.CopyCycle | draganddrop/frontend/src/App.js:175-179 | from idle with something copyable the states go copying, success, idle, and the error field is left as it was |
| Clipboard.NothingCopyableNeverWrites | draganddrop/frontend/src/App.js:164-173 | with no copyable file the clipboard is never written, and a click from a non-copying state with a clipboard shows the nothing-to-copy error |
| Language.LastSegment | draganddrop/frontend/src/App.js:194 | the segment has no dot, ends the name, and is preceded by a dot when it is not the whole name |
| Language.ExtensionKey | draganddrop/frontend/src/App.js:194 | the lookup key never contains a dot |
| Language.LanguageOf | draganddrop/frontend/src/App.js:190-222 | the language is always one of the table's languages |
| Language.LanguageFromTable | draganddrop/frontend/src/App.js:195-221 | a key in the table gives its entry, any other key gives "text", and the result is always one of the table's languages |
| Language.YmlTmplUnreachable | draganddrop/frontend/src/App.js:202 | the "yml.tmpl" case can never be chosen, because the key has no dot |
| Language.NoDotWholeName | draganddrop/frontend/src/App.js:194 | a name without a dot is looked up whole, lower-cased |
| Language.ExampleRust | draganddrop/frontend/src/App.js:211 | "main.rs" is rust |
| Language.ExampleNoExtension | draganddrop/frontend/src/App.js:217-220 | "README" falls to the default "text" |
| Language.ExampleLastDotOnly | draganddrop/frontend/src/App.js:194 | only the last extension counts: "archive.tar.gz" is "text" |
| Language.ExampleUpperCase | draganddrop/frontend/src/App.js:213 | the extension is lower-cased: "Main.KT" is kotlin |
| Language.ExampleKelvinSign | draganddrop/frontend/src/App.js:194 | the Kelvin sign lowers to "k", so "Main.\U{212A}T" names the same language as "Main.KT": kotlin |
| AppState.App.constructor | draganddrop/frontend/src/App.js:11-14 | the initial state: no results, no error, not loading, idle |
| AppState.App.BeginUpload | draganddrop/frontend/src/App.js:21-27 | a missing or empty file list changes nothing; otherwise loading is set and results and error are cleared |
| AppState.App.CompleteUpload | draganddrop/frontend/src/App.js:33-116 | the fields become what the reply or the catch block makes of the state before it, and loading is cleared |
| AppState.App.HandleFiles | draganddrop/frontend/src/App.js:21-117 | a sent upload leaves exactly the fields `Settle` gives for its outcome and file count, loading cleared and the copy state kept |
| AppState.App.CopyToClipboard | draganddrop/frontend/src/App.js:152-173 | copy state, error and the write started are those `RequestCopy` gives; results and loading are untouched |
| AppState.App.OnWriteResolved | draganddrop/frontend/src/App.js:176-177 | a resolved write sets the success state |
| AppState.App.OnWriteRejected | draganddrop/frontend/src/App.js:180-185 | a rejected write sets the failure error and the idle state |
| AppState.App.OnTimerFired | draganddrop/frontend/src/App.js:178 | the timer returns the state to idle |
| HttpErrors.BaseHttpError | draganddrop/backend/api/exceptions.py:6-11 | the error carries the given status and detail |
| HttpErrors.NotFoundError | draganddrop/backend/api/exceptions.py:14-16 | status 404 with the given detail |
| HttpErrors.BadRequestError | draganddrop/backend/api/exceptions.py:19-21 | status 400 with the given detail |
| HttpErrors.DefaultDetails | draganddrop/backend/api/exceptions.py:7-20 | the default details: "An error occurred", "Resource not found", "Bad request" |
| HttpErrors.BaseErrorHandler | draganddrop/backend/api/exceptions.py:24-25 | the response has the exception's status and the bare detail string as its body |
| HttpErrors.InternalExceptionHandler | draganddrop/backend/api/exceptions.py:28-32 | status 500, and a body object with exactly the keys "code" (500) and "err" (the exception's text) |
| UploadRouter.FirstCatching | draganddrop/backend/api/router.py:25-52 | the chosen clause is the first one in written order that catches the class |
| UploadRouter.HandlingClause | draganddrop/backend/api/router.py:25-52 | the handling clause catches the class and is the first one that does |
| UploadRouter.ClauseOrder | draganddrop/backend/api/router.py:25-52 | a UnicodeDecodeError would also be caught as a ValueError, but its own clause takes it; each other class goes to its own clause |
| UploadRouter.FileStep | draganddrop/backend/api/router.py:15-52 | a decoded file is appended as it is; a decode failure gives a placeholder unless the name ends in .pyc or .pyo, in which case it is dropped; every other error aborts with a 400 |
| UploadRouter.AbortDetails | draganddrop/backend/api/router.py:37-52 | a file aborts exactly when it fails with an error other than a decode failure, and each class gives its own detail text |
| UploadRouter.FirstAbortNoneIff | draganddrop/backend/api/router.py:14-52 | the request goes through exactly when no file aborts it |
| UploadRouter.FirstAbortIsFirst | draganddrop/backend/api/router.py:14-52 | when the request aborts, it is with the exception of a file that aborts and that no earlier file precedes in aborting |
| UploadRouter.AppendedConcat | draganddrop/backend/api/router.py:14-24 | the decoded entries of two file lists are those of each, in order |
| UploadRouter.DeferredConcat | draganddrop/backend/api/router.py:25-36 | the placeholders of two file lists are those of each, in order |
| UploadRouter.DroppedCountConcat | draganddrop/backend/api/router.py:29 | the dropped files of two lists add up |
| UploadRouter.UploadFiles | draganddrop/backend/api/router.py:9-60 | the endpoint fails exactly when some file aborts, with the first such exception; otherwise it replies 200 with the decoded entries followed by the placeholders |
| UploadRouter.FirstAbortOfPrefix | draganddrop/backend/api/router.py:37-52 | once the files read so far abort, the request aborts with that exception whatever follows |
| UploadRouter.FirstAbortConcat | draganddrop/backend/api/router.py:14-52 | the first abort of two lists is that of the first list, or else that of the second |
| UploadRouter.PartitionLength | draganddrop/backend/api/router.py:14-54 | without an abort the reply has one entry per file, less the dropped bytecode files |
| UploadRouter.DecodeFailureNeverAborts | draganddrop/backend/api/router.py:25-36 | a decode failure is dropped for a bytecode name and otherwise becomes a placeholder; it never aborts |
| EndToEnd.PlaceholderIsErrorContent | draganddrop/backend/api/router.py:33-34 | the placeholder written by the endpoint is recognised by the component as an error content |
| EndToEnd.FilesBodyRead | draganddrop/backend/api/router.py:55-58 | the component reads the endpoint's reply body as a file list of the same length, entry by entry |
| EndToEnd.RouterReplyShown | draganddrop/backend/api/router.py:54-58 | a successful reply is shown with the same length, names and contents, and every placeholder is an error file |
| EndToEnd.DeferredArePlaceholders | draganddrop/backend/api/router.py:29-36 | every deferred entry holds the placeholder text |
| EndToEnd.AbortDetailStartsWithF | draganddrop/backend/api/router.py:37-52 | every 400 detail of the endpoint is non-empty and starts with "F" |
| EndToEnd.StartsWithFNotHtml | draganddrop/frontend/src/App.js:95 | a text starting with "F" never looks like an HTML page |
| EndToEnd.StringBodyShown | draganddrop/frontend/src/App.js:94-99 | a non-empty string body other than 413 is handled by the string-body branch |
| EndToEnd.BadRequestShown | draganddrop/backend/api/exceptions.py:24-25 | a 400 whose detail starts with "F" is shown verbatim, or as the generic server error when longer than 300 UTF-16 units |
| EndToEnd.RouterAbortShown | draganddrop/backend/api/router.py:37-52 | every aborted upload is shown that way |
| EndToEnd.InternalErrorShown | draganddrop/backend/api/exceptions.py:28-32 | a 500 from the internal handler is shown as the generic "could not process the request" server error |
| EndToEnd.SentinelTextIsMisread | draganddrop/frontend/src/App.js:46 | a text file whose content is exactly the too-large sentinel is shown as an error file, and the upload is reported as all-failed |

## Left out

- Rendering (JSX, the syntax highlighter, scrolling, layout flags such as `appAlignedTop`), the paste handler and the dropzone wiring: they are presentation or event plumbing around the modelled handlers.
- The HTTP request itself (axios, FormData, the API URL): its result is the `Outcome` parameter, and the JSON the endpoint writes is taken to reach the component unchanged. This matters for `EndToEnd.InternalErrorShown`, which holds only if the 500 reaches the page. Starlette builds that 500 in `ServerErrorMiddleware`, which sits outside `CORSMiddleware`, so the reply carries no CORS headers. A page on another origin therefore most likely sees no response at all and shows the connectivity message instead.
- `navigator.clipboard`, `window.isSecureContext` and `setTimeout`: these are inputs (`clipboardAvailable`, `secureContext`), and the promise and timer callbacks are separate events (`OnWriteResolved`, `OnWriteRejected`, `OnTimerFired`).
- `console.error` logging: it has no effect on state.
- React's asynchronous state updates, stale closures and overlapping uploads: each setter is modelled as an assignment applied at once, and uploads one at a time.
- The UI condition that disables the copy button: the copy action is modelled for every state.
- UploadNormalizer.Settle: requires every entry of a reply's `files` array to be an object with a string `content`. Otherwise the component throws a TypeError inside the try block, and its text depends on the JavaScript engine. The same precondition is on `Complete`, `ClassifyFiles`, `AppState.App.CompleteUpload` and `AppState.App.HandleFiles`.
- JsonValue.Lower: lowers only A-Z and the Kelvin sign U+212A. Those are the only characters whose lower case is an ASCII letter, so the `<html>` test and the extension lookup come out exactly as with full Unicode lower-casing. Lowering of other characters is not modelled.
- UploadNormalizer.ValidationMessage: writes every JSON object as "[object Object]", and an array holding one through `join`. In JavaScript, converting a parsed object that has its own "toString" key throws a TypeError: that value is not callable, and `valueOf` returns the object itself. An array holding such an object, at any depth, throws in the same way. So when a validation item's `msg`, or a segment of its `loc`, has that shape, the source's catch block throws and `error` is left as it was, while the model returns a message. Neither backend handler sends such a body.
- UploadNormalizer.HttpErrorMessage: for the same reason, its throw condition covers null validation items only, not items whose `msg` or `loc` segment cannot be converted to a string.
- Clipboard.RequestCopy: a copyable result whose `filename` is such an object makes the source throw while it builds the text (App.js:166). By then the copy state is already copying, so no write starts and every later click returns early. The model starts a write instead. The endpoint always sends string filenames.
- JSON numbers are integers here; fractional JSON numbers and their text form are not modelled.
- JsonValue.IntToString: writes every integer in plain decimal. JavaScript writes a number of 1e21 or more in exponent form, and integers above 2^53 are already rounded when the reply is parsed, so validation texts built from such numbers in a `msg` or `loc` differ from the model's.
- JsonValue.Utf16Length: counts well-formed text only. A string holding a lone UTF-16 surrogate cannot be written, because a Dafny `char` is a Unicode scalar value.
- The reading of an uploaded file and the UTF-8 decoder are not modelled: a file's read-and-decode result (`Decoded` text or a `Raised` exception class with its text) is an input.
- A file without a filename on the backend: filenames are strings.
- FastAPI's request parsing, its own validation errors, the 413 limit, CORS and the application setup (`backend/main.py` is not part of this model). The component's handling of any such reply is modelled through `HttpErrorMessage`.
- The component's tests (`frontend/src/App.test.js`) are not part of this model.
