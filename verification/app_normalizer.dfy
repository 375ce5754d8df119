/**
 * The decision logic of `handleFiles` in the upload component: how one upload
 * outcome (a reply, an HTTP error, no response, or a local failure) becomes the
 * component's `responseData` and `error`.
 */
module UploadNormalizer {
  import opened Wrappers
  import opened JsonValue

  // Sentinel contents the backend puts in place of a file's text.
  const Utf8ErrorPrefix: string := "File is not a valid UTF-8 encoded text file."
  const TooLargeContent: string := "File is too large to process."

  // Messages set after a reply.
  const AllFailedMessage: string := "Все предоставленные файлы не удалось обработать как текстовые (проблемы с кодировкой, размером и т.д.). Подробности см. для каждого файла."
  const EmptyListMessage: string := "Сервер вернул пустой список файлов. Возможно, произошла неизвестная ошибка при обработке на сервере."
  const UnexpectedFormatMessage: string := "Получен неожиданный формат ответа от сервера."

  // Messages set after a failure.
  const DefaultFailureMessage: string := "При загрузке файлов произошла непредвиденная ошибка. Пожалуйста, попробуйте снова."
  const PayloadTooLargeMessage: string := "Один или несколько файлов слишком велики. Сервер имеет ограничение на общий размер загружаемых данных. Пожалуйста, попробуйте загрузить файлы меньшего размера или меньшее количество файлов за раз."
  const ConnectivityMessage: string := "Не удается подключиться к серверу. Проверьте ваше сетевое соединение или убедитесь, что сервер запущен. Это также может быть проблема с CORS на стороне сервера."
  const AppErrorPrefix: string := "Ошибка приложения: "
  const ValidationPrefix: string := "Ошибка валидации: "
  const ServerErrorPrefix: string := "Ошибка сервера "
  // The three texts used when the HTTP status text is empty.
  const StringBodyFallback: string := "Произошла ошибка на сервере."
  const OtherBodyFallback: string := "Не удалось обработать запрос из-за проблемы на сервере."
  const NoBodyFallback: string := "Произошла неизвестная ошибка на сервере."

  /** How the upload request ended, as the component sees it. */
  datatype Outcome =
    | Reply(data: Json)                                  // a 2xx reply and its parsed body
    | HttpError(status: int, statusText: string, data: Json)  // `err.response` is set
    | NoResponse                                         // `err.request` only
    | LocalError(message: string)                        // neither; "" is a missing message

  /** One entry of `responseData`. */
  datatype ProcessedFile = ProcessedFile(filename: Option<Json>, content: string, isErrorFile: bool, isBinary: bool)

  /** The two component fields an upload decides. */
  datatype Settled = Settled(responseData: seq<ProcessedFile>, error: Option<string>)

  /** The values `handleFiles` resets both fields to before it sends the request. */
  const Cleared: Settled := Settled([], None)

  /** A content the component treats as a backend failure sentinel. */
  predicate IsErrorContent(content: string) {
    StartsWith(content, Utf8ErrorPrefix) || content == TooLargeContent
  }

  /** A reply entry whose `content` is a string, so that `startsWith` can be called on it. */
  predicate HasStringContent(file: Json) {
    file.JObj? && "content" in file.fields && file.fields["content"].JStr?
  }

  /** `file.content` of a reply entry. */
  function ContentOf(file: Json): string
    requires HasStringContent(file)
  {
    file.fields["content"].s
  }

  /** The `map` callback over the reply entries. */
  function ClassifyFile(file: Json): ProcessedFile
    requires HasStringContent(file)
  {
    var content := ContentOf(file);
    var isUtf8Error := StartsWith(content, Utf8ErrorPrefix);
    var isTooLargeError := content == TooLargeContent;
    var isErrorFile := isUtf8Error || isTooLargeError;
    ProcessedFile(Prop(file, "filename"), content, isErrorFile, isErrorFile)
  }

  /** Classifies every reply entry: order, filenames and contents are kept. */
  function ClassifyFiles(files: seq<Json>): (r: seq<ProcessedFile>)
    requires forall i :: 0 <= i < |files| ==> HasStringContent(files[i])
    ensures |r| == |files|
    ensures forall i :: 0 <= i < |files| ==>
      && r[i].content == ContentOf(files[i])
      && r[i].filename == Prop(files[i], "filename")
      && (r[i].isErrorFile <==> IsErrorContent(r[i].content))
      && r[i].isBinary == r[i].isErrorFile
  {
    seq(|files|, i requires 0 <= i < |files| => ClassifyFile(files[i]))
  }

  /** The `files` array of a reply, if the reply has the expected shape. */
  function RepliedFiles(data: Json): (r: Option<seq<Json>>)
    ensures r.Some? <==> data.JObj? && "files" in data.fields && data.fields["files"].JArr?
    ensures r.Some? ==> r.value == data.fields["files"].items
  {
    if Truthy(data) && Prop(data, "files").Some? && Prop(data, "files").value.JArr?
    then Some(Prop(data, "files").value.items)
    else None
  }

  /** What the source needs of a reply so that classification does not throw. */
  predicate WellTypedReply(data: Json) {
    RepliedFiles(data).Some? ==>
      forall i :: 0 <= i < |RepliedFiles(data).value| ==> HasStringContent(RepliedFiles(data).value[i])
  }

  /** "Ошибка сервера {status}: {statusText or fallback}". */
  function ServerErrorMessage(status: int, statusText: string, fallback: string): (m: string)
    ensures StartsWith(m, ServerErrorPrefix)
  {
    ServerErrorPrefix + IntToString(status) + ": " + (if statusText != "" then statusText else fallback)
  }

  /**
   * The message is the prefix, the status, ": ", and then the status text, or
   * the fallback when the status text is empty.
   */
  lemma ServerErrorMessageParts(status: int, statusText: string, fallback: string)
    ensures var m := ServerErrorMessage(status, statusText, fallback);
      && StartsWith(m, ServerErrorPrefix + IntToString(status) + ": ")
      && EndsWith(m, if statusText != "" then statusText else fallback)
      && |m| == |ServerErrorPrefix| + |IntToString(status)| + 2 + |if statusText != "" then statusText else fallback|
  {
  }

  /** The body, trimmed and lower-cased, begins with the tag "<html>". */
  predicate LooksLikeHtml(s: string) {
    StartsWith(Lower(Trim(s)), "<html>")
  }

  /** A location path without its "body" segments. */
  function WithoutBody(path: seq<Json>): (r: seq<Json>)
    ensures forall x :: x in r <==> x in path && x != JStr("body")
    ensures |r| <= |path|
    ensures |path| == 1 ==> r == if path[0] == JStr("body") then [] else path
  {
    if path == [] then []
    else (if path[0] == JStr("body") then [] else [path[0]]) + WithoutBody(path[1..])
  }

  /** Segments are filtered one by one, so the kept ones stay in their order. */
  lemma {:induction false} WithoutBodyConcat(a: seq<Json>, b: seq<Json>)
    ensures WithoutBody(a + b) == WithoutBody(a) + WithoutBody(b)
  {
    if a == [] {
      assert a + b == b;
    } else {
      assert (a + b)[1..] == a[1..] + b;
      WithoutBodyConcat(a[1..], b);
    }
  }

  /** The location of a validation item: its "body"-free path joined by " -> ", or "" without a path array. */
  function LocPath(item: Json): string
    requires item != JNull
  {
    var loc := Prop(item, "loc");
    if loc.Some? && loc.value.JArr? then JoinValues(WithoutBody(loc.value.items), " -> ") else ""
  }

  /** One validation item as "loc: msg", or just "msg" when the location path is empty. */
  function ValidationItemText(item: Json): (r: string)
    requires item != JNull
    ensures LocPath(item) == "" ==> r == TemplateText(Prop(item, "msg"))
    ensures LocPath(item) != "" ==> r == LocPath(item) + ": " + TemplateText(Prop(item, "msg"))
  {
    (if LocPath(item) != "" then LocPath(item) + ": " else "") + TemplateText(Prop(item, "msg"))
  }

  /** The text of each item, in order. */
  function ItemTexts(items: seq<Json>): (r: seq<string>)
    requires JNull !in items
    ensures |r| == |items| && forall i :: 0 <= i < |items| ==> r[i] == ValidationItemText(items[i])
  {
    seq(|items|, i requires 0 <= i < |items| => ValidationItemText(items[i]))
  }

  /**
   * The validation message built from a non-empty `detail` array; None when an
   * item is null, because reading `.loc` or `.msg` of null throws.
   */
  function ValidationMessage(items: seq<Json>): (m: Option<string>)
    ensures m.None? <==> JNull in items
    ensures m.Some? ==> StartsWith(m.value, ValidationPrefix)
  {
    if JNull in items then None
    else Some(ValidationPrefix + JoinStrings(ItemTexts(items), "; "))
  }

  /** A single item is written alone after the prefix. */
  lemma ValidationMessageSingle(item: Json)
    requires item != JNull
    ensures ValidationMessage([item]) == Some(ValidationPrefix + ValidationItemText(item))
  {
    assert ItemTexts([item]) == [ValidationItemText(item)];
  }

  lemma ItemTextsConcat(a: seq<Json>, b: seq<Json>)
    requires JNull !in a && JNull !in b
    ensures JNull !in a + b && ItemTexts(a + b) == ItemTexts(a) + ItemTexts(b)
  {
    assert JNull !in a + b;
    assert forall i :: 0 <= i < |a + b| ==> (a + b)[i] == if i < |a| then a[i] else b[i - |a|];
  }

  lemma PrefixedJoinAppend(prefix: string, xs: seq<string>, ys: seq<string>, sep: string)
    requires xs != [] && ys != []
    ensures prefix + JoinStrings(xs + ys, sep) == (prefix + JoinStrings(xs, sep)) + sep + JoinStrings(ys, sep)
  {
    JoinAppend(xs, ys, sep);
    var jx, jy := JoinStrings(xs, sep), JoinStrings(ys, sep);
    assert prefix + (jx + sep + jy) == (prefix + jx) + sep + jy;
  }

  /** Items are written in order, separated by "; ". */
  lemma ValidationMessageConcat(a: seq<Json>, b: seq<Json>)
    requires a != [] && b != [] && JNull !in a && JNull !in b
    ensures ValidationMessage(a + b) == Some(ValidationMessage(a).value + "; " + JoinStrings(ItemTexts(b), "; "))
  {
    ItemTextsConcat(a, b);
    PrefixedJoinAppend(ValidationPrefix, ItemTexts(a), ItemTexts(b), "; ");
  }

  /** `data.detail` when it is a string. */
  function StringDetail(data: Json): Option<string>
  {
    if data.JObj? && "detail" in data.fields && data.fields["detail"].JStr?
    then Some(data.fields["detail"].s) else None
  }

  /** `data.detail` when it is a non-empty array (the validation-error shape). */
  function DetailItems(data: Json): Option<seq<Json>>
  {
    if data.JObj? && "detail" in data.fields && data.fields["detail"].JArr? && |data.fields["detail"].items| > 0
    then Some(data.fields["detail"].items) else None
  }

  /** `data.detail[0].msg` is truthy: the validation branch is taken. */
  predicate ValidationShaped(items: seq<Json>)
    requires |items| > 0 && items[0] != JNull
  {
    TruthyProp(Prop(items[0], "msg"))
  }

  /**
   * Reading a non-empty `detail` array throws: its first item is null, or the
   * validation branch is taken and a later item is null.
   */
  predicate ThrowsOnItems(items: seq<Json>)
    requires |items| > 0
  {
    items[0] == JNull || (ValidationShaped(items) && JNull in items)
  }

  /** The message for a body that carries no usable `detail`. */
  function BodyMessage(status: int, statusText: string, data: Json): (r: string)
    ensures data.JStr? && (LooksLikeHtml(data.s) || Utf16Length(data.s) > 300) ==>
      r == ServerErrorMessage(status, statusText, StringBodyFallback)
    ensures data.JStr? && !LooksLikeHtml(data.s) && Utf16Length(data.s) <= 300 ==> r == data.s
    ensures !data.JStr? ==> r == ServerErrorMessage(status, statusText, OtherBodyFallback)
  {
    match data
    case JStr(s) =>
      if LooksLikeHtml(s) || Utf16Length(s) > 300 then ServerErrorMessage(status, statusText, StringBodyFallback)
      else s
    case _ => ServerErrorMessage(status, statusText, OtherBodyFallback)
  }

  /**
   * The message for an HTTP error reply, by priority: 413, an empty body, a
   * string `detail`, a validation array, a string body, anything else. None
   * means the catch block itself throws (the first validation item is null, or
   * a later one is).
   */
  function HttpErrorMessage(status: int, statusText: string, data: Json): (m: Option<string>)
    ensures status == 413 ==> m == Some(PayloadTooLargeMessage)
    ensures status != 413 && !Truthy(data) ==> m == Some(ServerErrorMessage(status, statusText, NoBodyFallback))
    ensures status != 413 && StringDetail(data).Some? ==> m == StringDetail(data)
    ensures m.None? <==> status != 413 && DetailItems(data).Some? && ThrowsOnItems(DetailItems(data).value)
    ensures m == Some("") <==> status != 413 && StringDetail(data) == Some("")
  {
    if status == 413 then Some(PayloadTooLargeMessage)
    else if !Truthy(data) then Some(ServerErrorMessage(status, statusText, NoBodyFallback))
    else
      var detail := Prop(data, "detail");
      if detail.Some? && detail.value.JStr? then Some(detail.value.s)
      else if detail.Some? && detail.value.JArr? && |detail.value.items| > 0 then
        var items := detail.value.items;
        if items[0] == JNull then None
        else if ValidationShaped(items) then ValidationMessage(items)
        else Some(BodyMessage(status, statusText, data))
      else Some(BodyMessage(status, statusText, data))
  }

  /**
   * The later steps of the order: a validation array gives the validation
   * message; a non-empty string body is shown as it is unless it looks like an
   * HTML page or is over 300 UTF-16 units; any other body gives the generic
   * "could not process" server message.
   */
  lemma HttpErrorMessageBodies(status: int, statusText: string, data: Json)
    requires status != 413
    ensures (DetailItems(data).Some? && DetailItems(data).value[0] != JNull && ValidationShaped(DetailItems(data).value))
      ==> HttpErrorMessage(status, statusText, data) == ValidationMessage(DetailItems(data).value)
    ensures data.JStr? && data.s != "" ==>
      HttpErrorMessage(status, statusText, data) ==
        Some(if LooksLikeHtml(data.s) || Utf16Length(data.s) > 300
             then ServerErrorMessage(status, statusText, StringBodyFallback) else data.s)
    ensures (Truthy(data) && !data.JStr? && StringDetail(data).None? &&
             (DetailItems(data).None? || (DetailItems(data).value[0] != JNull && !ValidationShaped(DetailItems(data).value))))
      ==> HttpErrorMessage(status, statusText, data) == Some(ServerErrorMessage(status, statusText, OtherBodyFallback))
  {
    if data.JStr? {
      assert Prop(data, "detail") == None;
    }
  }

  /** A validation item for a missing field "x" of the request body. */
  const MissingFieldItem: Json := JObj(map["loc" := JArr([JStr("body"), JStr("x")]), "msg" := JStr("required")])

  lemma MissingFieldLocation()
    ensures LocPath(MissingFieldItem) == "x"
  {
    assert Prop(MissingFieldItem, "loc") == Some(JArr([JStr("body"), JStr("x")]));
    assert WithoutBody([JStr("body"), JStr("x")]) == [JStr("x")];
    assert JoinValues([JStr("x")], " -> ") == "x";
  }

  lemma MissingFieldItemText()
    ensures ValidationItemText(MissingFieldItem) == "x: required"
  {
    MissingFieldLocation();
    assert Prop(MissingFieldItem, "msg") == Some(JStr("required"));
  }

  /** The "body" segment is dropped: the reply reads "Ошибка валидации: x: required". */
  lemma ValidationExample(statusText: string)
    ensures HttpErrorMessage(422, statusText, JObj(map["detail" := JArr([MissingFieldItem])])) ==
      Some(ValidationPrefix + "x: required")
  {
    var data := JObj(map["detail" := JArr([MissingFieldItem])]);
    assert DetailItems(data) == Some([MissingFieldItem]);
    assert Prop(MissingFieldItem, "msg") == Some(JStr("required"));
    assert ValidationShaped([MissingFieldItem]);
    HttpErrorMessageBodies(422, statusText, data);
    ValidationMessageSingle(MissingFieldItem);
    MissingFieldItemText();
  }

  /** The message of the catch block for any failed request; None if it throws. */
  function FailureMessage(outcome: Outcome): (m: Option<string>)
    requires !outcome.Reply?
    ensures outcome.HttpError? ==> m == HttpErrorMessage(outcome.status, outcome.statusText, outcome.data)
    ensures outcome.NoResponse? ==> m == Some(ConnectivityMessage)
    ensures outcome.LocalError? && outcome.message != "" ==> m == Some(AppErrorPrefix + outcome.message)
    ensures outcome.LocalError? && outcome.message == "" ==> m == Some(DefaultFailureMessage)
  {
    match outcome
    case HttpError(status, statusText, data) => HttpErrorMessage(status, statusText, data)
    case NoResponse => Some(ConnectivityMessage)
    case LocalError(message) =>
      Some(if message != "" then AppErrorPrefix + message else DefaultFailureMessage)
  }

  /**
   * The two fields after the outcome has been handled, starting from `before`.
   * `submitted` is `acceptedFiles.length`.
   */
  function Complete(before: Settled, outcome: Outcome, submitted: nat): (after: Settled)
    requires outcome.Reply? ==> WellTypedReply(outcome.data)
    ensures !outcome.Reply? && FailureMessage(outcome).None? ==> after == before
    ensures !outcome.Reply? && FailureMessage(outcome).Some? ==> after == Settled([], FailureMessage(outcome))
    ensures outcome.Reply? && RepliedFiles(outcome.data).None? ==> after == Settled([], Some(UnexpectedFormatMessage))
    ensures outcome.Reply? && RepliedFiles(outcome.data).Some? ==>
      && after.responseData == ClassifyFiles(RepliedFiles(outcome.data).value)
      && (after.error == before.error || after.error == Some(AllFailedMessage) || after.error == Some(EmptyListMessage))
      && ((exists i :: 0 <= i < |after.responseData| && !after.responseData[i].isErrorFile) ==> after.error == before.error)
      && (after.responseData == [] && submitted == 0 ==> after.error == before.error)
      && ((after.responseData != [] && forall i :: 0 <= i < |after.responseData| ==> after.responseData[i].isErrorFile)
            ==> after.error == Some(AllFailedMessage))
      && (after.responseData == [] && submitted > 0 ==> after.error == Some(EmptyListMessage))
  {
    match outcome
    case Reply(data) =>
      (match RepliedFiles(data)
       case None => Settled([], Some(UnexpectedFormatMessage))
       case Some(files) =>
         var processed := ClassifyFiles(files);
         var hasSuccessfulFiles := exists i :: 0 <= i < |processed| && !processed[i].isErrorFile;
         if |processed| > 0 && !hasSuccessfulFiles then Settled(processed, Some(AllFailedMessage))
         else if |processed| == 0 && submitted > 0 then Settled(processed, Some(EmptyListMessage))
         else Settled(processed, before.error))
    case _ =>
      match FailureMessage(outcome)
      case None => before
      case Some(m) => Settled([], Some(m))
  }

  /**
   * The outcome of one upload of `submitted` files, from the cleared state
   * `handleFiles` starts from.
   */
  function Settle(outcome: Outcome, submitted: nat): (after: Settled)
    requires outcome.Reply? ==> WellTypedReply(outcome.data)
    requires submitted > 0
    ensures outcome.HttpError? ==> after == Settled([], HttpErrorMessage(outcome.status, outcome.statusText, outcome.data))
    ensures outcome.NoResponse? ==> after == Settled([], Some(ConnectivityMessage))
    ensures outcome.LocalError? ==>
      after == Settled([], Some(if outcome.message != "" then AppErrorPrefix + outcome.message else DefaultFailureMessage))
    ensures outcome.Reply? && RepliedFiles(outcome.data).None? ==>
      after == Settled([], Some(UnexpectedFormatMessage))
    ensures outcome.Reply? && RepliedFiles(outcome.data).Some? ==>
      && after.responseData == ClassifyFiles(RepliedFiles(outcome.data).value)
      && (after.error == Some(AllFailedMessage) <==>
            after.responseData != [] && forall i :: 0 <= i < |after.responseData| ==> after.responseData[i].isErrorFile)
      && (after.error == Some(EmptyListMessage) <==> after.responseData == [])
      && (after.error == None <==>
            exists i :: 0 <= i < |after.responseData| && !after.responseData[i].isErrorFile)
  {
    Complete(Cleared, outcome, submitted)
  }
}
