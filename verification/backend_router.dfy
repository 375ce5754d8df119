/**
 * The upload endpoint: each uploaded file is read and decoded as UTF-8; decoded
 * files are listed first, then a placeholder for each file that failed to
 * decode; any other error aborts the request with a 400.
 */
module UploadRouter {
  import opened Wrappers
  import opened JsonValue
  import opened HttpErrors

  /** The indentation the string's line continuation carries into the placeholder. */
  const ContinuationIndent: string := "                            "
  /** The content put in place of a file that is not valid UTF-8. */
  const Utf8FailureContent: string :=
    "File is not a valid UTF-8 encoded text file." + ContinuationIndent + "Will add this functionality later."

  /** The exception classes the handler tells apart; any other is OtherError. */
  datatype ExceptionClass = UnicodeDecodeError | ValueError | TypeError | RuntimeError | OtherError

  /** An exception raised while a file is read or decoded, with its `str(e)`. */
  datatype RaisedError = RaisedError(cls: ExceptionClass, text: string)

  /** What reading and decoding one file gives. */
  datatype ReadOutcome = Decoded(text: string) | Raised(err: RaisedError)

  datatype UploadFile = UploadFile(filename: string, outcome: ReadOutcome)

  /** One `{filename, content}` entry of the reply. */
  datatype Entry = Entry(filename: string, content: string)

  /** The except clauses, each named by the class it catches. */
  datatype Clause = ExceptUnicodeDecodeError | ExceptRuntimeError | ExceptValueError | ExceptTypeError | ExceptException

  /** The clauses in the order they are written. */
  const Clauses: seq<Clause> := [ExceptUnicodeDecodeError, ExceptRuntimeError, ExceptValueError, ExceptTypeError, ExceptException]

  /** `isinstance(e, clause's class)`: a UnicodeDecodeError is a ValueError, and everything is an Exception. */
  predicate Catches(clause: Clause, cls: ExceptionClass) {
    match clause
    case ExceptUnicodeDecodeError => cls == UnicodeDecodeError
    case ExceptRuntimeError => cls == RuntimeError
    case ExceptValueError => cls == ValueError || cls == UnicodeDecodeError
    case ExceptTypeError => cls == TypeError
    case ExceptException => true
  }

  /** The index of the first clause that catches `cls`, or |clauses| if none does. */
  function FirstCatching(clauses: seq<Clause>, cls: ExceptionClass): (k: nat)
    ensures k <= |clauses|
    ensures k < |clauses| ==> Catches(clauses[k], cls)
    ensures forall j :: 0 <= j < k ==> !Catches(clauses[j], cls)
  {
    if clauses == [] then 0
    else if Catches(clauses[0], cls) then 0
    else 1 + FirstCatching(clauses[1..], cls)
  }

  /** The clause Python runs for an exception of class `cls`. */
  function HandlingClause(cls: ExceptionClass): (c: Clause)
    ensures Catches(c, cls)
    ensures c == Clauses[FirstCatching(Clauses, cls)]
  {
    var k := FirstCatching(Clauses, cls);
    assert Catches(Clauses[4], cls);
    Clauses[k]
  }

  /**
   * A UnicodeDecodeError is also a ValueError, but the clause written first
   * takes it; every other class goes to its own clause.
   */
  lemma ClauseOrder()
    ensures Catches(ExceptValueError, UnicodeDecodeError)
    ensures HandlingClause(UnicodeDecodeError) == ExceptUnicodeDecodeError
    ensures HandlingClause(RuntimeError) == ExceptRuntimeError
    ensures HandlingClause(ValueError) == ExceptValueError
    ensures HandlingClause(TypeError) == ExceptTypeError
    ensures HandlingClause(OtherError) == ExceptException
  {
  }

  /** What one loop iteration does with a file. */
  datatype Step = Append(entry: Entry) | Defer(entry: Entry) | Drop | Abort(exc: HttpException)

  /** A compiled-Python name, whose decode failures are not reported. */
  predicate IsBytecodeName(filename: string) {
    EndsWith(filename, ".pyc") || EndsWith(filename, ".pyo")
  }

  /** The body of the try statement and its except clauses, for one file. */
  function FileStep(f: UploadFile): (s: Step)
    ensures s.Append? <==> f.outcome.Decoded?
    ensures s.Append? ==> s.entry == Entry(f.filename, f.outcome.text)
    ensures s.Defer? <==> f.outcome.Raised? && f.outcome.err.cls == UnicodeDecodeError && !IsBytecodeName(f.filename)
    ensures s.Defer? ==> s.entry == Entry(f.filename, Utf8FailureContent)
    ensures s.Drop? <==> f.outcome.Raised? && f.outcome.err.cls == UnicodeDecodeError && IsBytecodeName(f.filename)
    ensures s.Abort? ==> s.exc.statusCode == 400
  {
    match f.outcome
    case Decoded(text) => Append(Entry(f.filename, text))
    case Raised(err) =>
      match HandlingClause(err.cls)
      case ExceptUnicodeDecodeError =>
        if !EndsWith(f.filename, ".pyc") && !EndsWith(f.filename, ".pyo")
        then Defer(Entry(f.filename, Utf8FailureContent))
        else Drop
      case ExceptRuntimeError =>
        Abort(BadRequestError("File " + f.filename + " is too large to process."))
      case ExceptValueError =>
        Abort(BadRequestError("File " + f.filename + " is not a valid text file."))
      case ExceptTypeError =>
        Abort(BadRequestError("File " + f.filename + " is not a valid text file."))
      case ExceptException =>
        Abort(BadRequestError("Failed to process file " + f.filename + ": " + err.text))
  }

  /** The detail of the 400 a file aborts the request with, by exception class. */
  lemma AbortDetails(f: UploadFile)
    ensures FileStep(f).Abort? <==> f.outcome.Raised? && f.outcome.err.cls != UnicodeDecodeError
    ensures f.outcome.Raised? && f.outcome.err.cls == RuntimeError ==>
      FileStep(f) == Abort(HttpException(400, "File " + f.filename + " is too large to process."))
    ensures f.outcome.Raised? && f.outcome.err.cls in {ValueError, TypeError} ==>
      FileStep(f) == Abort(HttpException(400, "File " + f.filename + " is not a valid text file."))
    ensures f.outcome.Raised? && f.outcome.err.cls == OtherError ==>
      FileStep(f) == Abort(HttpException(400, "Failed to process file " + f.filename + ": " + f.outcome.err.text))
  {
    ClauseOrder();
  }

  /** The decoded entries of `files`, in input order. */
  function Appended(files: seq<UploadFile>): seq<Entry>
  {
    if files == [] then []
    else
      var last := files[|files| - 1];
      Appended(files[..|files| - 1]) + (if FileStep(last).Append? then [FileStep(last).entry] else [])
  }

  /** The placeholder entries of `files`, in input order. */
  function Deferred(files: seq<UploadFile>): seq<Entry>
  {
    if files == [] then []
    else
      var last := files[|files| - 1];
      Deferred(files[..|files| - 1]) + (if FileStep(last).Defer? then [FileStep(last).entry] else [])
  }

  /** How many files are dropped silently. */
  function DroppedCount(files: seq<UploadFile>): nat
  {
    if files == [] then 0
    else DroppedCount(files[..|files| - 1]) + (if FileStep(files[|files| - 1]).Drop? then 1 else 0)
  }

  /** The exception of the first file that aborts the request, if any. */
  function FirstAbort(files: seq<UploadFile>): Option<HttpException>
  {
    if files == [] then None
    else
      var last := files[|files| - 1];
      if FirstAbort(files[..|files| - 1]).Some? then FirstAbort(files[..|files| - 1])
      else if FileStep(last).Abort? then Some(FileStep(last).exc)
      else None
  }

  /** The request is aborted exactly when some file aborts it. */
  lemma {:induction false} FirstAbortNoneIff(files: seq<UploadFile>)
    ensures FirstAbort(files).None? <==> forall i :: 0 <= i < |files| ==> !FileStep(files[i]).Abort?
  {
    if files != [] {
      var init := files[..|files| - 1];
      FirstAbortNoneIff(init);
      assert forall i :: 0 <= i < |init| ==> init[i] == files[i];
    }
  }

  /** When the request is aborted, it is with the exception of the first file that aborts it. */
  lemma {:induction false} FirstAbortIsFirst(files: seq<UploadFile>)
    ensures FirstAbort(files).Some? ==>
      exists i :: 0 <= i < |files| && FileStep(files[i]) == Abort(FirstAbort(files).value) &&
                  (forall j :: 0 <= j < i ==> !FileStep(files[j]).Abort?)
  {
    if files != [] {
      var init := files[..|files| - 1];
      FirstAbortIsFirst(init);
      FirstAbortNoneIff(init);
      assert forall i :: 0 <= i < |init| ==> init[i] == files[i];
      if FirstAbort(init).Some? {
        var i :| 0 <= i < |init| && FileStep(init[i]) == Abort(FirstAbort(init).value) &&
                 (forall j :: 0 <= j < i ==> !FileStep(init[j]).Abort?);
        assert FileStep(files[i]) == Abort(FirstAbort(files).value);
      } else if FileStep(files[|files| - 1]).Abort? {
        assert FileStep(files[|init|]) == Abort(FirstAbort(files).value);
      }
    }
  }

  /** The JSON of one entry. */
  function EntryJson(e: Entry): Json
  {
    JObj(map["filename" := JStr(e.filename), "content" := JStr(e.content)])
  }

  /** `{"files": entries}`. */
  function FilesBody(entries: seq<Entry>): Json
  {
    JObj(map["files" := JArr(seq(|entries|, i requires 0 <= i < |entries| => EntryJson(entries[i])))])
  }

  /** The last file of `a + b` is the last of `b`, and what precedes it is `a` and the rest of `b`. */
  lemma ConcatLast(a: seq<UploadFile>, b: seq<UploadFile>)
    requires b != []
    ensures (a + b)[..|a + b| - 1] == a + b[..|b| - 1]
    ensures (a + b)[|a + b| - 1] == b[|b| - 1]
  {
  }

  /** The three outcomes are computed file by file, so they split over concatenation. */
  lemma {:induction false} AppendedConcat(a: seq<UploadFile>, b: seq<UploadFile>)
    ensures Appended(a + b) == Appended(a) + Appended(b)
    decreases |b|
  {
    if b != [] {
      ConcatLast(a, b);
      AppendedConcat(a, b[..|b| - 1]);
    } else {
      assert a + b == a;
    }
  }

  lemma {:induction false} DeferredConcat(a: seq<UploadFile>, b: seq<UploadFile>)
    ensures Deferred(a + b) == Deferred(a) + Deferred(b)
    decreases |b|
  {
    if b != [] {
      ConcatLast(a, b);
      DeferredConcat(a, b[..|b| - 1]);
    } else {
      assert a + b == a;
    }
  }

  lemma {:induction false} DroppedCountConcat(a: seq<UploadFile>, b: seq<UploadFile>)
    ensures DroppedCount(a + b) == DroppedCount(a) + DroppedCount(b)
    decreases |b|
  {
    if b != [] {
      ConcatLast(a, b);
      DroppedCountConcat(a, b[..|b| - 1]);
    } else {
      assert a + b == a;
    }
  }

  /**
   * The `upload_files` endpoint: the reply for the files, or the exception that
   * aborts the request (no partial list is returned).
   */
  method UploadFiles(files: seq<UploadFile>) returns (r: Result<Response, HttpException>)
    ensures r.Err? <==> FirstAbort(files).Some?
    ensures r.Err? ==> r.error == FirstAbort(files).value
    ensures r.Ok? ==> r.value == Response(200, FilesBody(Appended(files) + Deferred(files)))
  {
    var result: seq<Entry> := [];
    var failedResult: seq<Entry> := [];
    for i := 0 to |files|
      invariant result == Appended(files[..i])
      invariant failedResult == Deferred(files[..i])
      invariant FirstAbort(files[..i]).None?
    {
      PrefixStep(files, i);
      match FileStep(files[i]) {
        case Append(entry) =>
          result := result + [entry];
        case Defer(entry) =>
          failedResult := failedResult + [entry];
        case Drop =>
        case Abort(exc) =>
          FirstAbortOfPrefix(files, i + 1);
          return Err(exc);
      }
    }
    assert files[..|files|] == files;
    result := result + failedResult;
    return Ok(Response(200, FilesBody(result)));
  }

  /** What one more file adds to the outcomes of a prefix. */
  lemma PrefixStep(files: seq<UploadFile>, i: nat)
    requires i < |files|
    ensures var step := FileStep(files[i]);
      && Appended(files[..i + 1]) == Appended(files[..i]) + (if step.Append? then [step.entry] else [])
      && Deferred(files[..i + 1]) == Deferred(files[..i]) + (if step.Defer? then [step.entry] else [])
      && FirstAbort(files[..i + 1]) ==
           (if FirstAbort(files[..i]).Some? then FirstAbort(files[..i]) else if step.Abort? then Some(step.exc) else None)
  {
    assert files[..i + 1][..i] == files[..i];
  }

  /** Once a prefix of the files aborts, the whole request aborts with the same exception. */
  lemma {:induction false} FirstAbortOfPrefix(files: seq<UploadFile>, n: nat)
    requires n <= |files|
    requires FirstAbort(files[..n]).Some?
    ensures FirstAbort(files) == FirstAbort(files[..n])
    decreases |files|
  {
    if n < |files| {
      var init := files[..|files| - 1];
      assert init[..n] == files[..n];
      FirstAbortOfPrefix(init, n);
    } else {
      assert files[..n] == files;
    }
  }

  /** The first abort of `a + b` is that of `a`, or else that of `b`. */
  lemma {:induction false} FirstAbortConcat(a: seq<UploadFile>, b: seq<UploadFile>)
    ensures FirstAbort(a + b) == if FirstAbort(a).Some? then FirstAbort(a) else FirstAbort(b)
    decreases |b|
  {
    if b != [] {
      ConcatLast(a, b);
      FirstAbortConcat(a, b[..|b| - 1]);
    } else {
      assert a + b == a;
    }
  }

  /**
   * Without an abort, every file but the dropped bytecode files gives one
   * entry: decoded ones first, then placeholders.
   */
  lemma {:induction false} PartitionLength(files: seq<UploadFile>)
    requires FirstAbort(files).None?
    ensures |Appended(files) + Deferred(files)| == |files| - DroppedCount(files)
  {
    if files != [] {
      var init := files[..|files| - 1];
      assert forall i :: 0 <= i < |init| ==> init[i] == files[i];
      PartitionLength(init);
    }
  }

  /** A file that fails to decode never aborts the request. */
  lemma DecodeFailureNeverAborts(f: UploadFile)
    requires f.outcome.Raised? && f.outcome.err.cls == UnicodeDecodeError
    ensures FileStep(f) == (if IsBytecodeName(f.filename) then Drop else Defer(Entry(f.filename, Utf8FailureContent)))
  {
  }
}
