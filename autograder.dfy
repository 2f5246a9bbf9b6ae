/** autograder.py: the per-file pipeline (stage the upload in a temp file, extract its text,
    grade it, store the result, remove the temp file) and the batch step that classifies
    the per-file outcomes and writes the submission status.

    Every external call (Mistral, PyPDF2, DeepSeek, Supabase, the file system write) is a
    given outcome carried by the upload, in `Calls`. `asyncio.gather(..., return_exceptions=True)`
    is the sequence of per-file outcomes in upload order; the pipelines are run one after
    the other. */
module Autograder {
  import opened Wrappers
  import opened Json
  import opened Text
  import opened Grading

  newtype byte = x: int | 0 <= x < 256

  /** The outcome of each external call the pipeline may make for one upload. */
  datatype Calls = Calls(
    saved: bool,                        // `file_data.save(temp_path)` returned
    mistral: Option<(string, string)>,  // Mistral OCR text and document-understanding reply; None: a Mistral call raised
    pdfPages: Option<seq<string>>,      // PyPDF2's extracted text, page by page; None: the fallback raised
    text: Option<string>,               // the staged file read as text; None: reading raised
    understood: Option<string>,         // the reply of `process_with_mistral`; None: it raised
    reply: Option<string>,              // the DeepSeek message content; None: the call raised
    stored: bool)                       // the Supabase insert returned without error

  /** An uploaded file: its client-side name, its bytes, and what its calls give. */
  datatype Upload = Upload(filename: string, data: seq<byte>, calls: Calls)

  /** The pipeline's fixed collaborators: the temp directory, `secure_filename`, `json.loads`
      and the parse of numeric text behind `float()`. */
  datatype Env = Env(tempDir: string, sanitize: string -> string, loads: string -> Option<Json>,
                     toFloat: string -> Option<real>)

  /** What `grade_file` stores as `file_content`. */
  datatype FileContent = Base64Of(data: seq<byte>) | RawBytes(data: seq<byte>)

  /** A row of `submission_results`. */
  datatype Record = Record(submissionId: string, fileName: string, content: FileContent, grading: GradingResult)

  /** `{"fileName": ..., **grading_result}`. */
  datatype FileResult = FileResult(fileName: string, grading: GradingResult)

  /** The exception that ends a pipeline. */
  datatype PipelineError =
    | SaveFailed
    | PdfUnreadable        // both Mistral and the PyPDF2 fallback raised
    | TextUnreadable
    | UnderstandingFailed  // `process_with_mistral` re-raises
    | GradingCallFailed
    | MalformedJson        // `json.loads` of the DeepSeek reply raised
    | NotNormalized(e: NormError)
    | StorageFailed

  /** What `gather` reports for one file: None, a result, or an exception. */
  datatype FileOutcome = NoFile | Done(result: FileResult) | Raised(error: PipelineError)

  /** The values `process_submission` writes to `submissions.status`. */
  datatype Status = Completed | Failed

  /** `process_submission` returns the results, or raises "All file processing failed". */
  datatype SubmissionOutcome = Returned(results: seq<FileResult>) | AllFilesFailed

  // ---------------------------------------------------------------- temp file name

  /** `save_temp_file`'s path: the temp directory joined with "temp_" and the sanitized name.
      No suffix is added when the path is already taken. */
  function TempPath(env: Env, filename: string): string {
    Join(env.tempDir, "temp_" + env.sanitize(filename))
  }

  /** Two uploads share a temp path exactly when their sanitized names agree; in
      particular two uploads with the same filename share one. */
  lemma TempPathCollides(env: Env, a: string, b: string)
    ensures TempPath(env, a) == TempPath(env, b) <==> env.sanitize(a) == env.sanitize(b)
  {
    var x, y := "temp_" + env.sanitize(a), "temp_" + env.sanitize(b);
    JoinInjective(env.tempDir, x, y);
    if x == y {
      assert env.sanitize(a) == x[5..] && env.sanitize(b) == y[5..];
    }
  }

  /** `path.endswith('.pdf')`. */
  predicate IsPdf(path: string) {
    EndsWith(path, ".pdf")
  }

  /** The temp path counts as a PDF exactly when the sanitized upload name ends in ".pdf". */
  lemma PdfByUploadName(env: Env, filename: string)
    ensures IsPdf(TempPath(env, filename)) <==> EndsWith(env.sanitize(filename), ".pdf")
  {
    var s := env.sanitize(filename);
    var n := "temp_" + s;
    var p := TempPath(env, filename);
    assert EndsWith(p, n) by {
      assert p[|p| - |n|..] == n;
    }
    if |s| >= 4 {
      assert p[|p| - 4..] == n[|n| - 4..] == s[|s| - 4..];
    } else {
      assert p[|p| - 4] == n[|n| - 4] != '.';
      assert p[|p| - 4..][0] == p[|p| - 4];
    }
  }

  // ---------------------------------------------------------------- PDF text

  /** The PyPDF2 fallback text: each page's text followed by a newline, in page order. */
  function PdfFallbackText(pages: seq<string>): string {
    if pages == [] then "" else PdfFallbackText(pages[..|pages| - 1]) + pages[|pages| - 1] + "\n"
  }

  /** The fallback text of a run of pages is the fallback text of its parts, one after the
      other. */
  lemma {:induction false} PdfFallbackTextAppend(a: seq<string>, b: seq<string>)
    ensures PdfFallbackText(a + b) == PdfFallbackText(a) + PdfFallbackText(b)
  {
    if b != [] {
      var b' := b[..|b| - 1];
      assert (a + b)[..|a + b| - 1] == a + b';
      PdfFallbackTextAppend(a, b');
    } else {
      assert a + b == a;
    }
  }

  /** Page `k`'s text, and then one newline, stands between the text of the pages before it
      and the text of the pages after it. */
  lemma PdfPageInPlace(pages: seq<string>, k: nat)
    requires k < |pages|
    ensures PdfFallbackText(pages)
            == PdfFallbackText(pages[..k]) + pages[k] + "\n" + PdfFallbackText(pages[k + 1..])
  {
    PdfSplit(pages, k + 1);
    PdfLastPage(pages, k);
  }

  lemma PdfSplit(pages: seq<string>, j: nat)
    requires j <= |pages|
    ensures PdfFallbackText(pages) == PdfFallbackText(pages[..j]) + PdfFallbackText(pages[j..])
  {
    assert pages == pages[..j] + pages[j..];
    PdfFallbackTextAppend(pages[..j], pages[j..]);
  }

  lemma PdfLastPage(pages: seq<string>, k: nat)
    requires k < |pages|
    ensures PdfFallbackText(pages[..k + 1]) == PdfFallbackText(pages[..k]) + pages[k] + "\n"
  {
    assert pages[..k + 1][..k] == pages[..k];
  }

  lemma PdfOnePage(p: string)
    ensures PdfFallbackText([p]) == p + "\n"
  {
    assert [p][..0] == [];
  }

  /** The `text_content +=` loop of the PyPDF2 fallback. */
  method FallbackText(pages: seq<string>) returns (text: string)
    ensures text == PdfFallbackText(pages)
  {
    text := "";
    for i := 0 to |pages|
      invariant text == PdfFallbackText(pages[..i])
    {
      assert pages[..i + 1][..i] == pages[..i];
      text := text + pages[i] + "\n";
    }
    assert pages[..|pages|] == pages;
  }

  /** `process_pdf_with_mistral`: the OCR text and the understanding reply separated by a
      blank line; when any Mistral call raises, the PyPDF2 text; when that raises too, the
      exception propagates. */
  function PdfText(calls: Calls): Result<string, PipelineError> {
    match calls.mistral
    case Some((ocr, chat)) => Ok(ocr + "\n\n" + chat)
    case None =>
      match calls.pdfPages
      case Some(pages) => Ok(PdfFallbackText(pages))
      case None => Err(PdfUnreadable)
  }

  method ProcessPdfWithMistral(calls: Calls) returns (r: Result<string, PipelineError>)
    ensures r == PdfText(calls)
  {
    if calls.mistral.Some? {
      var (ocr, chat) := calls.mistral.value;
      return Ok(ocr + "\n\n" + chat);
    }
    if calls.pdfPages.None? {
      return Err(PdfUnreadable);
    }
    var text := FallbackText(calls.pdfPages.value);
    return Ok(text);
  }

  /** The content `grade_file` grades: the PDF route for a ".pdf" path, otherwise the text
      read from the file and passed through `process_with_mistral`, whose failure
      propagates (no fall back to the raw text). */
  function Content(path: string, calls: Calls): Result<string, PipelineError> {
    if IsPdf(path) then PdfText(calls)
    else if calls.text.None? then Err(TextUnreadable)
    else if calls.understood.None? then Err(UnderstandingFailed)
    else Ok(calls.understood.value)
  }

  // ---------------------------------------------------------------- grading one file

  /** `grade_with_deepseek`: the whole reply is decoded (no tag or brace search) and
      normalized as `_validate_result` does; every failure propagates. */
  function GradeWithDeepSeek(reply: Option<string>, env: Env): Result<GradingResult, PipelineError> {
    match reply
    case None => Err(GradingCallFailed)
    case Some(c) =>
      match env.loads(c)
      case None => Err(MalformedJson)
      case Some(v) =>
        match Validate(v, env.toFloat)
        case Err(e) => Err(NotNormalized(e))
        case Ok(g) => Ok(g)
  }

  /** Extraction, then grading. */
  function GradingOf(path: string, calls: Calls, env: Env): Result<GradingResult, PipelineError> {
    match Content(path, calls)
    case Err(e) => Err(e)
    case Ok(_) => GradeWithDeepSeek(calls.reply, env)
  }

  /** The row `store_grading_result` inserts: the name is the base name of the temp path and
      a PDF's bytes are stored base64-encoded. */
  function RecordOf(path: string, u: Upload, submissionId: string, g: GradingResult): Record {
    Record(submissionId, Basename(path), if IsPdf(path) then Base64Of(u.data) else RawBytes(u.data), g)
  }

  /** `grade_file`'s result: the grading under the temp file's base name, once stored. */
  function GradeFileResult(path: string, u: Upload, env: Env): Result<FileResult, PipelineError> {
    match GradingOf(path, u.calls, env)
    case Err(e) => Err(e)
    case Ok(g) => if u.calls.stored then Ok(FileResult(Basename(path), g)) else Err(StorageFailed)
  }

  /** An upload whose pipeline creates a temp file. */
  predicate Staged(u: Upload) {
    u.filename != "" && u.calls.saved
  }

  /** `process_single_file`'s outcome: None for an empty filename, otherwise `grade_file`'s
      result under the upload's own filename, or the exception that ended the pipeline. */
  function Pipeline(u: Upload, env: Env): FileOutcome {
    if u.filename == "" then NoFile
    else if !u.calls.saved then Raised(SaveFailed)
    else
      match GradeFileResult(TempPath(env, u.filename), u, env)
      case Err(e) => Raised(e)
      case Ok(r) => Done(FileResult(u.filename, r.grading))
  }

  /** The rows one pipeline adds to `submission_results`. */
  function PipelineRecords(u: Upload, env: Env, submissionId: string): seq<Record> {
    if !Staged(u) then []
    else
      var path := TempPath(env, u.filename);
      match GradingOf(path, u.calls, env)
      case Err(_) => []
      case Ok(g) => if u.calls.stored then [RecordOf(path, u, submissionId, g)] else []
  }

  /** A stored row holds a PDF's bytes base64-encoded and any other file's bytes as read. */
  lemma RecordContent(u: Upload, env: Env, submissionId: string)
    requires PipelineRecords(u, env, submissionId) != []
    ensures PipelineRecords(u, env, submissionId)[0].content
            == if IsPdf(TempPath(env, u.filename)) then Base64Of(u.data) else RawBytes(u.data)
  {
  }

  /** A result is returned exactly when its row was stored, and the row holds the same
      grading. */
  lemma RecordIffDone(u: Upload, env: Env, submissionId: string)
    ensures |PipelineRecords(u, env, submissionId)| == (if Pipeline(u, env).Done? then 1 else 0)
    ensures Pipeline(u, env).Done? ==>
              PipelineRecords(u, env, submissionId)[0].grading == Pipeline(u, env).result.grading
  {
  }

  /** A returned result went through every stage: it was saved, graded from a reply that
      decoded and normalized (its grading is that normalization, with every key filled in),
      and stored; it carries the upload's own filename. */
  lemma DoneMeansEveryStageSucceeded(u: Upload, env: Env)
    requires Pipeline(u, env).Done?
    ensures Pipeline(u, env).result.fileName == u.filename
    ensures u.filename != "" && u.calls.saved && u.calls.stored
    ensures Content(TempPath(env, u.filename), u.calls).Ok?
    ensures u.calls.reply.Some? && env.loads(u.calls.reply.value).Some?
    ensures Validate(env.loads(u.calls.reply.value).value, env.toFloat) == Ok(Pipeline(u, env).result.grading)
  {
  }

  /** autograder.py has no degraded results: a failed understanding pass on the text route,
      a reply that does not decode, a failed insert, or a PDF that neither Mistral nor
      PyPDF2 can read each ends the pipeline with an exception. */
  lemma FailuresPropagate(u: Upload, env: Env)
    requires u.filename != ""
    ensures !IsPdf(TempPath(env, u.filename)) && u.calls.understood.None? ==> Pipeline(u, env).Raised?
    ensures u.calls.reply.Some? && env.loads(u.calls.reply.value).None? ==> Pipeline(u, env).Raised?
    ensures !u.calls.stored ==> Pipeline(u, env).Raised?
    ensures IsPdf(TempPath(env, u.filename)) && u.calls.mistral.None? && u.calls.pdfPages.None? ==>
              Pipeline(u, env).Raised?
  {
  }

  /** The stored row is named after the temp file, "temp_" and the sanitized name, while the
      returned result carries the upload's filename. */
  lemma StoredNameIsTempName(u: Upload, env: Env, submissionId: string)
    requires '/' !in env.sanitize(u.filename)
    requires PipelineRecords(u, env, submissionId) != []
    ensures PipelineRecords(u, env, submissionId)[0].fileName == "temp_" + env.sanitize(u.filename)
  {
    BasenameOfJoin(env.tempDir, "temp_" + env.sanitize(u.filename));
  }

  // ---------------------------------------------------------------- the batch

  /** `asyncio.gather`'s list: one outcome per upload, in upload order. */
  function Gathered(us: seq<Upload>, env: Env): (os: seq<FileOutcome>)
    ensures |os| == |us|
    ensures forall k :: 0 <= k < |us| ==> os[k] == Pipeline(us[k], env)
  {
    if us == [] then [] else Gathered(us[..|us| - 1], env) + [Pipeline(us[|us| - 1], env)]
  }

  /** The temp paths the pipelines of a batch create. */
  function StagedPaths(us: seq<Upload>, env: Env): set<string> {
    set u | u in us && Staged(u) :: TempPath(env, u.filename)
  }

  /** The rows the pipelines of a batch store, in upload order. */
  function AllRecords(us: seq<Upload>, env: Env, submissionId: string): seq<Record> {
    if us == [] then []
    else AllRecords(us[..|us| - 1], env, submissionId) + PipelineRecords(us[|us| - 1], env, submissionId)
  }

  /** `valid_results`: the results of the outcomes that are neither None nor an exception,
      in order. */
  function Successes(os: seq<FileOutcome>): seq<FileResult> {
    if os == [] then []
    else Successes(os[..|os| - 1]) + (if os[|os| - 1].Done? then [os[|os| - 1].result] else [])
  }

  /** `has_errors`. */
  predicate AnyRaised(os: seq<FileOutcome>) {
    exists k :: 0 <= k < |os| && os[k].Raised?
  }

  /** What `process_submission` returns or raises. */
  function Outcome(os: seq<FileOutcome>): SubmissionOutcome {
    if AnyRaised(os) && Successes(os) == [] then AllFilesFailed else Returned(Successes(os))
  }

  /** The status writes, in order: "failed" once when some pipeline raised and some
      succeeded, "failed" twice when none succeeded (once more by the outer handler), and
      "completed" when none raised. */
  function StatusWrites(os: seq<FileOutcome>): seq<Status> {
    if !AnyRaised(os) then [Completed]
    else if Successes(os) == [] then [Failed, Failed]
    else [Failed]
  }

  /** The status writes of one submission, as rows of (submission id, status). */
  function Tagged(submissionId: string, ss: seq<Status>): seq<(string, Status)> {
    if ss == [] then [] else [(submissionId, ss[0])] + Tagged(submissionId, ss[1..])
  }

  /** The filter keeps order: the successes of a concatenation are the successes of its
      parts, one after the other. */
  lemma {:induction false} SuccessesAppend(a: seq<FileOutcome>, b: seq<FileOutcome>)
    ensures Successes(a + b) == Successes(a) + Successes(b)
  {
    if b != [] {
      var b' := b[..|b| - 1];
      assert (a + b)[..|a + b| - 1] == a + b';
      SuccessesAppend(a, b');
    } else {
      assert a + b == a;
    }
  }

  /** One success per result returned, and none from a None or an exception. */
  lemma SuccessOfOne(o: FileOutcome)
    ensures Successes([o]) == if o.Done? then [o.result] else []
  {
    assert [o][..0] == [];
  }

  /** The indices of the outcomes that are results. */
  function DoneIndices(os: seq<FileOutcome>): set<int> {
    set k | 0 <= k < |os| && os[k].Done?
  }

  /** As many results are returned as there are pipelines that returned one. */
  lemma {:induction false} SuccessesCount(os: seq<FileOutcome>)
    ensures |Successes(os)| == |DoneIndices(os)|
  {
    if os != [] {
      var n := |os| - 1;
      var init := os[..n];
      SuccessesCount(init);
      if os[n].Done? {
        assert DoneIndices(os) == DoneIndices(init) + {n};
      } else {
        assert DoneIndices(os) == DoneIndices(init);
      }
    }
  }

  /** No result is returned exactly when no pipeline returned one. */
  lemma {:induction false} SuccessesEmpty(os: seq<FileOutcome>)
    ensures Successes(os) == [] <==> forall k :: 0 <= k < |os| ==> !os[k].Done?
  {
    if os != [] {
      var n := |os| - 1;
      SuccessesEmpty(os[..n]);
      assert forall k :: 0 <= k < n ==> os[..n][k] == os[k];
    }
  }

  /** The returned count: the uploads with a filename whose pipeline did not raise. */
  lemma ResultCount(us: seq<Upload>, env: Env)
    ensures |Successes(Gathered(us, env))|
            == |set k | 0 <= k < |us| && us[k].filename != "" && !Pipeline(us[k], env).Raised?|
  {
    var os := Gathered(us, env);
    SuccessesCount(os);
    assert DoneIndices(os) == set k | 0 <= k < |us| && us[k].filename != "" && !Pipeline(us[k], env).Raised?;
  }

  /** "completed" is written exactly when no pipeline raised; otherwise only "failed" is
      written, even when other pipelines succeeded. */
  lemma StatusCompletedIff(os: seq<FileOutcome>)
    ensures StatusWrites(os) == [Completed] <==> !AnyRaised(os)
    ensures AnyRaised(os) ==> forall k :: 0 <= k < |StatusWrites(os)| ==> StatusWrites(os)[k] == Failed
    ensures AnyRaised(os) ==> StatusWrites(os) != [] && StatusWrites(os)[|StatusWrites(os)| - 1] == Failed
  {
  }

  /** A mixed batch, where some pipeline raised and some returned a result, writes "failed"
      once and still returns the results. */
  lemma MixedBatchReturns(os: seq<FileOutcome>)
    requires AnyRaised(os) && exists k :: 0 <= k < |os| && os[k].Done?
    ensures Outcome(os) == Returned(Successes(os)) && StatusWrites(os) == [Failed]
  {
    SuccessesEmpty(os);
  }

  /** The batch returns exactly when nothing raised or something returned a result, and then
      it returns every result, in order. */
  lemma OutcomeReturns(os: seq<FileOutcome>)
    ensures Outcome(os).Returned? <==> (!AnyRaised(os) || exists k :: 0 <= k < |os| && os[k].Done?)
    ensures Outcome(os).Returned? ==> Outcome(os).results == Successes(os)
  {
    SuccessesEmpty(os);
  }

  /** A returned batch holds one result per upload with a filename whose pipeline did not
      raise. */
  lemma ReturnedCount(us: seq<Upload>, env: Env)
    requires Outcome(Gathered(us, env)).Returned?
    ensures |Outcome(Gathered(us, env)).results|
            == |set k | 0 <= k < |us| && us[k].filename != "" && !Pipeline(us[k], env).Raised?|
  {
    ResultCount(us, env);
  }

  /** When some pipeline raised and none returned a result, the batch raises and "failed" is
      written twice. */
  lemma AllFailedRaises(os: seq<FileOutcome>)
    requires AnyRaised(os)
    requires forall k :: 0 <= k < |os| ==> !os[k].Done?
    ensures Outcome(os) == AllFilesFailed && StatusWrites(os) == [Failed, Failed]
  {
    SuccessesEmpty(os);
  }

  /** A batch whose uploads all have empty filenames returns no results and is "completed". */
  lemma EmptyNamesComplete(us: seq<Upload>, env: Env)
    requires forall k :: 0 <= k < |us| ==> us[k].filename == ""
    ensures Outcome(Gathered(us, env)) == Returned([])
    ensures StatusWrites(Gathered(us, env)) == [Completed]
  {
    SuccessesEmpty(Gathered(us, env));
  }

  /** The stored rows and the returned results correspond one to one, in order, with the
      same gradings. */
  lemma {:induction false} RecordsMatchResults(us: seq<Upload>, env: Env, submissionId: string)
    ensures |AllRecords(us, env, submissionId)| == |Successes(Gathered(us, env))|
    ensures forall j :: 0 <= j < |AllRecords(us, env, submissionId)| ==>
              AllRecords(us, env, submissionId)[j].grading == Successes(Gathered(us, env))[j].grading
  {
    if us != [] {
      var n := |us| - 1;
      RecordsMatchResults(us[..n], env, submissionId);
      assert Gathered(us, env) == Gathered(us[..n], env) + [Pipeline(us[n], env)];
      SuccessesAppend(Gathered(us[..n], env), [Pipeline(us[n], env)]);
      SuccessOfOne(Pipeline(us[n], env));
      RecordIffDone(us[n], env, submissionId);
    }
  }

  /** One more upload adds its outcome at the end. */
  lemma GatheredStep(us: seq<Upload>, i: nat, env: Env)
    requires i < |us|
    ensures Gathered(us[..i + 1], env) == Gathered(us[..i], env) + [Pipeline(us[i], env)]
  {
    assert us[..i + 1][..i] == us[..i];
  }

  /** One more upload adds its temp path, if it is staged; `live` stands for the temp files
      there were before the batch. */
  lemma StagedStep(us: seq<Upload>, i: nat, env: Env, live: set<string>)
    requires i < |us|
    ensures live - StagedPaths(us[..i + 1], env)
            == (live - StagedPaths(us[..i], env)) - (if Staged(us[i]) then {TempPath(env, us[i].filename)} else {})
  {
    assert us[..i + 1] == us[..i] + [us[i]];
  }

  /** One more upload adds its rows at the end; `rows` stands for the rows there were before
      the batch. */
  lemma RecordsStep(us: seq<Upload>, i: nat, env: Env, submissionId: string, rows: seq<Record>)
    requires i < |us|
    ensures rows + AllRecords(us[..i + 1], env, submissionId)
            == (rows + AllRecords(us[..i], env, submissionId)) + PipelineRecords(us[i], env, submissionId)
  {
    assert us[..i + 1][..i] == us[..i];
  }

  // ---------------------------------------------------------------- state

  /** The files present in the temp directory. */
  class TempFiles {
    var live: set<string>

    constructor ()
      ensures live == {}
    {
      live := {};
    }

    /** `file_data.save(path)`, which overwrites a file already there. */
    method Save(path: string)
      modifies this
      ensures live == old(live) + {path}
    {
      live := live + {path};
    }

    /** `if os.path.exists(path): os.remove(path)`. */
    method RemoveIfExists(path: string)
      modifies this
      ensures live == old(live) - {path}
    {
      if path in live {
        live := live - {path};
      }
    }
  }

  /** The two Supabase tables the pipeline writes: the inserted result rows, and the status
      updates of `submissions`, in the order they were made. */
  class Database {
    var results: seq<Record>
    var statusWrites: seq<(string, Status)>

    constructor ()
      ensures results == [] && statusWrites == []
    {
      results, statusWrites := [], [];
    }

    /** `insert(data).execute()`, whose success is given. */
    method Insert(row: Record, succeeds: bool) returns (ok: bool)
      modifies this
      ensures ok == succeeds
      ensures results == old(results) + (if ok then [row] else [])
      ensures statusWrites == old(statusWrites)
    {
      ok := succeeds;
      if ok {
        results := results + [row];
      }
    }

    /** `update({'status': ...}).eq('id', id).execute()`. */
    method UpdateStatus(id: string, status: Status)
      modifies this
      ensures statusWrites == old(statusWrites) + [(id, status)]
      ensures results == old(results)
    {
      statusWrites := statusWrites + [(id, status)];
    }
  }

  // ---------------------------------------------------------------- the operations

  /** `grade_file`: extract, grade, store, and return the result under the temp file's base
      name; any failure propagates, and a row is stored only when the result is returned. */
  method GradeFile(path: string, u: Upload, env: Env, submissionId: string, db: Database)
    returns (r: Result<FileResult, PipelineError>)
    modifies db
    ensures r == GradeFileResult(path, u, env)
    ensures db.results == old(db.results) + (if r.Ok? then [RecordOf(path, u, submissionId, r.value.grading)] else [])
    ensures db.statusWrites == old(db.statusWrites)
  {
    var content: Result<string, PipelineError>;
    if IsPdf(path) {
      content := ProcessPdfWithMistral(u.calls);
    } else if u.calls.text.None? {
      content := Err(TextUnreadable);
    } else if u.calls.understood.None? {
      content := Err(UnderstandingFailed);
    } else {
      content := Ok(u.calls.understood.value);
    }
    if content.Err? {
      return Err(content.error);
    }
    var graded := GradeWithDeepSeek(u.calls.reply, env);
    if graded.Err? {
      return Err(graded.error);
    }
    var ok := db.Insert(RecordOf(path, u, submissionId, graded.value), u.calls.stored);
    if !ok {
      return Err(StorageFailed);
    }
    return Ok(FileResult(Basename(path), graded.value));
  }

  /** `process_single_file`: an upload without a filename is skipped; otherwise it is staged,
      graded, renamed to the upload's filename, and its temp file is removed whether
      grading returned or raised. */
  method ProcessSingleFile(u: Upload, env: Env, submissionId: string, tmp: TempFiles, db: Database)
    returns (o: FileOutcome)
    modifies tmp, db
    ensures o == Pipeline(u, env)
    ensures tmp.live == if Staged(u) then old(tmp.live) - {TempPath(env, u.filename)} else old(tmp.live)
    ensures db.results == old(db.results) + PipelineRecords(u, env, submissionId)
    ensures db.statusWrites == old(db.statusWrites)
  {
    if u.filename == "" {
      return NoFile;
    }
    if !u.calls.saved {
      return Raised(SaveFailed);
    }
    var path := TempPath(env, u.filename);
    tmp.Save(path);
    var r := GradeFile(path, u, env, submissionId, db);
    tmp.RemoveIfExists(path);
    match r {
      case Err(e) => o := Raised(e);
      case Ok(res) => o := Done(FileResult(u.filename, res.grading));
    }
  }

  /** The loop over the gathered outcomes that builds `valid_results` and `has_errors`. */
  method Classify(outcomes: seq<FileOutcome>) returns (valid: seq<FileResult>, hasErrors: bool)
    ensures valid == Successes(outcomes)
    ensures hasErrors == AnyRaised(outcomes)
  {
    valid, hasErrors := [], false;
    for i := 0 to |outcomes|
      invariant valid == Successes(outcomes[..i])
      invariant hasErrors == AnyRaised(outcomes[..i])
    {
      assert outcomes[..i + 1][..i] == outcomes[..i];
      match outcomes[i] {
        case Raised(_) => hasErrors := true;
        case Done(r) => valid := valid + [r];
        case NoFile =>
      }
    }
    assert outcomes[..|outcomes|] == outcomes;
  }

  /** `process_submission`: runs every pipeline, classifies their outcomes, writes the
      status, and returns the results or raises. Afterwards no temp file of the batch is
      left, the rows of exactly the returned results are stored, and the status writes are
      those `StatusWrites` gives. */
  method ProcessSubmission(us: seq<Upload>, env: Env, submissionId: string, tmp: TempFiles, db: Database)
    returns (out: SubmissionOutcome)
    modifies tmp, db
    ensures out == Outcome(Gathered(us, env))
    ensures tmp.live == old(tmp.live) - StagedPaths(us, env)
    ensures db.results == old(db.results) + AllRecords(us, env, submissionId)
    ensures db.statusWrites == old(db.statusWrites) + Tagged(submissionId, StatusWrites(Gathered(us, env)))
  {
    var outcomes := RunPipelines(us, env, submissionId, tmp, db);
    var valid, hasErrors := Classify(outcomes);
    out := Conclude(outcomes, valid, hasErrors, submissionId, db);
  }

  /** The end of `process_submission`, once `valid_results` and `has_errors` are known:
      the status update, and the return or the raise (caught by the outer handler, which
      writes "failed" again). */
  method Conclude(outcomes: seq<FileOutcome>, valid: seq<FileResult>, hasErrors: bool, submissionId: string,
                  db: Database)
    returns (out: SubmissionOutcome)
    requires valid == Successes(outcomes) && hasErrors == AnyRaised(outcomes)
    modifies db
    ensures out == Outcome(outcomes)
    ensures db.results == old(db.results)
    ensures db.statusWrites == old(db.statusWrites) + Tagged(submissionId, StatusWrites(outcomes))
  {
    if hasErrors {
      db.UpdateStatus(submissionId, Failed);
      if valid == [] {
        db.UpdateStatus(submissionId, Failed);
        assert Tagged(submissionId, [Failed, Failed]) == [(submissionId, Failed)] + [(submissionId, Failed)];
        return AllFilesFailed;
      }
      assert Tagged(submissionId, [Failed]) == [(submissionId, Failed)];
    } else {
      db.UpdateStatus(submissionId, Completed);
      assert Tagged(submissionId, [Completed]) == [(submissionId, Completed)];
    }
    return Returned(valid);
  }

  /** The pipelines of a batch, one per upload in upload order, standing for the tasks and
      the `gather` that joins them. */
  method RunPipelines(us: seq<Upload>, env: Env, submissionId: string, tmp: TempFiles, db: Database)
    returns (outcomes: seq<FileOutcome>)
    modifies tmp, db
    ensures outcomes == Gathered(us, env)
    ensures tmp.live == old(tmp.live) - StagedPaths(us, env)
    ensures db.results == old(db.results) + AllRecords(us, env, submissionId)
    ensures db.statusWrites == old(db.statusWrites)
  {
    outcomes := [];
    for i := 0 to |us|
      invariant outcomes == Gathered(us[..i], env)
      invariant tmp.live == old(tmp.live) - StagedPaths(us[..i], env)
      invariant db.results == old(db.results) + AllRecords(us[..i], env, submissionId)
      invariant db.statusWrites == old(db.statusWrites)
    {
      GatheredStep(us, i, env);
      StagedStep(us, i, env, old(tmp.live));
      RecordsStep(us, i, env, submissionId, old(db.results));
      var o := ProcessSingleFile(us[i], env, submissionId, tmp, db);
      outcomes := outcomes + [o];
    }
    assert us[..|us|] == us;
  }
}
