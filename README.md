# Autograder grading core, modelled in Dafny

The autograder backend takes the files of one submission and grades each file. It stages
the file in a temp directory and extracts its text: Mistral OCR for PDFs, with a PyPDF2
fallback, and a Mistral pass over the raw text otherwise. It sends that text to a
DeepSeek chat model and normalizes the JSON reply into a fixed grading shape. It stores
the result row in Supabase and removes the temp file. Once every file is done it writes
the submission's status and returns the per-file results.

This project models two sequential parts of that backend:

- **The `DeepSeekGrader` reply parser** (deepseek_grader.py).
  - It cuts the JSON payload out of the model's free text: first between `<response>` and
    `</response>`, and failing that from the first `{` to the last `}`.
  - It decodes and normalizes the payload with `_validate_result`.
  - It routes to one of three answers: the normalized result, the 50% fallback when
    decoding fails, or the zero-score error response when any other exception escapes.
- **The per-file pipeline and the batch step** (autograder.py).
  - `save_temp_file`'s path rule, and the temp file's lifetime.
  - `grade_file`'s `.pdf` dispatch, the PyPDF2 page loop, and the normalization inside
    `grade_with_deepseek`, which is the same function as `_validate_result`.
  - The stored row and the returned `{"fileName": ..., **grading}`.
  - `process_submission`'s classification loop, its status writes, and its return or raise.

Files:

- `wrappers.dfy`: `Option` and `Result`.
- `json.dfy`: the decoded JSON values, with Python's type names.
- `text.dfy`: `str.find`, `str.rfind`, `str.strip`, `str.endswith`, `os.path.join` and
  `os.path.basename`.
- `grading.dfy`: the grading-result shape, the normalization and its error messages, the
  encoding back to JSON, and the fallback and error responses.
- `deepseek_grader.dfy`: payload extraction and the parse and exception routing.
- `autograder.dfy`:
  - the pipeline: pure functions that specify it, and methods over two classes;
  - `TempFiles`: the set of live temp paths;
  - `Database`: the inserted rows and the status writes.

External collaborators are parameters, not code:

- `json.loads` is a partial function `loads: string -> Option<Json>`; `None` stands for a
  `JSONDecodeError`.
- The numeric-text parse behind `float()` is `toFloat: string -> Option<real>`.
- `secure_filename` is `sanitize: string -> string`, and the temp directory is a string.
- Every SDK call (Mistral, PyPDF2, DeepSeek, Supabase, the file writes and reads) is a
  given outcome per upload, collected in `Autograder.Calls`.
- `asyncio.gather(..., return_exceptions=True)` is the sequence of per-file outcomes in
  upload order. The pipelines run one after the other.

The code does not have the following behaviour, and neither does the model:

- No `partial` status exists. One raised pipeline makes the status `failed`, even when
  others succeeded.
- No collision suffix is added to temp names. Two uploads with the same sanitized name
  share one temp path.
- No per-file result is degraded. A failed understanding pass on the text route, an
  undecodable DeepSeek reply or a failed insert each raise. There is no fall back to the
  raw text.
- No dedicated error is raised for an empty batch. A batch of nameless uploads returns
  `[]` with status `completed`.
- The stored row's `file_name` is the temp file's base name (`temp_` + the sanitized name).
  Only the returned result carries the upload's own filename.

## Model

| member | source | states |
|---|---|---|
| Json.TypeName | deepseek_grader.py:107-121 | definition of `type(v).__name__`, which the normalization's error messages carry |
| Json.Lookup | deepseek_grader.py:107-121 | definition of `dict.get(key, default)`, which every defaulted key goes through |
| Text.IsSpace | deepseek_grader.py:89 | definition of the characters `str.isspace` accepts, which `str.strip` removes |
| Text.FindFrom | deepseek_grader.py:84-85 | the result is -1 or an occurrence at or after k, and no occurrence lies between k and it |
| Text.Find | deepseek_grader.py:84-85 | `str.find`: -1 exactly when the pattern occurs nowhere, otherwise the least index where it occurs |
| Text.RFind | deepseek_grader.py:94 | `str.rfind` of one character: -1 exactly when it is absent, otherwise an index holding it with none after it |
| Text.LeadingSpaces | deepseek_grader.py:89 | counts exactly the leading white-space run |
| Text.TrailingSpaces | deepseek_grader.py:89 | counts exactly the trailing white-space run |
| Text.Strip | deepseek_grader.py:89 | `str.strip`: the result is the slice that starts after the leading white space, only white space follows it, and it neither starts nor ends with white space |
| Text.EndsWith | autograder.py:200-203 | definition of `str.endswith`, which the `.pdf` dispatch and the base-name lemmas use: the text ends with the suffix |
| Text.Join | autograder.py:22 | definition of posix `os.path.join` of a directory and one name; the result always ends with the name |
| Text.Basename | autograder.py:198 | `os.path.basename`: a `/`-free suffix of the path that starts right after the last `/` (the whole path when it holds none) |
| Text.BasenameIsLastComponent | autograder.py:198 | the base name is the whole path or has a `/` right before it, so it is the longest `/`-free suffix |
| Text.BasenameOfJoin | autograder.py:22 | the base name of a directory joined with a `/`-free name is that name |
| Text.JoinInjective | autograder.py:22 | `os.path.join` onto one directory is injective for relative names |
| Grading.Message | deepseek_grader.py:107-121 | definition of `str(e)` for each exception the normalization can raise |
| Grading.Coercible | deepseek_grader.py:114 | definition of the values `float()` accepts; `ToFloat` is stated through it |
| Grading.ToFloat | deepseek_grader.py:114 | `float()` succeeds exactly on ints, floats, bools and numeric strings; an int or a float keeps its value, `True` and `False` become 1.0 and 0.0, and a numeric string becomes its parsed value; otherwise the error is Python's, naming the string or the type |
| Grading.ValidateEntry | deepseek_grader.py:111-116 | one entry normalizes exactly when it is a dict whose score, if present, is numeric |
| Grading.ValidateAll | deepseek_grader.py:110-117 | the comprehension succeeds exactly when every entry normalizes; then it keeps their number and order, each entry normalized on its own |
| Grading.ValidateResults | deepseek_grader.py:117 | definition of iterating over the value under "results": it normalizes exactly when it is a list of normalizable entries, an empty string or an empty dict, and a list keeps its length |
| Grading.Validate | deepseek_grader.py:107-121 | `_validate_result` succeeds exactly on normalizable replies; then the results match the input entries in number and order, each normalized on its own |
| Grading.CriterionRoundTrip | deepseek_grader.py:111-116 | an encoded normalized entry normalizes to itself |
| Grading.EntriesRoundTrip | deepseek_grader.py:110-117 | an encoded list of normalized entries normalizes to itself |
| Grading.RoundTrip | deepseek_grader.py:107-121 | every normalized result, encoded back to JSON, normalizes to itself |
| Grading.Idempotent | deepseek_grader.py:107-121 | normalizing the output of a normalization gives the same value |
| Grading.EntryDefaults | deepseek_grader.py:112-115 | an entry with no keys becomes "Unnamed aspect", no mistakes, score 0, "No feedback provided" |
| Grading.MissingQuestion | deepseek_grader.py:112 | an entry without "question" is named "Unnamed aspect", whatever its other keys |
| Grading.MissingMistakes | deepseek_grader.py:113 | an entry without "mistakes" has no mistakes, whatever its other keys |
| Grading.MissingScore | deepseek_grader.py:114 | an entry without "score" normalizes and scores 0, whatever its other keys |
| Grading.MissingFeedback | deepseek_grader.py:115 | an entry without "feedback" gets "No feedback provided", whatever its other keys |
| Grading.PresentEntryKeys | deepseek_grader.py:112-115 | a key present in an entry is kept: the question and the feedback verbatim, a list of mistakes as given, and the score as `float()` of the value found, so an integer score keeps its value |
| Grading.NonListMistakes | deepseek_grader.py:113 | a `mistakes` value that is not a list becomes the empty list |
| Grading.ReplyDefaults | deepseek_grader.py:117-120 | a reply with none of the three keys gives no entries, total 0 and "No overall feedback provided" |
| Grading.MissingResults | deepseek_grader.py:117 | a reply without "results" normalizes to no entries, whatever its other keys |
| Grading.MissingTotal | deepseek_grader.py:119 | a reply without "totalScore" totals 0, whatever its other keys |
| Grading.MissingOverallFeedback | deepseek_grader.py:120 | a reply without "overallFeedback" gets "No overall feedback provided", whatever its other keys |
| Grading.PresentReplyKeys | deepseek_grader.py:119-120 | a key present in the reply is kept: the total as `float()` of the value found and the overall feedback verbatim |
| Grading.Fallback | deepseek_grader.py:123-136 | one entry; its score and the total are both half the available points; its feedback and the overall feedback are both the raw reply; the single mistake is "Could not parse grading response" |
| Grading.ErrorResponse | deepseek_grader.py:138-151 | one entry; score and total 0; feedback "Error during grading: " + message; overall feedback "An error occurred during grading: " + message |
| Grading.ErrorIsNotFallback | deepseek_grader.py:123-151 | no error response equals any fallback |
| DeepSeekGrader.TagsApart | deepseek_grader.py:87-89 | a close tag found after an open tag starts after the open tag's end, so the slice between them is well formed |
| DeepSeekGrader.TagsFirstUnique | deepseek_grader.py:82-83 | both tags start with `<` and hold it nowhere else |
| DeepSeekGrader.NoEarlierOccurrence | deepseek_grader.py:84-85 | a tag cannot occur across the front of a text that starts with the tag's first character |
| DeepSeekGrader.FindAtJoin | deepseek_grader.py:84-85 | `find` reports the tag at the end of a prefix that does not hold it |
| DeepSeekGrader.TaggedSpan | deepseek_grader.py:82-89 | definition of the tagged route, the text between `<response>` and `</response>` when the first open tag comes before the first close tag; the lemmas below pin it down |
| DeepSeekGrader.BracedSpan | deepseek_grader.py:93-96 | definition of the braced route; a span it finds begins with `{` and ends with `}` |
| DeepSeekGrader.BracedSpanFound | deepseek_grader.py:93-99 | the braced route finds a span exactly when the reply holds a `{` with a `}` after it |
| DeepSeekGrader.Payload | deepseek_grader.py:84-99 | definition of the payload: the stripped tagged span, else the braced span, else none; the payload lemmas below are about it |
| DeepSeekGrader.TaggedSpanAt | deepseek_grader.py:84-89 | when the first `<response>` comes before the first `</response>`, the span is the text strictly between them |
| DeepSeekGrader.TagFinds | deepseek_grader.py:84-85 | in `pre + <response> + mid + </response> + post`, with no earlier tags, `find` reports both tags where they were put |
| DeepSeekGrader.FindChar | deepseek_grader.py:93 | `find` of one character reports its first position |
| DeepSeekGrader.RFindChar | deepseek_grader.py:94 | `rfind` of one character reports its last position |
| DeepSeekGrader.BracedSpanAt | deepseek_grader.py:93-96 | the braced span runs from the first `{` through the last `}` |
| DeepSeekGrader.TaggedPayload | deepseek_grader.py:82-90 | with the first `<response>` before the first `</response>`, the payload is the stripped text strictly between them, whatever follows |
| DeepSeekGrader.BracedPayload | deepseek_grader.py:92-97 | without a `{` before the opening brace or a `}` after the closing one, the braced payload is that span, braces included |
| DeepSeekGrader.UntaggedPayload | deepseek_grader.py:85-97 | with no `<response>` tag, the payload is the braced span |
| DeepSeekGrader.UnclosedTag | deepseek_grader.py:85-97 | a `<response>` with no `</response>` after it, as in a cut-off reply, gives the braced span |
| DeepSeekGrader.StrayCloseTag | deepseek_grader.py:85-97 | when `</response>` comes before any `<response>`, the payload is the braced span, even if a well-formed tag pair follows |
| DeepSeekGrader.ErrorText | deepseek_grader.py:74-76 | definition of `str(e)` for each exception that reaches the error response |
| DeepSeekGrader.ParseGradingResponse | deepseek_grader.py:78-105 | definition of `_parse_grading_response`: the payload decoded and normalized, the fallback on a decode failure, or the exception it raises; the routing lemmas below are about it |
| DeepSeekGrader.GradeSubmission | deepseek_grader.py:21-76 | definition of `grade_submission`: a raising request, a missing message content or an exception from parsing becomes the error response, anything else is returned as parsed |
| DeepSeekGrader.NoPayloadGivesError | deepseek_grader.py:98-100 | with no payload, `grade_submission` returns the error response for "No JSON structure found in response", never the fallback |
| DeepSeekGrader.UndecodableGivesFallback | deepseek_grader.py:100-103 | a payload that does not decode gives the fallback built from the whole reply |
| DeepSeekGrader.UnnormalizableGivesError | deepseek_grader.py:105 | a decoded payload that does not normalize gives the error response carrying the exception's message, never the fallback |
| DeepSeekGrader.NonObjectGivesError | deepseek_grader.py:105 | a top level that is not a dict fails on `.get`, and the message names its Python type |
| DeepSeekGrader.NormalizedPassesThrough | deepseek_grader.py:105 | a payload that normalizes is returned as normalized |
| DeepSeekGrader.CallFailureGivesError | deepseek_grader.py:74-76 | a raising request gives the error response carrying the exception's message |
| DeepSeekGrader.NoContentGivesError | deepseek_grader.py:72-85 | a completion without message content fails on `.find`, and gives the error response with that message |
| DeepSeekGrader.ReparseNormalized | deepseek_grader.py:82-105 | a normalized result, encoded and wrapped in the tags, is parsed back as itself |
| Autograder.TempPath | autograder.py:19-24 | definition of `save_temp_file`'s path, the temp directory joined with `temp_` + the sanitized name; `TempPathCollides` and `StoredNameIsTempName` are about it |
| Autograder.TempPathCollides | autograder.py:19-24 | two uploads get the same temp path exactly when their sanitized names agree |
| Autograder.IsPdf | autograder.py:200-203 | definition of the `.endswith('.pdf')` test `grade_file` dispatches on |
| Autograder.PdfByUploadName | autograder.py:200-203 | the temp path takes the PDF route exactly when the sanitized upload name ends in ".pdf" |
| Autograder.PdfFallbackText | autograder.py:85-90 | definition of the text the PyPDF2 loop builds; `FallbackText` and the `Pdf*` lemmas are about it |
| Autograder.PdfText | autograder.py:26-93 | definition of `process_pdf_with_mistral`'s outcome; `ProcessPdfWithMistral` states it |
| Autograder.Content | autograder.py:202-210 | definition of the `.pdf` dispatch: the PDF route, or the read text passed through the understanding pass; `FailuresPropagate` is about it |
| Autograder.GradeWithDeepSeek | autograder.py:117-172 | definition of `grade_with_deepseek`: a raising call, an undecodable reply or a failed normalization raises, otherwise the normalized reply; `DoneMeansEveryStageSucceeded` and `FailuresPropagate` are about it |
| Autograder.GradingOf | autograder.py:199-217 | definition of extraction followed by grading, the first failure escaping |
| Autograder.RecordOf | autograder.py:174-183 | definition of the row `store_grading_result` inserts: the submission, the temp file's base name, the file content (base64 for a PDF) and the grading |
| Autograder.GradeFileResult | autograder.py:194-236 | definition of `grade_file`'s result, the grading under the temp file's base name once the row is stored; `GradeFile` and `StoredNameIsTempName` are about it |
| Autograder.Pipeline | autograder.py:241-265 | definition of one `process_single_file` outcome: None, a result or an exception; `ProcessSingleFile` and the pipeline lemmas are about it |
| Autograder.PdfFallbackTextAppend | autograder.py:85-89 | the fallback text of a run of pages is the texts of its parts, one after the other |
| Autograder.PdfPageInPlace | autograder.py:88-89 | each page's text, then one newline, sits between the text of the pages before it and after it |
| Autograder.PdfOnePage | autograder.py:89 | one page gives its text and a newline |
| Autograder.PdfSplit | autograder.py:85-89 | the fallback text of the pages is the text of the pages before any cut followed by the text of those after it |
| Autograder.PdfLastPage | autograder.py:88-89 | each further page appends its text and one newline |
| Autograder.FallbackText | autograder.py:85-90 | the `text_content +=` loop yields every page's text followed by "\n", in page order |
| Autograder.ProcessPdfWithMistral | autograder.py:26-93 | the OCR text and the understanding reply separated by a blank line; failing that, the PyPDF2 text; failing that, the exception propagates |
| Autograder.RecordContent | autograder.py:194-226 | a stored row holds a PDF's bytes base64-encoded and any other file's bytes as read |
| Autograder.RecordIffDone | autograder.py:219-236 | a pipeline stores one row exactly when it returns a result, and the row holds the same grading |
| Autograder.DoneMeansEveryStageSucceeded | autograder.py:194-261 | a returned result was saved, extracted, decoded and stored; its grading is the normalization of the reply, and it carries the upload's filename |
| Autograder.FailuresPropagate | autograder.py:84-236 | a failed understanding pass on the text route, an undecodable reply, a failed insert, or a PDF that both Mistral and PyPDF2 fail to read each make the pipeline raise |
| Autograder.StoredNameIsTempName | autograder.py:194-226 | the stored row is named "temp_" + the sanitized filename |
| Autograder.Gathered | autograder.py:268-274 | one outcome per upload, in upload order |
| Autograder.PipelineRecords | autograder.py:219-226 | definition of the rows one pipeline stores: one row exactly when it graded and the insert succeeded; `RecordIffDone` and `RecordsMatchResults` are about it |
| Autograder.Successes | autograder.py:280-285 | definition of `valid_results`: the results among the outcomes, in order; the `Successes*` lemmas and `Classify` are about it |
| Autograder.AnyRaised | autograder.py:280-285 | definition of `has_errors`: some outcome is an exception; `Classify` is about it |
| Autograder.Outcome | autograder.py:287-307 | definition of what the batch returns or raises; `OutcomeReturns`, `MixedBatchReturns`, `AllFailedRaises`, `ReturnedCount` and `ProcessSubmission` are about it |
| Autograder.StatusWrites | autograder.py:287-307 | definition of the status writes, in order; `StatusCompletedIff`, `MixedBatchReturns`, `AllFailedRaises` and `ProcessSubmission` are about it |
| Autograder.SuccessesAppend | autograder.py:280-285 | the filter keeps order: the successes of a concatenation are the successes of its parts in turn |
| Autograder.SuccessOfOne | autograder.py:281-285 | one outcome contributes its result only when it is a result, and nothing for None or an exception |
| Autograder.SuccessesCount | autograder.py:280-285 | as many results are kept as outcomes are results |
| Autograder.SuccessesEmpty | autograder.py:280-285 | no result is kept exactly when no outcome is a result |
| Autograder.ResultCount | autograder.py:241-285 | `valid_results` holds as many results as there are uploads with a filename whose pipeline did not raise |
| Autograder.StatusCompletedIff | autograder.py:287-297 | "completed" is written exactly when no pipeline raised; otherwise only "failed" is written, and the last write is "failed" |
| Autograder.MixedBatchReturns | autograder.py:287-299 | when some pipeline raised and some returned a result, "failed" is written once and the results are still returned |
| Autograder.OutcomeReturns | autograder.py:287-299 | the batch returns exactly when nothing raised or some pipeline returned a result, and then it returns every result in order |
| Autograder.ReturnedCount | autograder.py:241-299 | a returned batch holds one result per upload with a filename whose pipeline did not raise |
| Autograder.AllFailedRaises | autograder.py:288-307 | when some pipeline raised and none returned a result, the batch raises and "failed" is written twice |
| Autograder.EmptyNamesComplete | autograder.py:241-299 | a batch of uploads without filenames returns no results with status "completed" |
| Autograder.RecordsMatchResults | autograder.py:219-285 | the stored rows and the returned results correspond one to one in order, with the same gradings |
| Autograder.GatheredStep | autograder.py:268-274 | one more upload adds its outcome at the end of the gathered list |
| Autograder.StagedStep | autograder.py:247-265 | one more upload removes its temp path, if it was staged, and no other |
| Autograder.RecordsStep | autograder.py:219-226 | one more upload appends its rows after those of the uploads before it |
| Autograder.TempFiles.constructor | autograder.py:21 | the temp directory starts with no files of the batch |
| Autograder.TempFiles.Save | autograder.py:23 | saving adds the path, overwriting a file already there |
| Autograder.TempFiles.RemoveIfExists | autograder.py:264-265 | afterwards the path is gone and nothing else changes |
| Autograder.Database.constructor | autograder.py:185 | no rows and no status writes yet |
| Autograder.Database.Insert | autograder.py:185-187 | a row is appended exactly when the insert succeeds, and the status writes are untouched |
| Autograder.Database.UpdateStatus | autograder.py:289-297 | appends one status write and leaves the rows untouched |
| Autograder.GradeFile | autograder.py:194-236 | the result is the grading under the temp file's base name, or the first failure; a row is appended exactly when a result is returned |
| Autograder.ProcessSingleFile | autograder.py:241-265 | the outcome is None for an empty filename, otherwise the pipeline's result under the upload's filename or its exception; a staged temp path is removed whether grading returned or raised; the pipeline's rows are appended |
| Autograder.Classify | autograder.py:277-285 | `valid_results` is the results in order, and `has_errors` holds exactly when some outcome is an exception |
| Autograder.RunPipelines | autograder.py:268-274 | the outcomes are those of each upload in order; every staged temp path is gone; the rows of all pipelines are appended in upload order |
| Autograder.Conclude | autograder.py:287-307 | given `valid_results` and `has_errors`, returns or raises as `Outcome` says and writes the statuses `StatusWrites` gives, storing no row |
| Autograder.ProcessSubmission | autograder.py:238-307 | returns the results or raises as `Outcome` says; no temp file of the batch is left; exactly the rows of the returned results are stored; the status writes are those `StatusWrites` gives |

## Left out

- mistral_processor.py and app.py are not part of this model. They are SDK plumbing and
  HTTP wiring.
- The SDK calls themselves are not modelled. Mistral upload, signed URL, OCR, chat and
  delete, PyPDF2, the DeepSeek request, and the Supabase insert each appear only as a
  given outcome.
- The `await` on the synchronous OpenAI client in `grade_with_deepseek` is not modelled.
  Its reply is a given outcome.
- A `None` message content from DeepSeek in `grade_with_deepseek` cannot be expressed. The
  reply there is a string or a raised call.
- Grading criteria, points and prompts are left out. The criteria and the prompt text only
  reach the prompt. Only the available points reach the modelled logic, through the
  fallback.
- The grading object is not modelled. `DeepSeekGrader.__init__`, its environment lookup
  and its client are left out.
- Concurrency is not modelled. Pipelines run one after the other in upload order. Two
  uploads that share a temp path cannot overwrite or remove each other's file mid-run.
  `TempPathCollides` states when they share one.
- Autograder.TempFiles.Save: a `file_data.save` that raises is taken to leave no file.
  `save_temp_file` runs before the `try` whose `finally` removes the file. A save that
  fails after creating the file therefore leaves it behind, and the model does not
  capture that file.
- Autograder.TempFiles.RemoveIfExists: `os.path.exists` and `os.remove` are taken never
  to raise. A raising `os.remove` would replace the pipeline's outcome with its own
  exception and leave the file. `ProcessSubmission`'s promise that no temp file of the
  batch is left rests on both of these assumptions.
- Status-update failures are not modelled. An `execute()` of a status update that raises
  is not part of the model.
- Failures of the binary read of the staged file, and of `base64` encoding, are not
  modelled. Both are taken to succeed.
- `created_at` is not modelled. The timestamp on the stored row is clock input and is not
  part of `Record`.
- The insert's returned `response.data` is not modelled. Only whether the insert succeeded
  is kept.
- Numbers are exact reals, not IEEE floats. `0.5 * points` and `float()` are exact.
- Grading.ErrorResponse: the source writes the error response's score and total as the
  integer `0`. The model stores them as the real `0.0`, because a grading result's scores
  are reals.
- Grading.Message: messages that the source builds with `repr` of a string are modelled
  without Python's quote escaping.
- Text.IsSpace: `str.strip` is modelled with the white-space set of `str.isspace`, with no
  Unicode database beyond that list.
- A `page.extract_text()` that returns `None` is not modelled. Pages are always strings.
- Printed log lines are not modelled.
