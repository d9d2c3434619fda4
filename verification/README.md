# Ingestion job and job ledger of Local-PDF-Assistant, in Dafny

This project models the document-ingestion back end of Local-PDF-Assistant. The
model covers two pieces:

- `run_processing_job` (backend/file_processor.py). It takes the files of one
  upload directory and looks at each in turn. It picks an extractor from the
  lower-cased file suffix. It builds one vector store per file whose text has
  content, saving each store under a fresh id. It then merges the stores into
  a master store and reports progress and the final result to the job ledger.
  It removes the upload directory however it ends.
- The job ledger (backend/job_manager.py). It keeps one `{status, details}`
  record per job id. Writes overwrite the record and never raise. A read of an
  unknown id gives a `not_found` record. A read of a damaged file gives an
  `error` record.

The foreign libraries are parameters of the model (`Ingest.Env`):

- PyMuPDF is `pdfPages`: opening a file gives the texts of its pages or an exception.
- python-docx is `docxParagraphs`: the same, for paragraphs.
- The store builder (langchain, Ollama embeddings) is `build`: a store, `None`, or an exception.
- A store's `merge_from` is `mergeError`: for a master store and one target store, whether the call raises and with what message. A call that does not raise appends the target's texts to the master's.
- The `uuid4` ids are issued by an oracle (`StoreDirectory.NewId`) that never issues an id twice.

Files:

- `wrappers.dfy`: `Option` and `Result`.
- `text.dfy`: the Python string operations the job relies on, written out.
  These are `str.isspace`, `str.strip`, `str.lower`, `str.join`, `str(int)` and
  `PurePath.suffix`.
- `job_ledger.dfy`: the jobs directory as a map from job id to status file,
  and the class `Ledger` with `UpdateJobStatus` and `GetJobStatus`.
- `extractors.dfy`: dispatch by suffix, and the PDF, DOCX and XLSX extractors.
- `ingest.dfy` has two parts:
  - `Job` is the specification of the job: a function of the directory
    listing, the libraries and the id oracle's state.
  - `RunProcessingJob` runs the job step by step: a loop over the files
    that saves stores into a `StoreDirectory` and removes its `WorkDir`. Its
    postcondition says it does exactly what `Job` says.
  - `Job` merges the stores one at a time, each `merge_from` call raising or
    not as `Env.mergeError` says. The program as written (line 88 hands
    `merge_from` a list, see Findings) is the instance of `Job` whose
    `mergeError` always raises (`Ingest.AlwaysRaises`):
    `IngestProperties.AsWrittenMergeIsAlwaysRaising` proves the two merges
    equal, and `IngestProperties.AsWrittenJobFailsAtMerge` gives the job's end.
- `ingest_properties.dfy`: what the job guarantees, proved about `Job`. The
  file gives two reference definitions that are independent of the loop:
  - `KeptPositions`: which files yield a store;
  - `FirstRaise`: where the first exception comes from.

  It then shows that the loop's records, saved stores and ledger writes are
  exactly what those definitions predict.

The ledger writes a job issues are returned in order as a log.
`update_job_status` never raises, so the course of the job does not depend
on how its writes end. `JobLedger.Replay` applies such a log to the jobs
directory, whatever the outcome of each write.

Two behaviours of the code that the model keeps as they are:

- `update_job_status` performs no transition check. A job already marked
  `complete` or `failed` can be set back to `processing`, or to any other
  status (`JobLedger.TerminalStatusCanBeOverwritten`).
- Per-file extraction errors are caught for PDF files only. An error opening a
  DOCX file is not caught: it fails the whole job
  (`IngestProperties.UnreadableDocxRaises`,
  `IngestProperties.FirstRaisingFileFailsJob`).

## Model

| member | source | states |
|---|---|---|
| Text.IsSpace | backend/file_processor.py:74 | the characters CPython's `str.isspace` (and so `strip()`) counts as whitespace; the "usable text" test rests on it through `Text.HasTextIffNonSpace` |
| Text.Strip | backend/file_processor.py:74 | `str.strip()`: the text without its leading and trailing whitespace; its properties are stated by `Text.StripSpec` |
| Text.HasText | backend/file_processor.py:74 | the test `text and text.strip()`; characterised by `Text.HasTextIffNonSpace` |
| Text.Join | backend/file_processor.py:17-28 | `"\n".join(parts)`: the parts with the separator between consecutive ones; characterised by `Text.JoinBlank` |
| Text.Suffix | backend/file_processor.py:64 | `PurePath.suffix` of a file name: from the last dot strictly inside the name, or empty; characterised by `Text.SuffixSpec` |
| Text.TrimStartSpec | backend/file_processor.py:74 | lstrip removes exactly a whitespace prefix and stops at the first non-whitespace character |
| Text.TrimEndSpec | backend/file_processor.py:74 | rstrip removes exactly a whitespace suffix and stops at the last non-whitespace character |
| Text.StripSpec | backend/file_processor.py:74 | `strip()` is empty exactly when the text is all whitespace; otherwise it starts and ends with non-whitespace; it is never longer |
| Text.HasTextIffNonSpace | backend/file_processor.py:74 | `text and text.strip()` is true exactly when the text has a non-whitespace character |
| Text.JoinBlank | backend/file_processor.py:17-28 | joining pages or paragraphs with "\n" gives all-whitespace text exactly when every part is all whitespace |
| Text.Lower | backend/file_processor.py:64 | the ASCII case fold of the suffix keeps its length (Python's full `lower()` need not) |
| Text.RFind | backend/file_processor.py:64 | the position of the last dot is -1 or a valid index |
| Text.RFindSpec | backend/file_processor.py:64 | that position holds a dot and no dot follows it |
| Text.SuffixSpec | backend/file_processor.py:64 | a non-empty suffix is a tail of the name, shorter than it, one dot and then at least one non-dot character; it is empty exactly when no dot sits strictly inside the name or the name ends with a dot |
| Text.Decimal | backend/file_processor.py:62 | `str(n)` is never empty |
| Text.DecimalDigits | backend/file_processor.py:62 | `str(n)` is made of decimal digits |
| Text.DecimalRoundTrip | backend/file_processor.py:62 | reading back the counter written into a progress message gives the counter |
| JobLedger.Query | backend/job_manager.py:17-26 | `get_job_status` over the jobs directory: `not_found` for an unknown id, the stored record, or an `error` record for a damaged file; its properties are stated by the lemmas below |
| JobLedger.ErrorRecord | backend/job_manager.py:25-26 | the `error` record "Could not read status file: " + the read error; see `JobLedger.DamagedFileReadsAsError` |
| JobLedger.Write | backend/job_manager.py:7-15 | a write never touches another id's record; a write that cannot open the file changes nothing |
| JobLedger.ReadAfterWrite | backend/job_manager.py:10-24 | after a successful write of `{s, d}`, a read returns exactly `{s, d}` |
| JobLedger.UnknownIdIsNotFound | backend/job_manager.py:19-21 | an id never written reads as `{"not_found", "Job ID not found."}` |
| JobLedger.WriteReplacesRecord | backend/job_manager.py:10-12 | a second write replaces the whole record; nothing of the first write's details survives |
| JobLedger.TerminalStatusCanBeOverwritten | backend/job_manager.py:5-12 | a `complete` or `failed` record can be overwritten with any status: there is no transition check |
| JobLedger.DamagedFileReadsAsError | backend/job_manager.py:22-26 | a write that fails after truncating the file makes the id read as an `error` record, not an exception |
| JobLedger.Replay | backend/job_manager.py:5-15 | the jobs directory after a job's writes for one id, in order, each ending with its own fault; its properties are stated by the three lemmas below |
| JobLedger.ReplayLeavesOtherJobs | backend/job_manager.py:9 | any sequence of writes for one id, however each ends, leaves every other id's record unchanged |
| JobLedger.LastSuccessfulWriteWins | backend/job_manager.py:10-12 | when the last write of a sequence succeeds, the id reads as that write, whatever came before |
| JobLedger.FaultFreeReplayReadsLast | backend/job_manager.py:10-12 | when no write fails, the id reads as the last write |
| JobLedger.Ledger.UpdateJobStatus | backend/job_manager.py:5-15 | `update_job_status` overwrites the id's status file according to how the write ends; a successful write is read back exactly; other ids are unchanged |
| JobLedger.Ledger.GetJobStatus | backend/job_manager.py:17-26 | `get_job_status` returns `not_found` for an unknown id, the stored record for a readable file, an `error` record for a damaged one, and never raises |
| Extractors.Dispatch | backend/file_processor.py:64-72 | the PDF extractor is chosen exactly when the lower-cased suffix is ".pdf", the DOCX one exactly when it is ".docx" |
| Extractors.DispatchKeyByEnding | backend/file_processor.py:64-68 | the lower-cased suffix equals ".pdf" (or ".docx") exactly when the name is longer than it and ends with it, ignoring case |
| Extractors.EndingGivesSuffix | backend/file_processor.py:64 | a name ending in ".pdf" or ".docx" (any case) after at least one character has exactly that ending as its suffix |
| Extractors.DispatchPdfIff | backend/file_processor.py:67 | a file goes to the PDF extractor exactly when its name is longer than 4 characters and ends in ".pdf" in any case |
| Extractors.DispatchDocxIff | backend/file_processor.py:68 | a file goes to the DOCX extractor exactly when its name is longer than 5 characters and ends in ".docx" in any case |
| Extractors.ExtractPdf | backend/file_processor.py:17-23 | any PDF error gives "" instead of raising |
| Extractors.PdfTextBlankIff | backend/file_processor.py:17-23 | an unreadable PDF gives no usable text; a readable one gives none exactly when every page is all whitespace |
| Extractors.ExtractDocx | backend/file_processor.py:26-28 | the DOCX extractor fails exactly when the library fails, with the library's message |
| Extractors.DocxTextBlankIff | backend/file_processor.py:26-28 | a readable DOCX gives no usable text exactly when every paragraph is all whitespace |
| Extractors.SheetBlock | backend/file_processor.py:40 | the block "--- Sheet: name ---\n" + the rendered sheet + "\n\n" for one sheet |
| Extractors.SheetBlocks | backend/file_processor.py:36-41 | the XLSX text as the concatenation of one labelled block per sheet, in workbook order; the reference for `Extractors.ExtractXlsx` |
| Extractors.ExtractXlsx | backend/file_processor.py:36-41 | the loop builds one labelled block per sheet, in workbook order, each at the offset right after the blocks before it |
| Extractors.SheetBlockAt | backend/file_processor.py:36-41 | no sheet is dropped: each sheet's block sits right after the blocks of the sheets before it |
| Ingest.IsConsidered | backend/file_processor.py:52 | the filter's test: a regular file whose name neither starts with `._` nor is `.DS_Store`; used by `Ingest.FilesToProcessSpec` |
| Ingest.FilesToProcess | backend/file_processor.py:52 | the filter never adds entries |
| Ingest.FilesToProcessSpec | backend/file_processor.py:52 | an entry is processed exactly when it is a regular file not named `._*` or `.DS_Store` |
| Ingest.FilesToProcessAppend | backend/file_processor.py:52 | the filter keeps enumeration order |
| Ingest.FileText | backend/file_processor.py:64-72 | unsupported suffixes give no text (`continue`); a PDF always gives text; only a DOCX can raise, and only when the library does |
| Ingest.OutcomeOf | backend/file_processor.py:64-80 | a file keeps a store only when its text has content and the builder returned that store |
| Ingest.ProgressWrite | backend/file_processor.py:62 | the progress record "Processing file i+1/total: name"; see `IngestProperties.LoopWrites` |
| Ingest.FailedWrite | backend/file_processor.py:103 | the `failed` record "An error occurred: " + message + "\n\n" (the traceback is left out, see below) |
| Ingest.CompleteWrite | backend/file_processor.py:93-94 | the `complete` record carrying the master id and the files list; see `IngestProperties.LedgerWriteDiscipline` and `IngestProperties.JobEndsReadable` |
| Ingest.Start | backend/file_processor.py:49-58 | the state before the loop: the start write issued, no records, no in-memory stores, nothing saved |
| Ingest.Step | backend/file_processor.py:61-80 | one iteration of the loop: the progress write, then nothing, a new record and store under the next id, or the exception; `Ingest.ProcessFile` is proved equal to it |
| Ingest.Loop | backend/file_processor.py:60-80 | the loop over the first k files, stopping at the first exception; related to the reference definitions by `IngestProperties.LoopMatchesReference` |
| Ingest.LoopStopsAtError | backend/file_processor.py:60-106 | once a file raises, no later file is looked at |
| Ingest.MergeFrom | backend/file_processor.py:88 | one `merge_from` call that does not raise: the master store keeps its texts and takes the target's after them |
| Ingest.MergeFromTarget | backend/file_processor.py:88 | `merge_from` takes one store: a list as target raises; a store as target raises or merges as `mergeError` says |
| Ingest.MergeAsWritten | backend/file_processor.py:86-88 | lines 86-88 as written: the list of the other stores is handed to `merge_from`; see `IngestProperties.MergeAsWrittenRejectsSeveralStores` |
| Ingest.AlwaysRaises | backend/file_processor.py:88 | a `merge_from` that raises with one message whatever it is given: the behaviour of the as-written call; see `IngestProperties.AsWrittenMergeIsAlwaysRaising` |
| Ingest.MergeInto | backend/file_processor.py:86-88 | `merge_from` called once per other store, in order, stopping at the first that raises; characterised by `IngestProperties.MergeIntoSpec` |
| Ingest.MergeAll | backend/file_processor.py:86-88 | lines 86-88 as intended: the first store merged with each other store in file order; see `IngestProperties.MergeSucceedsWhenNoMergeRaises` and `IngestProperties.MasterHoldsEveryStore` |
| Ingest.MergeStores | backend/file_processor.py:86-88 | the merge loop succeeds exactly when `MergeAll` does, with its master store, and otherwise fails with `MergeAll`'s message |
| Ingest.JobOn | backend/file_processor.py:49-106 | the job over the files to process given each file's outcome: no files, the first raising file, no usable text, a failing merge, or success with a fresh master id; its properties are the job-level lemmas of `IngestProperties` |
| Ingest.Finish | backend/file_processor.py:82-103 | the job after the loop: the loop's exception, the no-usable-text error, a failing merge (after the merge write), or the master store saved under the next id and the `complete` write; its cases are used by the job-level lemmas |
| Ingest.FinishJob | backend/file_processor.py:82-103 | the steps after the loop, run against the store directory, are proved equal to `Ingest.Finish`: same writes and outcome, and the directory holds what was there plus what `Finish` saves |
| Ingest.Job | backend/file_processor.py:46-106 | the whole job as a function of the directory listing, the libraries and the first fresh id; `Ingest.RunProcessingJob` is proved equal to it |
| Ingest.WorkDir.RemoveTree | backend/file_processor.py:108-111 | the `finally` block leaves the upload directory gone, whether or not it still existed |
| Ingest.StoreDirectory.NewId | backend/file_processor.py:77 | a new store id is not yet in use, and nothing saved changes |
| Ingest.StoreDirectory.SaveLocal | backend/file_processor.py:78 | `save_local` stores exactly the given store under the given id and changes no other id |
| Ingest.ProcessFile | backend/file_processor.py:61-80 | one iteration issues the progress write and, for a kept file, saves the store under a fresh id and appends the matching record and store; the result equals one `Step` of the specification |
| Ingest.RunProcessingJob | backend/file_processor.py:46-111 | the job's writes, outcome, saved stores and ids are exactly those of `Job`; stores saved earlier are kept; the upload directory is removed on every exit path |
| IngestProperties.KeptIff | backend/file_processor.py:74-80 | a file yields a record exactly when its suffix is handled, its text has a non-whitespace character, and the builder returns a store |
| IngestProperties.UnreadablePdfIsSkipped | backend/file_processor.py:21-23 | an unreadable PDF is skipped and the job goes on |
| IngestProperties.BlankPdfIsSkipped | backend/file_processor.py:17-23 | a PDF whose pages are all whitespace is skipped and never handed to the builder |
| IngestProperties.UnreadableDocxRaises | backend/file_processor.py:26-28 | an unreadable DOCX raises with the library's message |
| IngestProperties.UnsupportedIsSkipped | backend/file_processor.py:69-72 | every other suffix (.txt, .csv, .xlsx, none) is skipped with no record and no error |
| IngestProperties.KeptPositionsSpec | backend/file_processor.py:74-80 | the reference lists exactly the files that yield a store, in increasing order |
| IngestProperties.KeptStoresByPosition | backend/file_processor.py:74-80 | stores that match the kept positions one for one, in order, are exactly the kept stores of the reference `KeptStores` |
| IngestProperties.FirstRaiseSpec | backend/file_processor.py:60-80 | the reference position is the first file that raises (or the file count when none does) |
| IngestProperties.LoopBookkeeping | backend/file_processor.py:76-80 | records and in-memory stores grow together; record j carries the id its store was saved under; what is saved is exactly the in-memory stores |
| IngestProperties.LoopMatchesReference | backend/file_processor.py:60-80 | the loop stops exactly at the first raising file, with its message; its records and stores are those of the kept files before it, in order; one progress write per file looked at |
| IngestProperties.LoopWrites | backend/file_processor.py:49-62 | the loop's writes are the start write followed by "Processing file i+1/total: name" for each file looked at, in order |
| IngestProperties.MergeIntoSpec | backend/file_processor.py:86-88 | merging store by store succeeds exactly when no `merge_from` call raises, and then the master holds its own texts followed by the others' in order; otherwise it fails with the message of the first call that raises, every call before it having succeeded |
| IngestProperties.MasterHoldsEveryStore | backend/file_processor.py:86-88 | a merge that succeeds puts the texts of every store into the master store in file order, each store's texts right after those of the stores before it |
| IngestProperties.MergeSucceedsWhenNoMergeRaises | backend/file_processor.py:86-88 | when no `merge_from` call raises, the merge yields the texts of all the stores in file order |
| IngestProperties.MergeAsWrittenRejectsSeveralStores | backend/file_processor.py:87-88 | as written, with two or more stores the merge raises whatever the stores hold |
| IngestProperties.AsWrittenMergeIsAlwaysRaising | backend/file_processor.py:86-88 | the as-written merge equals the store-by-store merge whose every `merge_from` call raises with the list's error |
| IngestProperties.AsWrittenJobFailsAtMerge | backend/file_processor.py:82-106 | as written, a job where no file raises and two or more files yield a store fails with the list's error; its last two writes are "Merging knowledge bases..." and the failure; the per-file stores stay saved under their ids |
| IngestProperties.TwoUsableFilesCounterexample | backend/file_processor.py:86-88 | two stores ["a"] and ["b"] with merges that never raise: as written the merge fails, as intended it yields ["a", "b"] |
| IngestProperties.EmptyUploadFails | backend/file_processor.py:54-55 | with no file to process the job fails with "No files were found...", writing only the start and the failure, saving nothing |
| IngestProperties.JobOutcomeCases | backend/file_processor.py:54-106 | the job completes exactly when there are files, none raises, one yields a store and the merge of the kept stores succeeds; otherwise it fails with the no-files message, the first raising file's message, the no-usable-text message, or the failing merge's message |
| IngestProperties.FirstRaisingFileFailsJob | backend/file_processor.py:96-106 | when a file raises, the job fails with the message of the first such file and no file before it raised |
| IngestProperties.CompletedJobResult | backend/file_processor.py:76-94 | on success there is one record per kept file, in file order, naming the id its store is saved under; the master id is fresh and differs from every record's id; the master store is the successful merge of the records' stores in order |
| IngestProperties.LedgerWriteDiscipline | backend/file_processor.py:49-103 | the first write is "processing"; one progress write per file looked at; every write but the last is "processing"; the last is the one terminal write, "complete" with the result or "failed" with the error; a job that reaches the merge has looked at every file and issues the merge write just before its terminal write, and only such a job completes |
| IngestProperties.NoRollback | backend/file_processor.py:76-106 | stores go only under fresh ids, so earlier stores are never overwritten; a failed job leaves saved exactly the stores of the files kept before the first raising file (all kept files when the merge failed) |
| IngestProperties.JobEndsReadable | backend/file_processor.py:94-103 | when the job's terminal write succeeds (whatever became of the earlier ones), its id reads as "complete" with the result exactly when it completed, and as "failed" otherwise |
| IngestProperties.LostTerminalWriteLeavesProcessing | backend/file_processor.py:85-103 | when the terminal write cannot open the status file and the write before it succeeded, the id keeps reading as that "processing" record |

## Left out

- FailedWrite: the failure details end with `traceback.format_exc()`. The traceback depends on the running interpreter and is not modelled. The model's details are the text before it: "An error occurred: ", the message and "\n\n".
- Lower: folds ASCII letters only. Python's `str.lower` folds more. No non-ASCII character lower-cases to one of `.`, `p`, `d`, `f`, `o`, `c`, `x`, so dispatch is the same.
- `_extract_text_from_txt` and `_extract_text_from_csv` are left out. Dispatch never calls them: only `.pdf` and `.docx` are handled.
- The job's ledger writes are returned as a log rather than issued against a `Ledger` object. `update_job_status` never raises, so the job's course does not depend on the writes. `JobLedger.Replay` gives the effect of the log on the jobs directory.
- Status records are datatypes, not JSON. JSON serialisation is not modelled. `json.load` errors other than `IOError` and `JSONDecodeError` are not modelled.
- `uuid4` is modelled as a counter that never reissues an id. Only freshness matters to the job.
- MergeFrom: a successful `merge_from` is modelled through the texts it appends; the FAISS index, docstore and id map it also merges are not modelled. Why a call raises is left to the `mergeError` parameter.
- The as-written merge of line 88 is modelled as `Job` with `mergeError` set to `Ingest.AlwaysRaises`, not as a separate job function; `IngestProperties.AsWrittenMergeIsAlwaysRaising` shows the two agree.
- Failures of `save_local`, of `mkdir`, of `uuid4` and of `shutil.rmtree` are not modelled.
- Exceptions from `Path.glob` and from `time.sleep` are not modelled.
- The builder is an arbitrary function. The job hands it only text with a non-whitespace character (`IngestProperties.KeptIff`). So the builder's own guard against blank text never fires here and is not modelled.
- The text splitter and embeddings are not modelled: a store is seen only through the texts it holds.
- Enumeration order of `glob("**/*")` is the order of the entries sequence given to the model. Directories appear as entries that are not regular files.
- `time.sleep`, `print` and the re-raise to the server's logger are not modelled beyond the job's outcome `Raised`.
- Concurrency is not modelled. Jobs run as background tasks, and several jobs writing at once are seen only through `JobLedger.ReplayLeavesOtherJobs`.
- The HTTP routes (routes/), the Streamlit UI (ui.py), app.py, backend/chat_engine.py, backend/config.py and backend/vectorstore_manager.py are not part of this model. The same goes for the ZIP extraction in routes/api_process.py: it is a single `extractall`, with no handling of corrupt archives.

## Findings

| source | as written | input that shows it | evidently intended | confidence | as-written member | corrected member |
|---|---|---|---|---|---|---|
| backend/file_processor.py:88 | `master_store.merge_from(in_memory_stores[1:])` hands a list to `merge_from`, whose target is a single store (langchain's `FAISS.merge_from(target)` reads `target.index`), so the call raises and the job fails after "Merging knowledge bases...", with the per-file stores already saved | an upload with two files that each yield a store | merge each remaining store into the master in turn, so the master holds the texts of every kept file | not executed; rests on the documented signature of langchain's `FAISS.merge_from` | IngestProperties.AsWrittenJobFailsAtMerge | IngestProperties.MergeSucceedsWhenNoMergeRaises |
