/**
 * run_processing_job of backend/file_processor.py: the background job that
 * turns the files of one upload directory into per-file vector stores and one
 * merged master store, reporting progress to the job ledger.
 *
 * `Job` is the specification, a function of the directory listing, the
 * libraries (`Env`) and the state of the store-id oracle. `RunProcessingJob`
 * runs the job step by step over the files, saving stores into a
 * `StoreDirectory` and removing its `WorkDir` on every exit path; its
 * postcondition says it does exactly what `Job` describes.
 *
 * The ledger writes the job issues (update_job_status never raises, so the
 * job's course does not depend on how they end) are returned in order as a
 * log; JobLedger.Replay applies such a log to the jobs directory.
 *
 * Line 88 hands merge_from the list of the remaining stores, where the
 * library takes one store. `Job` merges one store at a time (`MergeAll`),
 * each call raising or not as `Env.mergeError` says. The program as written
 * is the instance of `Job` whose mergeError always raises: `MergeAsWritten`
 * is `MergeAll` with `AlwaysRaises` (IngestProperties.AsWrittenMergeIsAlwaysRaising).
 */
module Ingest {
  import opened Wrappers
  import opened Text
  import opened JobLedger
  import opened Extractors

  /** One path yielded by a recursive glob of the job directory: its final component, whether it is a regular file, its bytes. */
  datatype Entry = Entry(name: string, isFile: bool, content: seq<bv8>)

  /** A FAISS vector store, seen through the texts it indexes, in insertion order. */
  datatype Store = Store(chunks: seq<string>)

  /**
   * The libraries the job calls, as functions of what they are given:
   * pdfPages and docxParagraphs stand for opening a file with fitz or
   * python-docx (the texts of its pages or paragraphs, or the exception
   * raised); build stands for create_vector_store_from_text (a store, None,
   * or the exception raised while embedding); mergeError says whether
   * master.merge_from(target) raises for two stores, and with what message.
   */
  datatype Env = Env(
    pdfPages: seq<bv8> -> Result<seq<string>>,
    docxParagraphs: seq<bv8> -> Result<seq<string>>,
    build: string -> Result<Option<Store>>,
    mergeError: (Store, Store) -> Option<string>)

  /** The filter of line 52: regular files, without macOS "._" companions and ".DS_Store". */
  predicate IsConsidered(e: Entry)
  {
    e.isFile && !(|e.name| >= 2 && e.name[..2] == "._") && e.name != ".DS_Store"
  }

  /** files_to_process: the considered entries, in enumeration order. */
  function FilesToProcess(entries: seq<Entry>): (files: seq<Entry>)
    ensures |files| <= |entries|
  {
    if entries == [] then []
    else (if IsConsidered(entries[0]) then [entries[0]] else []) + FilesToProcess(entries[1..])
  }

  /** The files processed are exactly the considered entries. */
  lemma {:induction false} FilesToProcessSpec(entries: seq<Entry>)
    ensures forall e :: e in FilesToProcess(entries) <==> e in entries && IsConsidered(e)
  {
    if entries != [] {
      FilesToProcessSpec(entries[1..]);
      assert entries == [entries[0]] + entries[1..];
    }
  }

  /** The filter keeps order: listing a + b keeps a's files, then b's. */
  lemma {:induction false} FilesToProcessAppend(a: seq<Entry>, b: seq<Entry>)
    ensures FilesToProcess(a + b) == FilesToProcess(a) + FilesToProcess(b)
  {
    if a != [] {
      assert (a + b)[1..] == a[1..] + b;
      FilesToProcessAppend(a[1..], b);
    } else {
      assert a + b == b;
    }
  }

  /**
   * Lines 64-72: the text extracted from one file; None when its suffix is
   * skipped, Err when the extractor raised. A PDF never raises.
   */
  function FileText(e: Entry, env: Env): (r: Option<Result<string>>)
    ensures r.None? <==> Dispatch(e.name) == Unsupported
    ensures Dispatch(e.name) == Pdf ==> r.Some? && r.value.Ok?
    ensures r.Some? && r.value.Err? ==> Dispatch(e.name) == Docx && env.docxParagraphs(e.content).Err?
  {
    match Dispatch(e.name)
    case Pdf => Some(Ok(ExtractPdf(env.pdfPages(e.content))))
    case Docx => Some(ExtractDocx(env.docxParagraphs(e.content)))
    case Unsupported => None
  }

  /** What the job does with one file: nothing, keep a store for it, or stop with an exception. */
  datatype FileOutcome = Skipped | Kept(store: Store) | Raises(error: string)

  /** Lines 64-80 for one file. */
  function OutcomeOf(e: Entry, env: Env): (r: FileOutcome)
    ensures r.Kept? ==>
      var t := FileText(e, env);
      t.Some? && t.value.Ok? && HasText(t.value.value) && env.build(t.value.value) == Ok(Some(r.store))
  {
    match FileText(e, env)
    case None => Skipped
    case Some(Err(m)) => Raises(m)
    case Some(Ok(text)) =>
      if !HasText(text) then Skipped
      else match env.build(text)
        case Err(m) => Raises(m)
        case Ok(None) => Skipped
        case Ok(Some(s)) => Kept(s)
  }

  /** The job's working state while it goes over the files. */
  datatype Acc = Acc(
    records: seq<FileRecord>,       // processed_files_info
    stores: seq<Store>,             // in_memory_stores
    saved: map<StoreId, Store>,     // stores saved under db_dir by this job so far
    nextId: StoreId,                // the id the oracle will issue next
    writes: seq<Record>,            // ledger writes so far, in order
    error: Option<string>)          // the exception that stopped the loop, if any

  const StartWrite := Record("processing", Message("Starting file analysis..."))
  const MergingWrite := Record("processing", Message("Merging knowledge bases..."))
  const NoFilesError := "No files were found in the uploaded archive to process."
  const NoTextError := "No usable text could be extracted from any of the provided files."

  /** The progress write of line 62 for file i (0-based) of total. */
  function ProgressWrite(i: nat, total: nat, filename: string): Record
  {
    Record("processing", Message("Processing file " + Decimal(i + 1) + "/" + Decimal(total) + ": " + filename))
  }

  /** The terminal write of the except branch (the traceback text that follows is not modelled). */
  function FailedWrite(error: string): Record
  {
    Record("failed", Message("An error occurred: " + error + "\n\n"))
  }

  function CompleteWrite(masterId: StoreId, files: seq<FileRecord>): Record
  {
    Record("complete", JobResult(masterId, files))
  }

  function Start(firstId: StoreId): Acc
  {
    Acc([], [], map[], firstId, [StartWrite], None)
  }

  /** The outcome of each file, in order. */
  function Outcomes(files: seq<Entry>, env: Env): (outs: seq<FileOutcome>)
    ensures |outs| == |files|
  {
    seq(|files|, j requires 0 <= j < |files| => OutcomeOf(files[j], env))
  }

  /** One iteration of the loop of lines 60-80, for file i of total, named `name`, whose outcome is `out`. */
  function Step(acc: Acc, name: string, i: nat, total: nat, out: FileOutcome): Acc
  {
    var acc := acc.(writes := acc.writes + [ProgressWrite(i, total, name)]);
    match out
    case Skipped => acc
    case Raises(m) => acc.(error := Some(m))
    case Kept(s) =>
      acc.(records := acc.records + [FileRecord(name, acc.nextId)],
           stores := acc.stores + [s],
           saved := acc.saved[acc.nextId := s],
           nextId := acc.nextId + 1)
  }

  /**
   * The state after the loop has gone over the first k files, whose outcomes
   * are outs, stopping at the first exception.
   */
  function Loop(files: seq<Entry>, outs: seq<FileOutcome>, k: nat, firstId: StoreId): Acc
    requires |outs| == |files| && k <= |files|
  {
    if k == 0 then Start(firstId)
    else
      var before := Loop(files, outs, k - 1, firstId);
      if before.error.Some? then before else Step(before, files[k - 1].name, k - 1, |files|, outs[k - 1])
  }

  /** Once an exception is raised, later files are not looked at. */
  lemma {:induction false} LoopStopsAtError(files: seq<Entry>, outs: seq<FileOutcome>, k: nat, j: nat, firstId: StoreId)
    requires |outs| == |files| && k <= j <= |files| && Loop(files, outs, k, firstId).error.Some?
    ensures Loop(files, outs, j, firstId) == Loop(files, outs, k, firstId)
  {
    if j > k {
      LoopStopsAtError(files, outs, k, j - 1, firstId);
    }
  }

  /** A successful master.merge_from(target): the master store takes the target's texts after its own. */
  function MergeFrom(master: Store, target: Store): Store
  {
    Store(master.chunks + target.chunks)
  }

  /** The texts of the given stores, store after store. */
  function AllChunks(stores: seq<Store>): seq<string>
  {
    if stores == [] then [] else stores[0].chunks + AllChunks(stores[1..])
  }

  /** What can be handed to merge_from: one store, or (as line 88 does) a list of stores. */
  datatype MergeTarget = OneStore(store: Store) | StoreList(stores: seq<Store>)

  /**
   * merge_from as the store library defines it: its target is one store. A
   * list is not a FAISS store: faiss rejects its `.index` (the bound list
   * method), and the call raises (with listError).
   */
  function MergeFromTarget(master: Store, target: MergeTarget, mergeError: (Store, Store) -> Option<string>,
                           listError: string): Result<Store>
  {
    match target
    case StoreList(_) => Err(listError)
    case OneStore(s) =>
      match mergeError(master, s)
      case Some(m) => Err(m)
      case None => Ok(MergeFrom(master, s))
  }

  /** Lines 86-88 as written: the first store, with the list of the others handed to merge_from when there are any. */
  function MergeAsWritten(stores: seq<Store>, mergeError: (Store, Store) -> Option<string>, listError: string): Result<Store>
    requires stores != []
  {
    if |stores| > 1 then MergeFromTarget(stores[0], StoreList(stores[1..]), mergeError, listError) else Ok(stores[0])
  }

  /** A merge_from that raises, with the same message, whatever it is given. */
  function AlwaysRaises(message: string): (Store, Store) -> Option<string>
  {
    (master: Store, target: Store) => Some(message)
  }

  /** master.merge_from(s) for each s of others in turn, stopping at the first call that raises. */
  function MergeInto(master: Store, others: seq<Store>, mergeError: (Store, Store) -> Option<string>): Result<Store>
    decreases |others|
  {
    if others == [] then Ok(master)
    else
      match mergeError(master, others[0])
      case Some(m) => Err(m)
      case None => MergeInto(MergeFrom(master, others[0]), others[1..], mergeError)
  }

  /** Lines 86-88 as intended: the first store, merged with each of the others in file order. */
  function MergeAll(stores: seq<Store>, mergeError: (Store, Store) -> Option<string>): Result<Store>
    requires stores != []
  {
    MergeInto(stores[0], stores[1..], mergeError)
  }

  /** How the job ends: complete with its result, or an exception re-raised after the failed write. */
  datatype JobOutcome = Completed(masterId: StoreId, files: seq<FileRecord>) | Raised(error: string)

  /** All the job does: its ledger writes, the stores it saves, the oracle's next id, its outcome. */
  datatype JobRun = JobRun(writes: seq<Record>, saved: map<StoreId, Store>, nextId: StoreId, outcome: JobOutcome)

  /** run_processing_job over a directory listing, with ids drawn from firstId on. */
  function Job(entries: seq<Entry>, env: Env, firstId: StoreId): JobRun
  {
    var files := FilesToProcess(entries);
    JobOn(files, Outcomes(files, env), env.mergeError, firstId)
  }

  /** The job over the files to process, whose outcomes are outs. */
  function JobOn(files: seq<Entry>, outs: seq<FileOutcome>, mergeError: (Store, Store) -> Option<string>, firstId: StoreId): JobRun
    requires |outs| == |files|
  {
    if files == [] then
      JobRun([StartWrite, FailedWrite(NoFilesError)], map[], firstId, Raised(NoFilesError))
    else
      Finish(Loop(files, outs, |files|, firstId), mergeError)
  }

  /**
   * Lines 82-103, after the loop over the files has left state a: the
   * exception it stopped at, the lack of usable text, a failing merge, or the
   * master store saved under the next id and the result written.
   */
  function Finish(a: Acc, mergeError: (Store, Store) -> Option<string>): JobRun
  {
    if a.error.Some? then
      JobRun(a.writes + [FailedWrite(a.error.value)], a.saved, a.nextId, Raised(a.error.value))
    else if a.stores == [] then
      JobRun(a.writes + [FailedWrite(NoTextError)], a.saved, a.nextId, Raised(NoTextError))
    else
      match MergeAll(a.stores, mergeError)
      case Err(m) =>
        JobRun(a.writes + [MergingWrite, FailedWrite(m)], a.saved, a.nextId, Raised(m))
      case Ok(master) =>
        var masterId := a.nextId;
        JobRun(a.writes + [MergingWrite, CompleteWrite(masterId, a.records)],
               a.saved[masterId := master], masterId + 1, Completed(masterId, a.records))
  }

  /** The job's upload directory: what globbing it yields, and whether it still exists. */
  class WorkDir {
    var entries: seq<Entry>
    var present: bool

    ghost predicate Valid()
      reads this
    {
      !present ==> entries == []
    }

    constructor (entries: seq<Entry>)
      ensures Valid() && present && this.entries == entries
    {
      this.entries := entries;
      present := true;
    }

    /** The finally block: shutil.rmtree when the directory exists. */
    method RemoveTree()
      requires Valid()
      modifies this
      ensures Valid() && !present && entries == []
    {
      if present {
        entries := [];
        present := false;
      }
    }
  }

  /**
   * settings.db_dir, where stores are saved by id, together with the id
   * oracle that stands for uuid4: it never issues an id twice nor one that
   * is already saved.
   */
  class StoreDirectory {
    var saved: map<StoreId, Store>
    var nextId: StoreId

    ghost predicate Valid()
      reads this
    {
      forall id :: id in saved ==> id < nextId
    }

    constructor ()
      ensures Valid() && saved == map[] && nextId == 0
    {
      saved := map[];
      nextId := 0;
    }

    /** str(uuid.uuid4()). */
    method NewId() returns (id: StoreId)
      requires Valid()
      modifies this
      ensures Valid() && saved == old(saved)
      ensures id == old(nextId) && nextId == id + 1 && id !in saved
    {
      id := nextId;
      nextId := nextId + 1;
    }

    /** store.save_local(db_dir / id). */
    method SaveLocal(id: StoreId, store: Store)
      requires Valid() && id < nextId
      modifies this
      ensures Valid() && nextId == old(nextId)
      ensures saved == old(saved)[id := store]
    {
      saved := saved[id := store];
    }
  }

  lemma UnionUpdate(base: map<StoreId, Store>, saved: map<StoreId, Store>, id: StoreId, store: Store)
    ensures (base + saved)[id := store] == base + saved[id := store]
  {
  }

  /**
   * Lines 61-80, one iteration of the loop over the files: the progress
   * write, extraction by suffix, and, for usable text, building, saving and
   * recording a store. `base` and `saved` only track what db held before the
   * job and what the job has saved since.
   */
  method ProcessFile(file: Entry, i: nat, total: nat, env: Env, db: StoreDirectory,
                     records: seq<FileRecord>, stores: seq<Store>, ghost base: map<StoreId, Store>,
                     ghost saved: map<StoreId, Store>, writes: seq<Record>, ghost out: FileOutcome)
    returns (records': seq<FileRecord>, stores': seq<Store>, ghost saved': map<StoreId, Store>,
             writes': seq<Record>, error: Option<string>)
    requires db.Valid() && db.saved == base + saved
    requires out == OutcomeOf(file, env)
    modifies db
    ensures db.Valid() && db.saved == base + saved'
    ensures Acc(records', stores', saved', db.nextId, writes', error)
         == Step(Acc(records, stores, saved, old(db.nextId), writes, None), file.name, i, total, out)
  {
    records', stores', saved', error := records, stores, saved, None;
    writes' := writes + [ProgressWrite(i, total, file.name)];
    ghost var before := Acc(records, stores, saved, db.nextId, writes, None);
    ghost var after := before.(writes := writes');
    var text := FileText(file, env);
    match text {
      case None =>
        assert Step(before, file.name, i, total, OutcomeOf(file, env)) == after;
      case Some(Err(m)) =>
        error := Some(m);
        assert Step(before, file.name, i, total, OutcomeOf(file, env)) == after.(error := error);
      case Some(Ok(t)) =>
        if HasText(t) {
          match env.build(t) {
            case Err(m) =>
              error := Some(m);
              assert Step(before, file.name, i, total, OutcomeOf(file, env)) == after.(error := error);
            case Ok(None) =>
              assert Step(before, file.name, i, total, OutcomeOf(file, env)) == after;
            case Ok(Some(store)) =>
              var id := db.NewId();
              db.SaveLocal(id, store);
              UnionUpdate(base, saved', id, store);
              saved' := saved'[id := store];
              records' := records' + [FileRecord(file.name, id)];
              stores' := stores' + [store];
              assert OutcomeOf(file, env) == Kept(store);
          }
        } else {
          assert Step(before, file.name, i, total, OutcomeOf(file, env)) == after;
        }
    }
  }

  /**
   * Lines 86-88 as intended: merge_from called on the first store once per
   * other store, in file order, stopping at the first call that raises.
   */
  method MergeStores(stores: seq<Store>, mergeError: (Store, Store) -> Option<string>)
    returns (master: Store, failure: Option<string>)
    requires stores != []
    ensures failure.None? <==> MergeAll(stores, mergeError).Ok?
    ensures failure.None? ==> MergeAll(stores, mergeError) == Ok(master)
    ensures failure.Some? ==> MergeAll(stores, mergeError) == Err(failure.value)
  {
    master := stores[0];
    failure := None;
    var k := 1;
    while k < |stores| && failure.None?
      invariant 1 <= k <= |stores|
      invariant failure.None? ==> MergeInto(master, stores[k..], mergeError) == MergeAll(stores, mergeError)
      invariant failure.Some? ==> MergeAll(stores, mergeError) == Err(failure.value)
    {
      assert stores[k..][0] == stores[k] && stores[k..][1..] == stores[k + 1..];
      match mergeError(master, stores[k]) {
        case Some(m) =>
          failure := Some(m);
        case None =>
          master := MergeFrom(master, stores[k]);
      }
      k := k + 1;
    }
  }

  /**
   * Lines 82-103, after the loop: raise for the loop's exception or for lack
   * of usable text, or merge, save the master store under a fresh id and
   * write the result; a raised error ends with the failed write.
   */
  method FinishJob(records: seq<FileRecord>, stores: seq<Store>, writesSoFar: seq<Record>, error: Option<string>,
                   db: StoreDirectory, env: Env, ghost base: map<StoreId, Store>, ghost saved: map<StoreId, Store>)
    returns (writes: seq<Record>, outcome: JobOutcome)
    requires db.Valid() && db.saved == base + saved
    modifies db
    ensures var run := Finish(Acc(records, stores, saved, old(db.nextId), writesSoFar, error), env.mergeError);
      writes == run.writes && outcome == run.outcome &&
      db.Valid() && db.saved == base + run.saved && db.nextId == run.nextId
  {
    writes := writesSoFar;
    var failure := error;
    outcome := Raised("");
    if failure.None? {
      if stores == [] {
        failure := Some(NoTextError);
      } else {
        writes := writes + [MergingWrite];
        var master, mergeFailure := MergeStores(stores, env.mergeError);
        if mergeFailure.Some? {
          failure := mergeFailure;
        } else {
          var masterId := db.NewId();
          db.SaveLocal(masterId, master);
          UnionUpdate(base, saved, masterId, master);
          writes := writes + [CompleteWrite(masterId, records)];
          outcome := Completed(masterId, records);
        }
      }
    }
    if failure.Some? {
      writes := writes + [FailedWrite(failure.value)];
      outcome := Raised(failure.value);
    }
  }

  /**
   * run_processing_job, with the merge of lines 86-88 done store by store:
   * returns the ledger writes for the job in order and how the job ends;
   * saves stores into db; removes the working directory on both exit paths.
   */
  method RunProcessingJob(work: WorkDir, db: StoreDirectory, env: Env) returns (writes: seq<Record>, outcome: JobOutcome)
    requires work.Valid() && db.Valid()
    modifies work, db
    ensures work.Valid() && db.Valid() && !work.present
    ensures var run := Job(old(work.entries), env, old(db.nextId));
      writes == run.writes && outcome == run.outcome &&
      db.saved == old(db.saved) + run.saved && db.nextId == run.nextId
  {
    ghost var firstId := db.nextId;
    ghost var base := db.saved;
    writes := [StartWrite];
    var files := FilesToProcess(work.entries);
    var error: Option<string> := None;
    if files == [] {
      writes := writes + [FailedWrite(NoFilesError)];
      outcome := Raised(NoFilesError);
    } else {
      var records: seq<FileRecord> := [];
      var stores: seq<Store> := [];
      ghost var saved: map<StoreId, Store> := map[];
      ghost var outs := Outcomes(files, env);
      var i := 0;
      while i < |files| && error.None?
        invariant 0 <= i <= |files|
        invariant work.Valid()
        invariant db.Valid() && db.saved == base + saved
        invariant Acc(records, stores, saved, db.nextId, writes, error) == Loop(files, outs, i, firstId)
      {
        records, stores, saved, writes, error :=
          ProcessFile(files[i], i, |files|, env, db, records, stores, base, saved, writes, outs[i]);
        i := i + 1;
      }
      if error.Some? {
        LoopStopsAtError(files, outs, i, |files|, firstId);
      }
      assert Acc(records, stores, saved, db.nextId, writes, error) == Loop(files, outs, |files|, firstId);
      writes, outcome := FinishJob(records, stores, writes, error, db, env, base, saved);
    }
    work.RemoveTree();
  }
}
