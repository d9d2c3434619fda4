/**
 * What run_processing_job guarantees, proved about its specification
 * Ingest.Job (and so, through the postcondition of RunProcessingJob, about
 * the job as it runs).
 *
 * The reference definitions here say, from the files' outcomes alone and
 * independently of the loop, which files yield a store (KeptPositions) and
 * where the first exception is raised (FirstRaise); the lemmas show that the
 * loop's records, stores, saved stores and ledger writes are exactly what
 * those definitions predict.
 */
module IngestProperties {
  import opened Wrappers
  import opened Text
  import opened JobLedger
  import opened Extractors
  import opened Ingest

  /* ---------- One file ---------- */

  /**
   * A file yields a record exactly when its suffix is handled, its extractor
   * returns text with a non-whitespace character, and the builder returns a
   * store for that text.
   */
  lemma KeptIff(e: Entry, env: Env)
    ensures OutcomeOf(e, env).Kept? <==>
      var t := FileText(e, env);
      t.Some? && t.value.Ok? && !IsBlank(t.value.value) && env.build(t.value.value).Ok? && env.build(t.value.value).value.Some?
  {
    var t := FileText(e, env);
    if t.Some? && t.value.Ok? {
      HasTextIffNonSpace(t.value.value);
    }
  }

  /** A PDF that cannot be read is skipped, not fatal: the job goes on with the next file. */
  lemma UnreadablePdfIsSkipped(e: Entry, env: Env)
    requires Dispatch(e.name) == Pdf && env.pdfPages(e.content).Err?
    ensures OutcomeOf(e, env) == Skipped
  {
  }

  /** A PDF whose pages are all blank is skipped, and never handed to the builder. */
  lemma BlankPdfIsSkipped(e: Entry, env: Env)
    requires Dispatch(e.name) == Pdf && env.pdfPages(e.content).Ok?
    requires forall k :: 0 <= k < |env.pdfPages(e.content).value| ==> IsBlank(env.pdfPages(e.content).value[k])
    ensures OutcomeOf(e, env) == Skipped
  {
    PdfTextBlankIff(env.pdfPages(e.content));
    HasTextIffNonSpace(ExtractPdf(env.pdfPages(e.content)));
  }

  /** A DOCX that cannot be read raises, with the library's message. */
  lemma UnreadableDocxRaises(e: Entry, env: Env)
    requires Dispatch(e.name) == Docx && env.docxParagraphs(e.content).Err?
    ensures OutcomeOf(e, env) == Raises(env.docxParagraphs(e.content).error)
  {
  }

  /** Every other suffix (.txt, .csv, .xlsx, none at all) is skipped without a record or an error. */
  lemma UnsupportedIsSkipped(e: Entry, env: Env)
    requires Dispatch(e.name) == Unsupported
    ensures OutcomeOf(e, env) == Skipped
  {
  }

  /* ---------- Reference definitions ---------- */

  /** The positions of the files that yield a store. */
  function KeptPositions(outs: seq<FileOutcome>): seq<nat>
  {
    if outs == [] then []
    else
      var n := |outs| - 1;
      KeptPositions(outs[..n]) + (if outs[n].Kept? then [n] else [])
  }

  /** KeptPositions lists every position that yields a store, and only those, in increasing order. */
  lemma {:induction false} KeptPositionsSpec(outs: seq<FileOutcome>)
    ensures forall j :: 0 <= j < |KeptPositions(outs)| ==>
      KeptPositions(outs)[j] < |outs| && outs[KeptPositions(outs)[j]].Kept?
    ensures forall j, l :: 0 <= j < l < |KeptPositions(outs)| ==> KeptPositions(outs)[j] < KeptPositions(outs)[l]
    ensures forall i :: 0 <= i < |outs| && outs[i].Kept? ==> i in KeptPositions(outs)
  {
    if outs != [] {
      var n := |outs| - 1;
      KeptPositionsSpec(outs[..n]);
      var front := KeptPositions(outs[..n]);
      forall j | 0 <= j < |front| ensures front[j] < n && outs[front[j]].Kept? {
        assert front[j] < n && outs[..n][front[j]].Kept?;
        assert outs[..n][front[j]] == outs[front[j]];
      }
      forall i | 0 <= i < n && outs[i].Kept? ensures i in KeptPositions(outs) {
        assert outs[..n][i] == outs[i];
      }
    }
  }

  /** The stores of the files that yield one, in file order. */
  function KeptStores(outs: seq<FileOutcome>): seq<Store>
  {
    if outs == [] then []
    else
      var n := |outs| - 1;
      KeptStores(outs[..n]) + (if outs[n].Kept? then [outs[n].store] else [])
  }

  /** Stores matching the kept positions one for one are the kept stores. */
  lemma {:induction false} KeptStoresByPosition(outs: seq<FileOutcome>, stores: seq<Store>)
    requires |stores| == |KeptPositions(outs)|
    requires forall j :: 0 <= j < |stores| ==>
      KeptPositions(outs)[j] < |outs| && outs[KeptPositions(outs)[j]] == Kept(stores[j])
    ensures stores == KeptStores(outs)
  {
    if outs != [] {
      var n := |outs| - 1;
      var front := KeptPositions(outs[..n]);
      var m := |front|;
      KeptPositionsSpec(outs[..n]);
      assert KeptPositions(outs) == front + (if outs[n].Kept? then [n] else []);
      forall j | 0 <= j < m ensures front[j] < n && outs[..n][front[j]] == Kept(stores[..m][j]) {
        assert KeptPositions(outs)[j] == front[j];
      }
      KeptStoresByPosition(outs[..n], stores[..m]);
      if outs[n].Kept? {
        assert KeptPositions(outs)[m] == n;
        assert stores == stores[..m] + [stores[m]];
      } else {
        assert stores == stores[..m];
      }
    }
  }

  /** The position of the first file that raises, or the number of files when none does. */
  function FirstRaise(outs: seq<FileOutcome>): nat
  {
    if outs == [] then 0
    else
      var n := |outs| - 1;
      var q := FirstRaise(outs[..n]);
      if q < n then q else if outs[n].Raises? then n else n + 1
  }

  /** FirstRaise is the first raising position: no file before it raises, and the file at it does. */
  lemma {:induction false} FirstRaiseSpec(outs: seq<FileOutcome>)
    ensures var p := FirstRaise(outs);
      p <= |outs| && (forall j :: 0 <= j < p ==> !outs[j].Raises?) && (p < |outs| ==> outs[p].Raises?)
  {
    if outs != [] {
      var n := |outs| - 1;
      FirstRaiseSpec(outs[..n]);
      assert forall j :: 0 <= j < n ==> outs[..n][j] == outs[j];
    }
  }

  /**
   * records and stores are, position by position, the records and stores of
   * the files at pos, under consecutive ids from firstId.
   */
  ghost predicate RecordsFor(records: seq<FileRecord>, stores: seq<Store>, files: seq<Entry>, outs: seq<FileOutcome>,
                             pos: seq<nat>, firstId: StoreId)
  {
    |records| == |pos| && |stores| == |pos| &&
    forall j :: 0 <= j < |pos| ==>
      pos[j] < |files| && pos[j] < |outs| &&
      records[j] == FileRecord(files[pos[j]].name, firstId + j) && outs[pos[j]] == Kept(stores[j])
  }

  /** The stores saved under the records' ids, in the records' order. */
  function StoresOf(saved: map<StoreId, Store>, records: seq<FileRecord>): (stores: seq<Store>)
    requires forall j :: 0 <= j < |records| ==> records[j].transactionId in saved
    ensures |stores| == |records|
  {
    seq(|records|, j requires 0 <= j < |records| => saved[records[j].transactionId])
  }

  /** saved holds exactly the given stores, under consecutive ids from firstId. */
  ghost predicate SavedExactly(saved: map<StoreId, Store>, stores: seq<Store>, firstId: StoreId)
  {
    (forall id :: id in saved <==> firstId <= id < firstId + |stores|) &&
    forall j :: 0 <= j < |stores| ==> saved[firstId + j] == stores[j]
  }

  /* ---------- The loop ---------- */

  /**
   * Bookkeeping of the loop: records and in-memory stores grow together,
   * each record names the id its store was saved under, ids are issued
   * consecutively, and what is saved is exactly the in-memory stores.
   */
  lemma {:induction false} LoopBookkeeping(files: seq<Entry>, outs: seq<FileOutcome>, k: nat, firstId: StoreId)
    requires |outs| == |files| && k <= |files|
    ensures var a := Loop(files, outs, k, firstId);
      |a.records| == |a.stores| && a.nextId == firstId + |a.stores| &&
      (forall j :: 0 <= j < |a.records| ==> a.records[j].transactionId == firstId + j) &&
      SavedExactly(a.saved, a.stores, firstId)
  {
    if k > 0 {
      LoopBookkeeping(files, outs, k - 1, firstId);
    }
  }

  /** One more kept file extends the records and stores by its record and store, under the next id. */
  lemma RecordsForExtend(records: seq<FileRecord>, stores: seq<Store>, files: seq<Entry>, outs: seq<FileOutcome>,
                         pos: seq<nat>, firstId: StoreId, n: nat, store: Store)
    requires RecordsFor(records, stores, files, outs, pos, firstId)
    requires n < |files| && n < |outs| && outs[n] == Kept(store)
    ensures RecordsFor(records + [FileRecord(files[n].name, firstId + |pos|)], stores + [store], files, outs, pos + [n], firstId)
  {
  }

  /**
   * The loop against the reference: it stops with an exception exactly when
   * one of the files looked at raises, and then with the first such file's
   * message; its records and stores are those of the files kept before the
   * first raising file (or of all files looked at); it issues one progress
   * write per file looked at, up to and including the raising one.
   */
  lemma {:induction false} LoopMatchesReference(files: seq<Entry>, outs: seq<FileOutcome>, k: nat, firstId: StoreId)
    requires |outs| == |files| && k <= |files|
    ensures var a := Loop(files, outs, k, firstId);
      var p := FirstRaise(outs[..k]);
      p <= k &&
      (p < k ==> outs[p].Raises? && a.error == Some(outs[p].error)) && (p == k ==> a.error == None) &&
      RecordsFor(a.records, a.stores, files, outs, KeptPositions(outs[..p]), firstId) &&
      |a.writes| == (if p < k then p + 2 else k + 1)
  {
    if k > 0 {
      var n := k - 1;
      var s := outs[..k];
      assert s[..n] == outs[..n];
      LoopMatchesReference(files, outs, n, firstId);
      var prev := Loop(files, outs, n, firstId);
      var q := FirstRaise(outs[..n]);
      if q < n {
        FirstRaiseSpec(outs[..n]);
        assert outs[q] == outs[..n][q];
        assert FirstRaise(s) == q;
      } else {
        LoopBookkeeping(files, outs, n, firstId);
        assert prev.error == None;
        assert Loop(files, outs, k, firstId) == Step(prev, files[n].name, n, |files|, outs[n]);
        if !outs[n].Raises? {
          assert FirstRaise(s) == k;
          assert s[..k] == s;
          assert KeptPositions(s) == KeptPositions(outs[..n]) + (if outs[n].Kept? then [n] else []);
          if outs[n].Kept? {
            RecordsForExtend(prev.records, prev.stores, files, outs, KeptPositions(outs[..n]), firstId, n, outs[n].store);
          }
        }
      }
    } else {
      assert outs[..0] == [];
    }
  }


  /** The ledger writes of the loop: the start write, then one progress write per file looked at, in order. */
  lemma {:induction false} LoopWrites(files: seq<Entry>, outs: seq<FileOutcome>, k: nat, firstId: StoreId)
    requires |outs| == |files| && k <= |files|
    ensures var a := Loop(files, outs, k, firstId);
      1 <= |a.writes| <= k + 1 && a.writes[0] == StartWrite && (a.error.None? ==> |a.writes| == k + 1) &&
      forall j :: 1 <= j < |a.writes| ==> a.writes[j] == ProgressWrite(j - 1, |files|, files[j - 1].name)
  {
    if k > 0 {
      LoopWrites(files, outs, k - 1, firstId);
    }
  }

  /* ---------- Merging ---------- */

  /** The texts of a + b are those of a, then those of b. */
  lemma {:induction false} AllChunksAppend(a: seq<Store>, b: seq<Store>)
    ensures AllChunks(a + b) == AllChunks(a) + AllChunks(b)
  {
    if a != [] {
      assert (a + b)[1..] == a[1..] + b;
      AllChunksAppend(a[1..], b);
    } else {
      assert a + b == b;
    }
  }

  /** The master store after merge_from has taken the first k of others. */
  function MergedUpTo(master: Store, others: seq<Store>, k: nat): Store
    requires k <= |others|
  {
    Store(master.chunks + AllChunks(others[..k]))
  }

  /** Taking k + 1 stores into master is taking the first, then k more. */
  lemma MergedUpToShift(master: Store, others: seq<Store>, k: nat)
    requires k < |others|
    ensures MergedUpTo(master, others, k + 1) == MergedUpTo(MergeFrom(master, others[0]), others[1..], k)
  {
    assert others[..k + 1][1..] == others[1..][..k];
  }

  /**
   * Merging store by store succeeds exactly when no merge_from call raises,
   * and then the master store holds its own texts followed by those of the
   * others in order; when a call raises, the merge fails with the message
   * of the first call that does.
   */
  lemma {:induction false} MergeIntoSpec(master: Store, others: seq<Store>, mergeError: (Store, Store) -> Option<string>)
    ensures MergeInto(master, others, mergeError).Ok? <==>
      forall k :: 0 <= k < |others| ==> mergeError(MergedUpTo(master, others, k), others[k]).None?
    ensures MergeInto(master, others, mergeError).Ok? ==>
      MergeInto(master, others, mergeError).value == Store(master.chunks + AllChunks(others))
    ensures MergeInto(master, others, mergeError).Err? ==>
      exists k :: 0 <= k < |others| &&
        (forall j :: 0 <= j < k ==> mergeError(MergedUpTo(master, others, j), others[j]).None?) &&
        mergeError(MergedUpTo(master, others, k), others[k]) == Some(MergeInto(master, others, mergeError).error)
    decreases |others|
  {
    if others != [] {
      assert MergedUpTo(master, others, 0) == master by {
        assert others[..0] == [];
      }
      if mergeError(master, others[0]).None? {
        var next := MergeFrom(master, others[0]);
        var rest := others[1..];
        MergeIntoSpec(next, rest, mergeError);
        forall k | 0 <= k < |rest|
          ensures MergedUpTo(master, others, k + 1) == MergedUpTo(next, rest, k) && others[k + 1] == rest[k]
        {
          MergedUpToShift(master, others, k);
        }
        if MergeInto(next, rest, mergeError).Err? {
          var k :| 0 <= k < |rest| &&
            (forall j :: 0 <= j < k ==> mergeError(MergedUpTo(next, rest, j), rest[j]).None?) &&
            mergeError(MergedUpTo(next, rest, k), rest[k]) == Some(MergeInto(next, rest, mergeError).error);
          forall j | 0 <= j < k + 1 ensures mergeError(MergedUpTo(master, others, j), others[j]).None? {
            if j > 0 {
              assert mergeError(MergedUpTo(next, rest, j - 1), rest[j - 1]).None?;
            }
          }
          assert mergeError(MergedUpTo(master, others, k + 1), others[k + 1]) == Some(MergeInto(master, others, mergeError).error);
        } else {
          forall k | 0 <= k < |others| ensures mergeError(MergedUpTo(master, others, k), others[k]).None? {
            if k > 0 {
              assert mergeError(MergedUpTo(next, rest, k - 1), rest[k - 1]).None?;
            }
          }
        }
      }
    }
  }

  /**
   * A merge that succeeds puts the texts of every store into the master
   * store, in file order: store k's texts sit right after those of the
   * stores before it.
   */
  lemma MasterHoldsEveryStore(stores: seq<Store>, mergeError: (Store, Store) -> Option<string>, k: nat)
    requires k < |stores| && MergeAll(stores, mergeError).Ok?
    ensures MergeAll(stores, mergeError).value.chunks == AllChunks(stores)
    ensures var off := |AllChunks(stores[..k])|;
      var merged := MergeAll(stores, mergeError).value.chunks;
      off + |stores[k].chunks| <= |merged| && merged[off..off + |stores[k].chunks|] == stores[k].chunks
  {
    MergeIntoSpec(stores[0], stores[1..], mergeError);
    assert AllChunks(stores) == stores[0].chunks + AllChunks(stores[1..]);
    var front := stores[..k + 1];
    assert stores == front + stores[k + 1..];
    AllChunksAppend(front, stores[k + 1..]);
    assert front == stores[..k] + [stores[k]];
    AllChunksAppend(stores[..k], [stores[k]]);
    assert AllChunks([stores[k]]) == stores[k].chunks by {
      assert [stores[k]][1..] == [];
    }
  }

  /** When no merge_from call raises, the merge succeeds with the texts of all stores, in file order. */
  lemma MergeSucceedsWhenNoMergeRaises(stores: seq<Store>, mergeError: (Store, Store) -> Option<string>)
    requires stores != []
    requires forall master, target :: mergeError(master, target).None?
    ensures MergeAll(stores, mergeError) == Ok(Store(AllChunks(stores)))
  {
    MergeIntoSpec(stores[0], stores[1..], mergeError);
  }

  /**
   * Line 88 as written hands merge_from the list of the other stores, which
   * is not a store: with two or more stores the merge raises, whatever the
   * stores hold.
   */
  lemma MergeAsWrittenRejectsSeveralStores(stores: seq<Store>, mergeError: (Store, Store) -> Option<string>, listError: string)
    requires |stores| >= 2
    ensures MergeAsWritten(stores, mergeError, listError) == Err(listError)
  {
  }

  /** merge_from calls that never raise. */
  function NeverRaises(master: Store, target: Store): Option<string>
  {
    None
  }

  /**
   * Two uploaded files with usable text, and merges that never raise: as
   * written the job's merge fails, as intended it yields both files' texts.
   */
  lemma TwoUsableFilesCounterexample(listError: string)
    ensures MergeAsWritten([Store(["a"]), Store(["b"])], NeverRaises, listError) == Err(listError)
    ensures MergeAll([Store(["a"]), Store(["b"])], NeverRaises) == Ok(Store(["a", "b"]))
  {
    var stores := [Store(["a"]), Store(["b"])];
    MergeSucceedsWhenNoMergeRaises(stores, NeverRaises);
    assert stores[1..][1..] == [];
    assert AllChunks(stores) == ["a", "b"];
  }

  /**
   * Lines 86-88 as written are the store-by-store merge whose every
   * merge_from call raises with the list's error.
   */
  lemma AsWrittenMergeIsAlwaysRaising(stores: seq<Store>, mergeError: (Store, Store) -> Option<string>, listError: string)
    requires stores != []
    ensures MergeAsWritten(stores, mergeError, listError) == MergeAll(stores, AlwaysRaises(listError))
  {
  }

  /* ---------- The whole job ---------- */

  /** An upload with no file to process fails at once, and no store is built or saved. */
  lemma EmptyUploadFails(entries: seq<Entry>, env: Env, firstId: StoreId)
    requires FilesToProcess(entries) == []
    ensures Job(entries, env, firstId) ==
      JobRun([StartWrite, FailedWrite(NoFilesError)], map[], firstId, Raised(NoFilesError))
  {
  }

  /** The loop over all the files, with the facts the job-level lemmas use. */
  lemma FullLoop(files: seq<Entry>, outs: seq<FileOutcome>, firstId: StoreId)
    requires |outs| == |files|
    ensures var a := Loop(files, outs, |files|, firstId);
      var p := FirstRaise(outs);
      p <= |files| &&
      (p < |files| ==> outs[p].Raises? && a.error == Some(outs[p].error)) && (p == |files| ==> a.error == None) &&
      RecordsFor(a.records, a.stores, files, outs, KeptPositions(outs[..p]), firstId) &&
      (p == |files| ==> a.stores == KeptStores(outs)) &&
      |a.writes| == (if p < |files| then p + 2 else |files| + 1) &&
      |a.records| == |a.stores| && a.nextId == firstId + |a.stores| &&
      SavedExactly(a.saved, a.stores, firstId)
  {
    LoopMatchesReference(files, outs, |files|, firstId);
    LoopBookkeeping(files, outs, |files|, firstId);
    assert outs[..|files|] == outs;
    var a := Loop(files, outs, |files|, firstId);
    if FirstRaise(outs) == |files| {
      KeptStoresByPosition(outs, a.stores);
    }
  }

  /** How the loop over all the files ends, without the record-by-record detail. */
  lemma LoopEnd(files: seq<Entry>, outs: seq<FileOutcome>, firstId: StoreId)
    requires |outs| == |files|
    ensures var a := Loop(files, outs, |files|, firstId);
      var p := FirstRaise(outs);
      p <= |files| &&
      (p < |files| ==> outs[p].Raises? && a.error == Some(outs[p].error)) &&
      (p == |files| ==> a.error == None && a.stores == KeptStores(outs)) &&
      |a.writes| == (if p < |files| then p + 2 else |files| + 1)
  {
    LoopMatchesReference(files, outs, |files|, firstId);
    assert outs[..|files|] == outs;
    var a := Loop(files, outs, |files|, firstId);
    if FirstRaise(outs) == |files| {
      KeptStoresByPosition(outs, a.stores);
    }
  }

  /** How the job ends once the loop has left state a. */
  lemma FinishOutcome(a: Acc, mergeError: (Store, Store) -> Option<string>)
    ensures Finish(a, mergeError).outcome.Completed? <==>
      a.error.None? && a.stores != [] && MergeAll(a.stores, mergeError).Ok?
    ensures a.error.Some? ==> Finish(a, mergeError).outcome == Raised(a.error.value)
    ensures a.error.None? && a.stores == [] ==> Finish(a, mergeError).outcome == Raised(NoTextError)
    ensures a.error.None? && a.stores != [] && MergeAll(a.stores, mergeError).Err? ==>
      Finish(a, mergeError).outcome == Raised(MergeAll(a.stores, mergeError).error)
  {
  }

  /** What the job saves and which id comes next, once the loop has left state a. */
  lemma FinishSaved(a: Acc, mergeError: (Store, Store) -> Option<string>)
    ensures Finish(a, mergeError).outcome.Completed? ==>
      a.error.None? && a.stores != [] && MergeAll(a.stores, mergeError).Ok? &&
      Finish(a, mergeError).outcome == Completed(a.nextId, a.records) &&
      Finish(a, mergeError).saved == a.saved[a.nextId := MergeAll(a.stores, mergeError).value] &&
      Finish(a, mergeError).nextId == a.nextId + 1
    ensures Finish(a, mergeError).outcome.Raised? ==>
      Finish(a, mergeError).saved == a.saved && Finish(a, mergeError).nextId == a.nextId
  {
  }

  /** The writes of the job once the loop has left state a: the loop's, then the merge write when the merge is reached, then the terminal write. */
  lemma FinishWrites(a: Acc, mergeError: (Store, Store) -> Option<string>)
    ensures var w := Finish(a, mergeError).writes;
      var merging := a.error.None? && a.stores != [];
      |w| == |a.writes| + (if merging then 2 else 1) && w[..|a.writes|] == a.writes &&
      (merging ==> w[|a.writes|] == MergingWrite)
    ensures var run := Finish(a, mergeError);
      var w := run.writes;
      |w| > 0 &&
      (run.outcome.Raised? ==> w[|w| - 1] == FailedWrite(run.outcome.error)) &&
      (run.outcome.Completed? ==> w[|w| - 1] == CompleteWrite(run.outcome.masterId, run.outcome.files))
  {
  }

  /**
   * How a job ends. It reaches the merge exactly when there is a file to
   * process, no file raises and at least one file yields a store, and it
   * completes exactly when, besides, the merge of those stores succeeds.
   * Otherwise it fails: for lack of files; with the message of the first
   * raising file; when nothing raised and nothing was kept, for lack of
   * usable text; or with the message of the merge_from call that raised.
   */
  lemma JobOutcomeCases(files: seq<Entry>, outs: seq<FileOutcome>, mergeError: (Store, Store) -> Option<string>,
                        firstId: StoreId)
    requires |outs| == |files|
    ensures var p := FirstRaise(outs);
      var stores := KeptStores(outs);
      var run := JobOn(files, outs, mergeError, firstId);
      (run.outcome.Completed? <==> files != [] && p == |files| && stores != [] && MergeAll(stores, mergeError).Ok?) &&
      (files == [] ==> run.outcome == Raised(NoFilesError)) &&
      (files != [] && p == |files| && stores == [] ==> run.outcome == Raised(NoTextError)) &&
      (files != [] && p == |files| && stores != [] && MergeAll(stores, mergeError).Err? ==>
        run.outcome == Raised(MergeAll(stores, mergeError).error)) &&
      (p < |files| ==> outs[p].Raises? && run.outcome == Raised(outs[p].error))
  {
    LoopEnd(files, outs, firstId);
    if files != [] {
      FinishOutcome(Loop(files, outs, |files|, firstId), mergeError);
    }
  }

  /**
   * The same in terms of the files: when some file raises, the job fails
   * with the message of the first one that does, and every file before it
   * was looked at without raising.
   */
  lemma FirstRaisingFileFailsJob(entries: seq<Entry>, env: Env, firstId: StoreId)
    ensures var files := FilesToProcess(entries);
      var p := FirstRaise(Outcomes(files, env));
      p <= |files| &&
      (p < |files| ==>
        (forall j :: 0 <= j < p ==> !OutcomeOf(files[j], env).Raises?) &&
        OutcomeOf(files[p], env).Raises? &&
        Job(entries, env, firstId).outcome == Raised(OutcomeOf(files[p], env).error))
  {
    var files := FilesToProcess(entries);
    var outs := Outcomes(files, env);
    var p := FirstRaise(outs);
    FirstRaiseSpec(outs);
    JobOutcomeCases(files, outs, env.mergeError, firstId);
    if p < |files| {
      forall j | 0 <= j < p ensures !OutcomeOf(files[j], env).Raises? {
        assert outs[j] == OutcomeOf(files[j], env);
      }
      assert outs[p] == OutcomeOf(files[p], env);
    }
  }

  /**
   * A completed job's result: one record per file that yields a store, in
   * file order, each naming the id its store is saved under; the master id is
   * fresh (after every record's id, and not an id saved before the job); the
   * master store saved under it is the merge of the files' stores in file order.
   */
  lemma CompletedJobResult(files: seq<Entry>, outs: seq<FileOutcome>, mergeError: (Store, Store) -> Option<string>,
                           firstId: StoreId)
    requires |outs| == |files| && JobOn(files, outs, mergeError, firstId).outcome.Completed?
    ensures var run := JobOn(files, outs, mergeError, firstId);
      var recs := run.outcome.files;
      recs != [] && |recs| == |KeptPositions(outs)|
    ensures var run := JobOn(files, outs, mergeError, firstId);
      var pos := KeptPositions(outs);
      var recs := run.outcome.files;
      forall j :: 0 <= j < |recs| && j < |pos| ==>
        pos[j] < |files| && recs[j].filename == files[pos[j]].name &&
        firstId <= recs[j].transactionId < run.outcome.masterId
    ensures var run := JobOn(files, outs, mergeError, firstId);
      var pos := KeptPositions(outs);
      var recs := run.outcome.files;
      forall j :: 0 <= j < |recs| && j < |pos| && pos[j] < |outs| ==>
        recs[j].transactionId in run.saved && outs[pos[j]] == Kept(run.saved[recs[j].transactionId])
    ensures var run := JobOn(files, outs, mergeError, firstId);
      var m := run.outcome.masterId;
      var recs := run.outcome.files;
      m >= firstId && m in run.saved && recs != [] &&
      (forall j :: 0 <= j < |recs| ==> recs[j].transactionId in run.saved) &&
      MergeAll(StoresOf(run.saved, recs), mergeError) == Ok(run.saved[m])
  {
    var a := Loop(files, outs, |files|, firstId);
    FullLoop(files, outs, firstId);
    FinishSaved(a, mergeError);
    assert outs[..|files|] == outs;
    RecordsWithMaster(a.records, a.stores, a.saved, a.nextId, files, outs, KeptPositions(outs), firstId,
                      MergeAll(a.stores, mergeError).value);
  }

  /**
   * The records and stores the loop leaves, once the master store is saved
   * under the next id: each record's id is below the master id and holds
   * that record's store.
   */
  lemma RecordsWithMaster(records: seq<FileRecord>, stores: seq<Store>, saved: map<StoreId, Store>, nextId: StoreId,
                          files: seq<Entry>, outs: seq<FileOutcome>, pos: seq<nat>, firstId: StoreId, master: Store)
    requires RecordsFor(records, stores, files, outs, pos, firstId)
    requires SavedExactly(saved, stores, firstId) && nextId == firstId + |stores|
    ensures var all := saved[nextId := master];
      (forall j :: 0 <= j < |records| ==>
        firstId <= records[j].transactionId < nextId && records[j].transactionId in all &&
        all[records[j].transactionId] == stores[j]) &&
      StoresOf(all, records) == stores
  {
    var all := saved[nextId := master];
    forall j | 0 <= j < |records|
      ensures records[j].transactionId == firstId + j < nextId && all[firstId + j] == stores[j]
    {
    }
  }

  /**
   * The ledger writes of any job: first the start write; then one progress
   * write per file looked at, carrying its 1-based position and the total;
   * every write but the last is "processing"; the last is the one terminal
   * write, "complete" with the result or "failed" with the error. A job that
   * reaches the merge has looked at every file and writes the merge write
   * just before its terminal write; one that does not fails having looked at
   * the files up to the first raising one (all of them when none raised).
   */
  lemma LedgerWriteDiscipline(files: seq<Entry>, outs: seq<FileOutcome>, mergeError: (Store, Store) -> Option<string>,
                              firstId: StoreId)
    requires |outs| == |files|
    ensures var p := FirstRaise(outs);
      var run := JobOn(files, outs, mergeError, firstId);
      var w := run.writes;
      var looked := if p < |files| then p + 1 else |files|;
      var merging := files != [] && p == |files| && KeptStores(outs) != [];
      |w| >= 2 && w[0] == StartWrite && looked <= |files| &&
      (forall j :: 0 <= j < |w| - 1 ==> w[j].status == "processing") &&
      (forall j :: 1 <= j <= looked ==> j < |w| && w[j] == ProgressWrite(j - 1, |files|, files[j - 1].name)) &&
      (run.outcome.Raised? ==> w[|w| - 1] == FailedWrite(run.outcome.error)) &&
      (run.outcome.Completed? ==> merging && w[|w| - 1] == CompleteWrite(run.outcome.masterId, run.outcome.files)) &&
      (merging ==> w[|w| - 2] == MergingWrite && |w| == |files| + 3) &&
      (!merging ==> run.outcome.Raised? && |w| == looked + 2)
  {
    LoopEnd(files, outs, firstId);
    LoopWrites(files, outs, |files|, firstId);
    if files != [] {
      var a := Loop(files, outs, |files|, firstId);
      var w := JobOn(files, outs, mergeError, firstId).writes;
      FinishWrites(a, mergeError);
      FinishOutcome(a, mergeError);
      assert forall j :: 0 <= j < |a.writes| ==> w[j] == a.writes[j];
    }
  }

  /**
   * Stores are saved under fresh ids only, so the job never overwrites or
   * removes a store saved before it; and a failed job leaves saved (there is
   * no rollback) exactly the stores of the files kept before the first
   * raising file, or of all kept files when it was the merge that failed.
   */
  lemma NoRollback(files: seq<Entry>, outs: seq<FileOutcome>, mergeError: (Store, Store) -> Option<string>,
                   firstId: StoreId, before: map<StoreId, Store>)
    requires |outs| == |files|
    requires forall id :: id in before ==> id < firstId
    ensures var run := JobOn(files, outs, mergeError, firstId);
      (forall id :: id in run.saved ==> firstId <= id < run.nextId) &&
      (forall id :: id in before ==> id in before + run.saved && (before + run.saved)[id] == before[id]) &&
      (forall id :: id in run.saved ==> (before + run.saved)[id] == run.saved[id])
    ensures var pos := KeptPositions(outs[..FirstRaise(outs)]);
      var run := JobOn(files, outs, mergeError, firstId);
      run.outcome.Raised? ==>
        (forall id :: id in run.saved <==> firstId <= id < firstId + |pos|) &&
        forall j :: 0 <= j < |pos| ==> pos[j] < |files| && outs[pos[j]] == Kept(run.saved[firstId + j])
  {
    FullLoop(files, outs, firstId);
    if files != [] {
      FinishSaved(Loop(files, outs, |files|, firstId), mergeError);
    }
  }

  /**
   * Replayed into the jobs directory, a job's writes leave its id reading as
   * the terminal record ("complete" with the result, or "failed") whenever
   * that last write succeeds, however the earlier writes ended.
   */
  lemma JobEndsReadable(dir: map<JobId, StatusFile>, id: JobId, files: seq<Entry>, outs: seq<FileOutcome>,
                        mergeError: (Store, Store) -> Option<string>, firstId: StoreId, faults: seq<WriteFault>)
    requires |outs| == |files|
    requires var w := JobOn(files, outs, mergeError, firstId).writes;
      |faults| == |w| && |w| > 0 && faults[|w| - 1] == NoFault
    ensures var run := JobOn(files, outs, mergeError, firstId);
      var rec := Query(Replay(dir, id, run.writes, faults), id);
      rec.status in {"complete", "failed"} &&
      (rec.status == "complete" <==> run.outcome.Completed?) &&
      (run.outcome.Completed? ==> rec.details == JobResult(run.outcome.masterId, run.outcome.files))
  {
    var run := JobOn(files, outs, mergeError, firstId);
    LedgerWriteDiscipline(files, outs, mergeError, firstId);
    LastSuccessfulWriteWins(dir, id, run.writes, faults);
  }

  /**
   * When the terminal write cannot open the status file and the write before
   * it succeeded, the id keeps reading as that earlier "processing" record:
   * the job never reads as finished.
   */
  lemma LostTerminalWriteLeavesProcessing(dir: map<JobId, StatusFile>, id: JobId, files: seq<Entry>,
                                          outs: seq<FileOutcome>, mergeError: (Store, Store) -> Option<string>,
                                          firstId: StoreId, faults: seq<WriteFault>)
    requires |outs| == |files|
    requires var w := JobOn(files, outs, mergeError, firstId).writes;
      |faults| == |w| && |w| >= 2 && faults[|w| - 2] == NoFault && faults[|w| - 1] == CannotOpen
    ensures var w := JobOn(files, outs, mergeError, firstId).writes;
      var rec := Query(Replay(dir, id, w, faults), id);
      rec == w[|w| - 2] && rec.status == "processing"
  {
    var w := JobOn(files, outs, mergeError, firstId).writes;
    var n := |w| - 1;
    LedgerWriteDiscipline(files, outs, mergeError, firstId);
    LastSuccessfulWriteWins(dir, id, w[..n], faults[..n]);
    assert w[..n][n - 1] == w[n - 1];
  }

  /**
   * The job as written (line 88 handing merge_from a list, which always
   * raises): when no file raises and two or more files yield a store, the
   * job fails with the list's error right after "Merging knowledge bases...",
   * and the per-file stores stay saved under their ids.
   */
  lemma AsWrittenJobFailsAtMerge(files: seq<Entry>, outs: seq<FileOutcome>, listError: string, firstId: StoreId)
    requires |outs| == |files| && FirstRaise(outs) == |files| && |KeptStores(outs)| >= 2
    ensures var run := JobOn(files, outs, AlwaysRaises(listError), firstId);
      var w := run.writes;
      run.outcome == Raised(listError) &&
      |w| == |files| + 3 && w[|w| - 2] == MergingWrite && w[|w| - 1] == FailedWrite(listError)
    ensures var run := JobOn(files, outs, AlwaysRaises(listError), firstId);
      var stores := KeptStores(outs);
      (forall id :: id in run.saved <==> firstId <= id < firstId + |stores|) &&
      forall j :: 0 <= j < |stores| ==> run.saved[firstId + j] == stores[j]
  {
    var stores := KeptStores(outs);
    FullLoop(files, outs, firstId);
    JobOutcomeCases(files, outs, AlwaysRaises(listError), firstId);
    LedgerWriteDiscipline(files, outs, AlwaysRaises(listError), firstId);
    assert MergeAll(stores, AlwaysRaises(listError)) == Err(listError);
    FinishSaved(Loop(files, outs, |files|, firstId), AlwaysRaises(listError));
  }
}
