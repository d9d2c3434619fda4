/**
 * The job ledger of backend/job_manager.py: one status file per job id under
 * the jobs directory, each holding a {status, details} record.
 *
 * A write replaces the whole record of one id and accepts any status in any
 * order (there is no transition check); a read of an id that was never written
 * gives a "not_found" record and a read of a damaged file an "error" record.
 * Neither operation raises: every function and method here is total.
 */
module JobLedger {

  type JobId = string

  /** The id a vector store is saved under (a uuid4 string in the source). */
  type StoreId = nat

  /** One entry of a completed job's "files" list. */
  datatype FileRecord = FileRecord(filename: string, transactionId: StoreId)

  /** The shapes of `details` the ingestion job writes. */
  datatype Details =
    | NoDetails                                           // details=None
    | Message(text: string)
    | JobResult(masterId: StoreId, files: seq<FileRecord>)  // {"master_id": ..., "files": [...]}

  datatype Record = Record(status: string, details: Details)

  /** What a status file holds: a record json.load can read back, or damaged content. */
  datatype StatusFile = Readable(record: Record) | Unreadable(readError: string)

  /**
   * How one attempt to write a status file ends. CannotOpen: creating the
   * directory or opening the file fails, and the old file is untouched.
   * FailsMidWrite: the file was opened for writing (so truncated) and
   * json.dump raised part way, leaving content json.load rejects with readError.
   */
  datatype WriteFault = NoFault | CannotOpen | FailsMidWrite(readError: string)

  const NotFound := Record("not_found", Message("Job ID not found."))

  function ErrorRecord(readError: string): Record
  {
    Record("error", Message("Could not read status file: " + readError))
  }

  /** get_job_status over the jobs directory. */
  function Query(files: map<JobId, StatusFile>, id: JobId): Record
  {
    if id !in files then NotFound
    else match files[id]
      case Readable(rec) => rec
      case Unreadable(e) => ErrorRecord(e)
  }

  /** The jobs directory after update_job_status(id, rec.status, rec.details) whose write ends with `fault`. */
  function Write(files: map<JobId, StatusFile>, id: JobId, rec: Record, fault: WriteFault): (r: map<JobId, StatusFile>)
    ensures forall other :: other != id ==> Query(r, other) == Query(files, other)
    ensures fault.CannotOpen? ==> r == files
  {
    match fault
    case NoFault => files[id := Readable(rec)]
    case CannotOpen => files
    case FailsMidWrite(e) => files[id := Unreadable(e)]
  }

  /** A successful write is read back exactly, whatever the id held before. */
  lemma ReadAfterWrite(files: map<JobId, StatusFile>, id: JobId, rec: Record)
    ensures Query(Write(files, id, rec, NoFault), id) == rec
  {
  }

  /** An id that was never written reads as the not_found sentinel. */
  lemma UnknownIdIsNotFound(files: map<JobId, StatusFile>, id: JobId)
    requires id !in files
    ensures Query(files, id) == NotFound
  {
  }

  /** A write replaces the whole record: nothing of the earlier details survives. */
  lemma WriteReplacesRecord(files: map<JobId, StatusFile>, id: JobId, first: Record, second: Record)
    ensures Query(Write(Write(files, id, first, NoFault), id, second, NoFault), id) == second
  {
    ReadAfterWrite(Write(files, id, first, NoFault), id, second);
  }

  /**
   * There is no transition check: a job already marked complete or failed can
   * be set back to processing (or anything else) by a later write.
   */
  lemma TerminalStatusCanBeOverwritten(files: map<JobId, StatusFile>, id: JobId, later: Record)
    requires Query(files, id).status in {"complete", "failed"}
    ensures Query(Write(files, id, later, NoFault), id).status == later.status
  {
    ReadAfterWrite(files, id, later);
  }

  /** A write that fails after truncating the file makes the record read as an error, not an exception. */
  lemma DamagedFileReadsAsError(files: map<JobId, StatusFile>, id: JobId, rec: Record, readError: string)
    ensures Query(Write(files, id, rec, FailsMidWrite(readError)), id) == ErrorRecord(readError)
  {
  }

  /** The jobs directory after the writes for one id, in order, each ending with the matching fault. */
  function Replay(files: map<JobId, StatusFile>, id: JobId, writes: seq<Record>, faults: seq<WriteFault>): map<JobId, StatusFile>
    requires |faults| == |writes|
  {
    if writes == [] then files
    else
      var n := |writes| - 1;
      Write(Replay(files, id, writes[..n], faults[..n]), id, writes[n], faults[n])
  }

  /**
   * Writes for one id never disturb another id, however each write ends.
   */
  lemma {:induction false} ReplayLeavesOtherJobs(files: map<JobId, StatusFile>, id: JobId, writes: seq<Record>, faults: seq<WriteFault>, other: JobId)
    requires |faults| == |writes| && other != id
    ensures Query(Replay(files, id, writes, faults), other) == Query(files, other)
  {
    if writes != [] {
      var n := |writes| - 1;
      ReplayLeavesOtherJobs(files, id, writes[..n], faults[..n], other);
    }
  }

  /**
   * Each write is a complete record: when the last write of a sequence
   * succeeds, the id reads as exactly that write, whatever the earlier writes
   * left behind (including a damaged file).
   */
  lemma LastSuccessfulWriteWins(files: map<JobId, StatusFile>, id: JobId, writes: seq<Record>, faults: seq<WriteFault>)
    requires |faults| == |writes| && writes != [] && faults[|faults| - 1] == NoFault
    ensures Query(Replay(files, id, writes, faults), id) == writes[|writes| - 1]
  {
  }

  /** When no write fails, the id reads as the last write of the sequence. */
  lemma {:induction false} FaultFreeReplayReadsLast(files: map<JobId, StatusFile>, id: JobId, writes: seq<Record>)
    requires writes != []
    ensures Query(Replay(files, id, writes, seq(|writes|, _ => NoFault)), id) == writes[|writes| - 1]
  {
    LastSuccessfulWriteWins(files, id, writes, seq(|writes|, _ => NoFault));
  }

  /** The jobs directory (settings.jobs_dir) as shared, updated state. */
  class Ledger {
    var files: map<JobId, StatusFile>

    constructor ()
      ensures files == map[]
    {
      files := map[];
    }

    /** update_job_status: overwrite the record of `id`; a failed write is only reported, never raised. */
    method UpdateJobStatus(id: JobId, status: string, details: Details, fault: WriteFault)
      modifies this
      ensures files == Write(old(files), id, Record(status, details), fault)
      ensures fault == NoFault ==> GetRecord(id) == Record(status, details)
      ensures forall other :: other != id ==> GetRecord(other) == Query(old(files), other)
    {
      match fault {
        case NoFault =>
          files := files[id := Readable(Record(status, details))];
        case CannotOpen =>
        case FailsMidWrite(e) =>
          files := files[id := Unreadable(e)];
      }
    }

    /** What get_job_status(id) returns in the current state. */
    function GetRecord(id: JobId): Record
      reads this
    {
      Query(files, id)
    }

    /** get_job_status. */
    method GetJobStatus(id: JobId) returns (r: Record)
      ensures id !in files ==> r == NotFound
      ensures id in files && files[id].Readable? ==> r == files[id].record
      ensures id in files && files[id].Unreadable? ==> r.status == "error"
      ensures r == GetRecord(id)
    {
      if id !in files {
        r := NotFound;
      } else {
        match files[id] {
          case Readable(rec) =>
            r := rec;
          case Unreadable(e) =>
            r := ErrorRecord(e);
        }
      }
    }
  }
}
