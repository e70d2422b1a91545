/** The Celery task `parse_file_task` of `app/workers.py`: the status and progress values it
    commits while it works on one file. */
module Workers {
  import opened Wrappers
  import opened ParseUtils
  import opened FileTable

  /** How the task ends: it returns a completion record, or it raises. */
  datatype TaskOutcome = TaskCompleted(fileId: string) | Raised(message: string)

  /** The status and progress of the row at one `db.commit()`. */
  datatype Commit = Commit(status: FileStatus, progress: int)

  /** The message Python raises when the handler touches the attribute of a missing record. */
  const NoneStatusError: string := "'NoneType' object has no attribute 'status'"

  /** The commits of a run on an existing row, ending with `last`: `processing` at 0, the five
      progress steps, then the outcome. */
  function CommitSchedule(last: Commit): (r: seq<Commit>)
    ensures |r| == 7 && r[6] == last
    ensures forall k :: 0 <= k < 6 ==> r[k] == Commit(Processing, 20 * k)
    ensures forall a, b :: 0 <= a < b < 6 ==> r[a].progress < r[b].progress
    ensures forall k :: 0 <= k < 6 ==> 0 <= r[k].progress <= 100
  {
    seq(6, k requires 0 <= k < 6 => Commit(Processing, k * 20)) + [last]
  }

  /** What the outer `except` clause leaves behind: the exception that leaves the task, the
      row it commits (if any), and the paths still on disk. */
  datatype Handled = Handled(outcome: TaskOutcome, committed: Option<FileRow>, diskAfter: set<string>)

  /** The outer `except` clause as written, entered with `error` and with `record` the value
      the query bound to `file_record` (`None` for an unknown id). The name is always bound by
      then, so a missing record is dereferenced: the new exception skips the cleanup. */
  function HandleFailure(record: Option<FileRow>, error: string, disk: set<string>, filePath: string)
    : (r: Handled)
    ensures record.Some? ==>
              && r.outcome == Raised(error)
              && r.committed == Some(record.value.(status := Failed, errorMessage := Some(error)))
              && r.diskAfter == disk - {filePath}
    ensures record.None? ==> r.outcome == Raised(NoneStatusError) && r.committed == None && r.diskAfter == disk
  {
    match record
    case None => Handled(Raised(NoneStatusError), None, disk)
    case Some(row) => Handled(Raised(error), Some(row.(status := Failed, errorMessage := Some(error))), disk - {filePath})
  }

  /** As written, a task for an unknown id leaves its temporary upload on disk, and the
      caller sees an attribute error instead of the missing-record error. */
  lemma MissingRecordLeaksTempFile(error: string, disk: set<string>, filePath: string)
    requires error != NoneStatusError
    ensures var r := HandleFailure(None, error, disk, filePath);
            (filePath in disk ==> filePath in r.diskAfter) && r.outcome != Raised(error)
  {
  }

  /** The `except` clause as intended: the row is marked failed only when there is one, the
      temporary file is removed on every failure, and the original error propagates. */
  function HandleFailureCorrected(record: Option<FileRow>, error: string, disk: set<string>, filePath: string)
    : (r: Handled)
    ensures r.outcome == Raised(error)
    ensures filePath !in r.diskAfter && r.diskAfter == disk - {filePath}
    ensures r.committed.Some? <==> record.Some?
    ensures record.Some? ==> r.committed == Some(record.value.(status := Failed, errorMessage := Some(error)))
  {
    Handled(Raised(error),
            if record.Some? then Some(record.value.(status := Failed, errorMessage := Some(error))) else None,
            disk - {filePath})
  }

  /** The two handlers differ exactly on a missing record, except where the missing-record
      error happens to read like the attribute error and there is no file to remove. */
  lemma {:induction false} CorrectionOnlyForMissingRecord(record: Option<FileRow>, error: string,
                                                          disk: set<string>, filePath: string)
    ensures HandleFailure(record, error, disk, filePath) == HandleFailureCorrected(record, error, disk, filePath)
            <==> record.Some? || (error == NoneStatusError && filePath !in disk)
  {
    if record.None? && filePath in disk {
      assert filePath in HandleFailure(record, error, disk, filePath).diskAfter;
      assert filePath !in HandleFailureCorrected(record, error, disk, filePath).diskAfter;
    }
  }

  /** Runs the task for `fileId` as written; `readers` stands for the file on disk and the
      parsing libraries, `disk` for the paths present before the task. Returns the outcome, the
      commits in order, and the paths present afterwards. */
  method ParseFileTask(table: Table, fileId: string, filePath: string, fileType: string,
                       readers: FileReaders, disk: set<string>)
    returns (outcome: TaskOutcome, commits: seq<Commit>, diskAfter: set<string>)
    modifies table
    ensures |table.rows| == |old(table.rows)|
    ensures FindRow(old(table.rows), fileId) == -1 ==>
              && table.rows == old(table.rows) && commits == [] && diskAfter == disk
              && outcome == Raised(NoneStatusError)
    ensures FindRow(old(table.rows), fileId) != -1 ==>
              var i := FindRow(old(table.rows), fileId);
              && filePath !in diskAfter && diskAfter == disk - {filePath}
              && (forall j :: 0 <= j < |table.rows| && j != i ==> table.rows[j] == old(table.rows)[j])
              && match ParseFileByType(filePath, fileType, readers)
                 case Ok(content) =>
                   && table.rows[i] == old(table.rows)[i].(status := Ready, progress := 100,
                                                          parsedContent := Some(content), errorMessage := None)
                   && commits == CommitSchedule(Commit(Ready, 100))
                   && outcome == TaskCompleted(fileId)
                 case Err(message) =>
                   && table.rows[i] == old(table.rows)[i].(status := Failed, progress := 0,
                                                          errorMessage := Some(message))
                   && commits == CommitSchedule(Commit(Failed, 0))
                   && outcome == Raised(message)
  {
    var i := FindRow(table.rows, fileId);
    if i == -1 {
      var handled := HandleFailure(None, "File record not found", disk, filePath);
      outcome, diskAfter := handled.outcome, handled.diskAfter;
      commits := [];
      return;
    }
    table.rows := table.rows[i := table.rows[i].(status := Processing, progress := 0)];
    commits := [Commit(Processing, 0)];
    for step := 1 to 6
      invariant |table.rows| == |old(table.rows)|
      invariant forall j :: 0 <= j < |table.rows| && j != i ==> table.rows[j] == old(table.rows)[j]
      invariant table.rows[i] == old(table.rows)[i].(status := Processing, progress := (step - 1) * 20)
      invariant commits == seq(step, k requires 0 <= k < step => Commit(Processing, k * 20))
    {
      table.rows := table.rows[i := table.rows[i].(progress := step * 20)];
      commits := commits + [Commit(table.rows[i].status, table.rows[i].progress)];
    }
    match ParseFileByType(filePath, fileType, readers) {
      case Ok(content) =>
        table.rows := table.rows[i := table.rows[i].(parsedContent := Some(content), status := Ready,
                                                     progress := 100, errorMessage := None)];
        outcome := TaskCompleted(fileId);
        diskAfter := disk - {filePath};
      case Err(message) =>
        // the inner handler marks the row and re-raises; the outer handler marks it again
        table.rows := table.rows[i := table.rows[i].(status := Failed, errorMessage := Some(message), progress := 0)];
        var handled := HandleFailure(Some(table.rows[i]), message, disk, filePath);
        table.rows := table.rows[i := handled.committed.value];
        outcome, diskAfter := handled.outcome, handled.diskAfter;
    }
    commits := commits + [Commit(table.rows[i].status, table.rows[i].progress)];
  }
}
