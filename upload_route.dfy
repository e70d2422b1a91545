/** The upload handler of `app/api/files/route.ts`: record creation, and the monitoring
    tick that mirrors an external job's state into the file record. */
module UploadRoute {
  import opened Wrappers
  import opened FileRecords

  /** The job states reported by the external queue. */
  datatype JobStatus = Queued | Running | Done | Failed
  {
    predicate IsTerminal() { this == Done || this == Failed }
  }

  /** What the monitor reads from the queue for one job. */
  datatype Job = Job(status: JobStatus, progress: real)

  /** A multipart upload; `content` is `None` when reading the file's text failed. */
  datatype Upload = Upload(name: string, size: int, mimeType: string, content: Option<string>)

  /** The handler's answer: 400, 500, or the created record. */
  datatype PostResponse = NoFile | UploadFailed | Uploaded(fileId: string, jobId: string, file: StoredFile)

  /** The interval between monitoring ticks and the hard expiry of the monitor, in milliseconds. */
  const MonitorIntervalMs: nat := 500
  const MonitorTimeoutMs: nat := 5 * 60 * 1000
  /** The most ticks a monitor can run before its expiry clears it. */
  const MaxMonitorTicks: nat := MonitorTimeoutMs / MonitorIntervalMs

  /** The record created for an upload whose text was read, before its job id is known. */
  function NewRecord(u: Upload, id: string, now: string, text: string): (r: StoredFile)
    ensures r.id == id && r.name == u.name && r.size == u.size && r.content == Some(text)
    ensures r.status == Processing && r.progress == 0.0 && r.jobId == None
    ensures r.mimeType != "" && (u.mimeType != "" ==> r.mimeType == u.mimeType)
    ensures u.mimeType == "" ==> r.mimeType == OctetStream
  {
    StoredFile(id, u.name, u.size, Processing, 0.0, now,
               if u.mimeType == "" then OctetStream else u.mimeType, Some(text), None)
  }

  /** Two records agree on everything except `status` and `progress`. */
  predicate SameFile(a: StoredFile, b: StoredFile)
  {
    a.id == b.id && a.name == b.name && a.size == b.size && a.uploadedAt == b.uploadedAt
    && a.mimeType == b.mimeType && a.content == b.content && a.jobId == b.jobId
  }

  /** The `switch (job.status)` of the monitor: the file record after mirroring `job`. */
  function Mirror(f: StoredFile, job: Job): (r: StoredFile)
    ensures SameFile(r, f)
    ensures job.status == Running ==> r.status == Processing && r.progress == job.progress
    ensures job.status == Done ==> r.status == Completed && r.progress == 100.0
    ensures job.status == Failed ==> r.status == Error && r.progress == 0.0
    ensures job.status == Queued ==> r == f
  {
    match job.status
    case Running => f.(status := Processing, progress := job.progress)
    case Done => f.(status := Completed, progress := 100.0)
    case Failed => f.(status := Error, progress := 0.0)
    case Queued => f
  }

  /** A record obeys the display invariant: progress is a percentage, and a completed
      file shows 100. */
  predicate WellFormed(f: StoredFile)
  {
    0.0 <= f.progress <= 100.0 && (f.status == Completed ==> f.progress == 100.0)
  }

  /** One monitoring tick: the store afterwards, and whether the interval keeps running. */
  function MonitorStep(files: seq<StoredFile>, fileId: string, job: Option<Job>): (r: (seq<StoredFile>, bool))
    ensures |r.0| == |files|
    ensures forall i :: 0 <= i < |files| ==> SameFile(r.0[i], files[i])
    ensures forall i :: 0 <= i < |files| && i != FindIndex(files, fileId) ==> r.0[i] == files[i]
    ensures job.None? || FindIndex(files, fileId) == -1 ==> r == (files, false)
    ensures r.1 <==> job.Some? && FindIndex(files, fileId) != -1 && !job.value.status.IsTerminal()
    ensures job.Some? && FindIndex(files, fileId) != -1 ==>
              r.0[FindIndex(files, fileId)] == Mirror(files[FindIndex(files, fileId)], job.value)
    ensures (job.Some? && 0.0 <= job.value.progress <= 100.0 && forall i :: 0 <= i < |files| ==> WellFormed(files[i]))
              ==> (forall i :: 0 <= i < |files| ==> WellFormed(r.0[i]))
  {
    var i := FindIndex(files, fileId);
    if job.None? || i == -1 then (files, false)
    else (files[i := Mirror(files[i], job.value)], !job.value.status.IsTerminal())
  }

  /** Records with the same ids are searched alike. */
  lemma {:induction false} FindIndexSameIds(a: seq<StoredFile>, b: seq<StoredFile>, id: string)
    requires |a| == |b| && forall i :: 0 <= i < |a| ==> a[i].id == b[i].id
    ensures FindIndex(a, id) == FindIndex(b, id)
  {
    if a != [] && a[0].id != id {
      FindIndexSameIds(a[1..], b[1..], id);
    }
  }

  /** The monitored record through the successive job snapshots its ticks read, cut off
      after `budget` ticks: the record at the end and the number of ticks that ran. */
  function Session(f: StoredFile, snapshots: seq<Option<Job>>, budget: nat): (r: (StoredFile, nat))
    ensures r.1 <= budget && r.1 <= |snapshots|
    ensures SameFile(r.0, f)
    ensures budget > 0 && snapshots != [] ==> r.1 >= 1
    decreases |snapshots|
  {
    if budget == 0 || snapshots == [] then (f, 0)
    else if snapshots[0].None? then (f, 1)
    else
      var g := Mirror(f, snapshots[0].value);
      if snapshots[0].value.status.IsTerminal() then (g, 1)
      else
        var rest := Session(g, snapshots[1..], budget - 1);
        (rest.0, rest.1 + 1)
  }

  /** A whole monitoring session over the store: the store at the end and the number of
      ticks that ran. Only the monitored record is ever written. */
  function Watch(files: seq<StoredFile>, fileId: string, snapshots: seq<Option<Job>>, budget: nat)
    : (r: (seq<StoredFile>, nat))
    ensures r.1 <= budget && r.1 <= |snapshots|
    ensures |r.0| == |files|
    ensures forall i :: 0 <= i < |files| ==> SameFile(r.0[i], files[i])
    ensures forall i :: 0 <= i < |files| && i != FindIndex(files, fileId) ==> r.0[i] == files[i]
  {
    var i := FindIndex(files, fileId);
    if budget == 0 || snapshots == [] then (files, 0)
    else if i == -1 then (files, 1)
    else
      var s := Session(files[i], snapshots, budget);
      (files[i := s.0], s.1)
  }

  /** A session is the interval's ticks run one after another: the first tick is a
      `MonitorStep`, and when it keeps watching the rest is a session over the store it left. */
  lemma WatchIsRepeatedTicks(files: seq<StoredFile>, fileId: string, snapshots: seq<Option<Job>>, budget: nat)
    requires budget > 0 && snapshots != []
    ensures !MonitorStep(files, fileId, snapshots[0]).1 ==>
              Watch(files, fileId, snapshots, budget) == (MonitorStep(files, fileId, snapshots[0]).0, 1)
    ensures MonitorStep(files, fileId, snapshots[0]).1 ==>
              var rest := Watch(MonitorStep(files, fileId, snapshots[0]).0, fileId, snapshots[1..], budget - 1);
              Watch(files, fileId, snapshots, budget) == (rest.0, rest.1 + 1)
  {
    var i := FindIndex(files, fileId);
    var step := MonitorStep(files, fileId, snapshots[0]);
    if i != -1 && snapshots[0].Some? {
      var g := Mirror(files[i], snapshots[0].value);
      assert step.0 == files[i := g];
      if step.1 {
        FindIndexSameIds(step.0, files, fileId);
        var rest := Session(g, snapshots[1..], budget - 1);
        assert Session(files[i], snapshots, budget) == (rest.0, rest.1 + 1);
        if budget - 1 > 0 && snapshots[1..] != [] {
          assert step.0[i := rest.0] == files[i := rest.0];
        } else {
          assert rest.0 == g;
        }
      }
    } else if i != -1 {
      assert files[i := files[i]] == files;
    }
  }

  /** The monitor never outlives its expiry: at most 600 ticks run. */
  lemma MonitorIsBounded(files: seq<StoredFile>, fileId: string, snapshots: seq<Option<Job>>)
    ensures Watch(files, fileId, snapshots, MaxMonitorTicks).1 <= 600
  {
  }

  /** The tick that reads a terminal or missing job is the last one of the record's session. */
  lemma {:induction false} SessionStopsAtTerminal(f: StoredFile, snapshots: seq<Option<Job>>, budget: nat, k: nat)
    requires k < Session(f, snapshots, budget).1
    requires snapshots[k].None? || snapshots[k].value.status.IsTerminal()
    ensures Session(f, snapshots, budget).1 == k + 1
    decreases k
  {
    if k > 0 {
      assert snapshots[1..][k - 1] == snapshots[k];
      SessionStopsAtTerminal(Mirror(f, snapshots[0].value), snapshots[1..], budget - 1, k - 1);
    }
  }

  /** The tick that reads a terminal job (or a missing job or file) is the last one:
      nothing is written after a terminal state has been mirrored. */
  lemma WatchStopsAtTerminal(
    files: seq<StoredFile>, fileId: string, snapshots: seq<Option<Job>>, budget: nat, k: nat)
    requires k < Watch(files, fileId, snapshots, budget).1
    requires snapshots[k].None? || snapshots[k].value.status.IsTerminal()
    ensures Watch(files, fileId, snapshots, budget).1 == k + 1
  {
    var i := FindIndex(files, fileId);
    if i != -1 {
      SessionStopsAtTerminal(files[i], snapshots, budget, k);
    }
  }

  /** The module-level `files` array of this route and its handlers. */
  class FilesRoute {
    var files: seq<StoredFile>

    constructor(initial: seq<StoredFile>)
      ensures files == initial
    {
      files := initial;
    }

    /** `POST`: `upload` is `None` when the form has no file; `queued` is the job id the
        external queue returned, `None` when queueing threw. */
    method Post(upload: Option<Upload>, newId: string, now: string, queued: Option<string>)
      returns (resp: PostResponse)
      modifies this
      ensures upload.None? ==> resp == NoFile && files == old(files)
      ensures upload.Some? && upload.value.content.None? ==> resp == UploadFailed && files == old(files)
      ensures upload.Some? && upload.value.content.Some? && queued.None? ==>
                resp == UploadFailed
                && files == old(files) + [NewRecord(upload.value, newId, now, upload.value.content.value)]
      ensures upload.Some? && upload.value.content.Some? && queued.Some? ==>
                var rec := NewRecord(upload.value, newId, now, upload.value.content.value).(jobId := queued);
                resp == Uploaded(newId, queued.value, rec) && files == old(files) + [rec]
    {
      if upload.None? {
        return NoFile;
      }
      var u := upload.value;
      if u.content.None? {
        return UploadFailed;
      }
      var rec := NewRecord(u, newId, now, u.content.value);
      files := files + [rec];
      if queued.None? {
        return UploadFailed;
      }
      var n := |files| - 1;
      files := files[n := files[n].(jobId := queued)];
      resp := Uploaded(newId, queued.value, files[n]);
    }

    /** One tick of `monitorJobProgress`; `job` is `None` when the queue no longer knows it. */
    method MonitorTick(fileId: string, job: Option<Job>) returns (keepWatching: bool)
      modifies this
      ensures files == MonitorStep(old(files), fileId, job).0
      ensures keepWatching == MonitorStep(old(files), fileId, job).1
    {
      var i := FindIndex(files, fileId);
      if job.None? || i == -1 {
        return false;
      }
      var file := files[i];
      match job.value.status {
        case Running =>
          files := files[i := file.(status := Processing, progress := job.value.progress)];
          keepWatching := true;
        case Done =>
          files := files[i := file.(status := Completed, progress := 100.0)];
          keepWatching := false;
        case Failed =>
          files := files[i := file.(status := Error, progress := 0.0)];
          keepWatching := false;
        case Queued =>
          keepWatching := true;
      }
    }
  }
}
