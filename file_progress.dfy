/** The client-side status synchronizer of `hooks/use-file-progress.ts`: the local file
    list, the polling flag, the batch-status merge and the four user commands. */
module FileProgress {
  import opened Wrappers
  import opened Seqs
  import opened FileRecords

  /** A file chosen in the browser, before it has an id. */
  datatype LocalFile = LocalFile(name: string, size: int, mimeType: string)

  predicate IsActiveFile(f: FileItem) { f.status.IsActive() }

  /** The files the poller has to watch, in list order. */
  function ActiveFiles(files: seq<FileItem>): (r: seq<FileItem>)
    ensures forall f :: f in r <==> f in files && f.status.IsActive()
    ensures IsSubsequence(r, files)
  {
    FilterIsSubsequence(IsActiveFile, files);
    Filter(IsActiveFile, files)
  }

  /** `files.map(f => f.id)`. */
  function Ids(files: seq<FileItem>): (r: seq<string>)
    ensures |r| == |files| && forall i :: 0 <= i < |files| ==> r[i] == files[i].id
  {
    seq(|files|, i requires 0 <= i < |files| => files[i].id)
  }

  /** The id list sent to the batch status endpoint. */
  function ActiveIds(files: seq<FileItem>): (r: seq<string>)
    ensures forall id :: id in r <==> exists f :: f in files && f.id == id && f.status.IsActive()
  {
    var active := ActiveFiles(files);
    assert forall id :: id in Ids(active) <==> exists f :: f in active && f.id == id by {
      forall id | id in Ids(active)
        ensures exists f :: f in active && f.id == id
      {
        var i :| 0 <= i < |active| && Ids(active)[i] == id;
        assert active[i] in active;
      }
      forall f | f in active
        ensures f.id in Ids(active)
      {
        var i :| 0 <= i < |active| && active[i] == f;
        assert Ids(active)[i] == f.id;
      }
    }
    Ids(active)
  }

  /** The polled ids of a longer list are those of its front followed by those of its back. */
  lemma PolledIdsFollowListOrder(a: seq<FileItem>, b: seq<FileItem>)
    ensures ActiveIds(a + b) == ActiveIds(a) + ActiveIds(b)
  {
    FilterConcat(IsActiveFile, a, b);
    var x := ActiveFiles(a);
    var y := ActiveFiles(b);
    assert ActiveFiles(a + b) == x + y;
    var l := Ids(x + y);
    var rhs := Ids(x) + Ids(y);
    assert |l| == |rhs|;
    forall i | 0 <= i < |l|
      ensures l[i] == rhs[i]
    {
      if i < |x| {
        assert (x + y)[i] == x[i];
      } else {
        assert (x + y)[i] == y[i - |x|];
      }
    }
  }

  /** `statuses.find(s => s.id === id)`: the first entry for `id`. */
  function FindStatus(statuses: seq<StatusEntry>, id: string): (r: Option<StatusEntry>)
    ensures r.None? <==> forall j :: 0 <= j < |statuses| ==> statuses[j].id != id
    ensures r.Some? ==> exists j :: 0 <= j < |statuses| && statuses[j] == r.value && r.value.id == id
                                    && forall k :: 0 <= k < j ==> statuses[k].id != id
  {
    if statuses == [] then None
    else if statuses[0].id == id then Some(statuses[0])
    else
      var r := FindStatus(statuses[1..], id);
      assert r.Some? ==> exists j :: 1 <= j < |statuses| && statuses[j] == r.value && r.value.id == id
                                    && forall k :: 1 <= k < j ==> statuses[k].id != id;
      r
  }

  /** The record update for one file: only `status` and `progress` are overwritten. */
  function Reconcile(f: FileItem, statuses: seq<StatusEntry>): FileItem
  {
    match FindStatus(statuses, f.id)
    case Some(e) => f.(status := e.status, progress := e.progress)
    case None => f
  }

  /** Two records agree on everything a status update must not touch. */
  predicate SameFile(a: FileItem, b: FileItem)
  {
    a.id == b.id && a.name == b.name && a.size == b.size
    && a.uploadedAt == b.uploadedAt && a.mimeType == b.mimeType
  }

  /** Merges a batch status response into the local list. */
  function Merge(files: seq<FileItem>, statuses: seq<StatusEntry>): (r: seq<FileItem>)
    ensures |r| == |files|
    ensures forall i :: 0 <= i < |files| ==> SameFile(r[i], files[i])
    ensures forall i :: 0 <= i < |files| && (forall j :: 0 <= j < |statuses| ==> statuses[j].id != files[i].id)
              ==> r[i] == files[i]
    ensures forall i, j :: 0 <= i < |files| && 0 <= j < |statuses| && statuses[j].id == files[i].id
              && (forall k :: 0 <= k < j ==> statuses[k].id != files[i].id)
              ==> r[i].status == statuses[j].status && r[i].progress == statuses[j].progress
  {
    seq(|files|, i requires 0 <= i < |files| => Reconcile(files[i], statuses))
  }

  /** `statuses.some(s => s.status === "uploading" || s.status === "processing")`. */
  predicate StillActive(statuses: seq<StatusEntry>)
    ensures StillActive(statuses) <==> exists i :: 0 <= i < |statuses| && statuses[i].status.IsActive()
  {
    exists s :: s in statuses && s.status.IsActive()
  }

  /** `prev.map(f => f.id === id ? { ...f, status, progress } : f)`. */
  function SetStatus(files: seq<FileItem>, id: string, status: Status, progress: real): (r: seq<FileItem>)
    ensures |r| == |files|
    ensures forall i :: 0 <= i < |files| && files[i].id != id ==> r[i] == files[i]
    ensures forall i :: 0 <= i < |files| && files[i].id == id ==>
              r[i].status == status && r[i].progress == progress
              && r[i] == files[i].(status := r[i].status, progress := r[i].progress)
  {
    seq(|files|, i requires 0 <= i < |files| =>
      if files[i].id == id then files[i].(status := status, progress := progress) else files[i])
  }

  /** `prev.filter(f => f.id !== id)`. */
  function Without(files: seq<FileItem>, id: string): (r: seq<FileItem>)
    ensures forall f :: f in r <==> f in files && f.id != id
    ensures IsSubsequence(r, files)
  {
    FilterIsSubsequence((f: FileItem) => f.id != id, files);
    Filter((f: FileItem) => f.id != id, files)
  }

  /** The record shown while a file is still being sent. */
  function Placeholder(input: LocalFile, tempId: string, now: int): (r: FileItem)
    ensures r.id == tempId && r.name == input.name && r.size == input.size
    ensures r.status == Uploading && r.progress == 0.0 && r.status.IsActive()
    ensures input.mimeType == "" ==> r.mimeType == OctetStream
    ensures input.mimeType != "" ==> r.mimeType == input.mimeType
  {
    FileItem(tempId, input.name, input.size, Uploading, 0.0, now,
             if input.mimeType == "" then OctetStream else input.mimeType)
  }

  function Placeholders(inputs: seq<LocalFile>, tempIds: seq<string>, now: int): (r: seq<FileItem>)
    requires |tempIds| == |inputs|
    ensures |r| == |inputs|
  {
    seq(|inputs|, i requires 0 <= i < |inputs| => Placeholder(inputs[i], tempIds[i], now))
  }

  /** A placeholder once its upload has answered: the server id on success, `error` on failure. */
  function Resolved(f: FileItem, result: Option<string>): FileItem
  {
    match result
    case Some(serverId) => f.(id := serverId, status := Processing, progress := 0.0)
    case None => f.(status := Error, progress := 0.0)
  }

  /** One `setFiles` after an upload: every record carrying the temporary id is resolved. */
  function Resolve(files: seq<FileItem>, tempId: string, result: Option<string>): (r: seq<FileItem>)
    ensures |r| == |files|
  {
    seq(|files|, i requires 0 <= i < |files| =>
      if files[i].id == tempId then Resolved(files[i], result) else files[i])
  }

  /** The list after the first `k` uploads have answered. */
  function ResolveAll(files: seq<FileItem>, tempIds: seq<string>, results: seq<Option<string>>, k: nat)
    : (r: seq<FileItem>)
    requires k <= |tempIds| == |results|
    ensures |r| == |files|
  {
    if k == 0 then files else Resolve(ResolveAll(files, tempIds, results, k - 1), tempIds[k - 1], results[k - 1])
  }

  /** `r` is the list after `k` of the uploads of `inputs` have answered, with the files
      that were there before (`base`) untouched in front. */
  predicate UploadedUpTo(r: seq<FileItem>, base: seq<FileItem>, inputs: seq<LocalFile>, tempIds: seq<string>,
                         now: int, results: seq<Option<string>>, k: nat)
    requires |tempIds| == |inputs| == |results|
  {
    && |r| == |base| + |inputs|
    && r[..|base|] == base
    && (forall j :: 0 <= j < k && j < |inputs| ==>
          r[|base| + j] == Resolved(Placeholder(inputs[j], tempIds[j], now), results[j]))
    && (forall j :: k <= j < |inputs| ==> r[|base| + j] == Placeholder(inputs[j], tempIds[j], now))
  }

  /** Temporary ids are fresh: pairwise distinct, and used neither by an existing file nor
      as a server-assigned id. */
  predicate FreshTempIds(base: seq<FileItem>, tempIds: seq<string>, results: seq<Option<string>>)
  {
    && (forall i, j :: 0 <= i < j < |tempIds| ==> tempIds[i] != tempIds[j])
    && (forall i, j :: 0 <= i < |base| && 0 <= j < |tempIds| ==> base[i].id != tempIds[j])
    && (forall i, j :: 0 <= i < |results| && 0 <= j < |tempIds| && results[i].Some?
          ==> results[i].value != tempIds[j])
  }

  /** One more answered upload: with fresh temporary ids, resolving upload `k - 1` turns
      placeholder `k - 1` into its resolved record and touches nothing else. */
  lemma ResolveNext(prev: seq<FileItem>, base: seq<FileItem>, inputs: seq<LocalFile>, tempIds: seq<string>,
                    now: int, results: seq<Option<string>>, k: nat)
    requires |tempIds| == |inputs| == |results| && 0 < k <= |inputs|
    requires FreshTempIds(base, tempIds, results)
    requires UploadedUpTo(prev, base, inputs, tempIds, now, results, k - 1)
    ensures UploadedUpTo(Resolve(prev, tempIds[k - 1], results[k - 1]), base, inputs, tempIds, now, results, k)
  {
    var n := |base|;
    var t := tempIds[k - 1];
    var r := Resolve(prev, t, results[k - 1]);
    ResolveKeepsOthers(prev, base, inputs, tempIds, now, results, k);
    assert r[..n] == prev[..n];
    assert prev[n + k - 1] == Placeholder(inputs[k - 1], t, now);
  }

  /** Resolving upload `k - 1` leaves every record but its placeholder as it was. */
  lemma ResolveKeepsOthers(prev: seq<FileItem>, base: seq<FileItem>, inputs: seq<LocalFile>, tempIds: seq<string>,
                           now: int, results: seq<Option<string>>, k: nat)
    requires |tempIds| == |inputs| == |results| && 0 < k <= |inputs|
    requires FreshTempIds(base, tempIds, results)
    requires UploadedUpTo(prev, base, inputs, tempIds, now, results, k - 1)
    ensures forall m :: 0 <= m < |prev| && m != |base| + k - 1 ==>
              Resolve(prev, tempIds[k - 1], results[k - 1])[m] == prev[m]
  {
    var n, t := |base|, tempIds[k - 1];
    ResolveSparesBase(prev, base, inputs, tempIds, now, results, k);
    ResolveKeeps(prev, t, results[k - 1], 0, n);
    ResolveSparesEarlier(prev, base, inputs, tempIds, now, results, k);
    ResolveKeeps(prev, t, results[k - 1], n, n + k - 1);
    ResolveSparesLater(prev, base, inputs, tempIds, now, results, k);
    ResolveKeeps(prev, t, results[k - 1], n + k, n + |inputs|);
  }

  /** No file that was there before the upload carries the id being resolved. */
  lemma ResolveSparesBase(prev: seq<FileItem>, base: seq<FileItem>, inputs: seq<LocalFile>, tempIds: seq<string>,
                          now: int, results: seq<Option<string>>, k: nat)
    requires |tempIds| == |inputs| == |results| && 0 < k <= |inputs|
    requires FreshTempIds(base, tempIds, results)
    requires UploadedUpTo(prev, base, inputs, tempIds, now, results, k - 1)
    ensures forall m :: 0 <= m < |base| ==> prev[m].id != tempIds[k - 1]
  {
    forall m | 0 <= m < |base|
      ensures prev[m].id != tempIds[k - 1]
    {
      assert prev[..|base|][m] == prev[m];
    }
  }

  /** No upload that has already answered carries the id being resolved. */
  lemma ResolveSparesEarlier(prev: seq<FileItem>, base: seq<FileItem>, inputs: seq<LocalFile>, tempIds: seq<string>,
                             now: int, results: seq<Option<string>>, k: nat)
    requires |tempIds| == |inputs| == |results| && 0 < k <= |inputs|
    requires FreshTempIds(base, tempIds, results)
    requires UploadedUpTo(prev, base, inputs, tempIds, now, results, k - 1)
    ensures forall m :: |base| <= m < |base| + k - 1 ==> prev[m].id != tempIds[k - 1]
  {
    var n := |base|;
    forall m | n <= m < n + k - 1
      ensures prev[m].id != tempIds[k - 1]
    {
      var j := m - n;
      assert prev[n + j] == Resolved(Placeholder(inputs[j], tempIds[j], now), results[j]);
    }
  }

  /** No upload still waiting for its answer carries the id being resolved. */
  lemma ResolveSparesLater(prev: seq<FileItem>, base: seq<FileItem>, inputs: seq<LocalFile>, tempIds: seq<string>,
                           now: int, results: seq<Option<string>>, k: nat)
    requires |tempIds| == |inputs| == |results| && 0 < k <= |inputs|
    requires FreshTempIds(base, tempIds, results)
    requires UploadedUpTo(prev, base, inputs, tempIds, now, results, k - 1)
    ensures forall m :: |base| + k <= m < |base| + |inputs| ==> prev[m].id != tempIds[k - 1]
  {
    var n := |base|;
    forall m | n + k <= m < n + |inputs|
      ensures prev[m].id != tempIds[k - 1]
    {
      var j := m - n;
      assert prev[n + j] == Placeholder(inputs[j], tempIds[j], now);
    }
  }

  /** Resolving one temporary id leaves every record carrying another id as it was. */
  lemma ResolveKeeps(prev: seq<FileItem>, t: string, result: Option<string>, lo: nat, hi: nat)
    requires lo <= hi <= |prev|
    requires forall m :: lo <= m < hi ==> prev[m].id != t
    ensures forall m :: lo <= m < hi ==> Resolve(prev, t, result)[m] == prev[m]
  {
  }

  /** With fresh temporary ids, upload `j` changes placeholder `j` and nothing else:
      the earlier files keep their place and contents. */
  lemma {:induction false} UploadResolvesOnlyItsPlaceholder(
    base: seq<FileItem>, inputs: seq<LocalFile>, tempIds: seq<string>, now: int,
    results: seq<Option<string>>, k: nat)
    requires |tempIds| == |inputs| == |results| && k <= |inputs|
    requires FreshTempIds(base, tempIds, results)
    ensures UploadedUpTo(ResolveAll(base + Placeholders(inputs, tempIds, now), tempIds, results, k),
                         base, inputs, tempIds, now, results, k)
  {
    var start := base + Placeholders(inputs, tempIds, now);
    if k == 0 {
      assert start[..|base|] == base;
    } else {
      UploadResolvesOnlyItsPlaceholder(base, inputs, tempIds, now, results, k - 1);
      ResolveNext(ResolveAll(start, tempIds, results, k - 1), base, inputs, tempIds, now, results, k);
    }
  }

  /** After a cancel, no file with that id is polled any more. */
  lemma CancelledFileLeavesPollSet(files: seq<FileItem>, id: string)
    ensures id !in ActiveIds(SetStatus(files, id, Error, 0.0))
  {
    var r := SetStatus(files, id, Error, 0.0);
    forall f | f in r && f.id == id
      ensures !f.status.IsActive()
    {
      var i :| 0 <= i < |r| && r[i] == f;
    }
  }

  /** After a reprocess, a file that exists is polled again. */
  lemma ReprocessedFileEntersPollSet(files: seq<FileItem>, id: string)
    requires exists f :: f in files && f.id == id
    ensures id in ActiveIds(SetStatus(files, id, Processing, 0.0))
  {
    var f :| f in files && f.id == id;
    var i :| 0 <= i < |files| && files[i] == f;
    var r := SetStatus(files, id, Processing, 0.0);
    assert r[i] in r && r[i].id == id && r[i].status.IsActive();
  }

  /** The state held by the `useFileProgress` hook. */
  class FileProgressHook {
    var files: seq<FileItem>
    var isPolling: bool

    constructor()
      ensures files == [] && !isPolling
    {
      files := [];
      isPolling := false;
    }

    /** The effect that runs whenever `files` or `isPolling` changes: returns the id list the
        armed interval polls, or `None` when no interval is armed. */
    method RunEffect() returns (polled: Option<seq<string>>)
      modifies this
      ensures files == old(files)
      ensures !old(isPolling) || files == [] ==> polled == None && isPolling == old(isPolling)
      ensures old(isPolling) && files != [] && ActiveIds(files) == [] ==> polled == None && !isPolling
      ensures old(isPolling) && ActiveIds(files) != [] ==> polled == Some(ActiveIds(files)) && isPolling
    {
      if !isPolling || |files| == 0 {
        return None;
      }
      var active := ActiveFiles(files);
      if |active| == 0 {
        isPolling := false;
        return None;
      }
      polled := Some(Ids(active));
    }

    /** One poll tick: `response` is `None` when the request threw (the error is logged). */
    method PollTick(response: Option<seq<StatusEntry>>)
      modifies this
      ensures response.None? ==> files == old(files) && isPolling == old(isPolling)
      ensures response.Some? ==> files == Merge(old(files), response.value)
                                 && isPolling == (old(isPolling) && StillActive(response.value))
    {
      if response.Some? {
        var statuses := response.value;
        files := Merge(files, statuses);
        if !StillActive(statuses) {
          isPolling := false;
        }
      }
    }

    /** `uploadFiles`: placeholders are appended at once, then each upload's answer
        (`results[i]`: the server's file id, or `None` when the request threw) resolves its own
        placeholder; `tempIds` are the randomly generated client ids. */
    method UploadFiles(inputs: seq<LocalFile>, tempIds: seq<string>, now: int, results: seq<Option<string>>)
      requires |tempIds| == |inputs| && |results| == |inputs|
      modifies this
      ensures isPolling
      ensures files == ResolveAll(old(files) + Placeholders(inputs, tempIds, now), tempIds, results, |inputs|)
      ensures FreshTempIds(old(files), tempIds, results)
              ==> UploadedUpTo(files, old(files), inputs, tempIds, now, results, |inputs|)
    {
      ghost var start := files + Placeholders(inputs, tempIds, now);
      files := files + Placeholders(inputs, tempIds, now);
      isPolling := true;
      for i := 0 to |inputs|
        invariant isPolling
        invariant files == ResolveAll(start, tempIds, results, i)
      {
        files := Resolve(files, tempIds[i], results[i]);
      }
      if FreshTempIds(old(files), tempIds, results) {
        UploadResolvesOnlyItsPlaceholder(old(files), inputs, tempIds, now, results, |inputs|);
      }
    }

    /** `deleteFile`: the list changes only when the API call succeeded; returns whether it did
        (a failure is rethrown to the caller). */
    method DeleteFile(fileId: string, apiSucceeded: bool) returns (ok: bool)
      modifies this
      ensures ok == apiSucceeded && isPolling == old(isPolling)
      ensures files == if ok then Without(old(files), fileId) else old(files)
    {
      ok := apiSucceeded;
      if ok {
        files := Without(files, fileId);
      }
    }

    /** `reprocessFile`: on success the file is back to `processing`/0 and polling resumes. */
    method ReprocessFile(fileId: string, apiSucceeded: bool) returns (ok: bool)
      modifies this
      ensures ok == apiSucceeded
      ensures ok ==> files == SetStatus(old(files), fileId, Processing, 0.0) && isPolling
      ensures !ok ==> files == old(files) && isPolling == old(isPolling)
    {
      ok := apiSucceeded;
      if ok {
        files := SetStatus(files, fileId, Processing, 0.0);
        isPolling := true;
      }
    }

    /** `cancelProcessing`: on success the file becomes `error`/0; the polling flag is untouched. */
    method CancelProcessing(fileId: string, apiSucceeded: bool) returns (ok: bool)
      modifies this
      ensures ok == apiSucceeded && isPolling == old(isPolling)
      ensures files == if ok then SetStatus(old(files), fileId, Error, 0.0) else old(files)
    {
      ok := apiSucceeded;
      if ok {
        files := SetStatus(files, fileId, Error, 0.0);
      }
    }
  }
}
