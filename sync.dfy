/** How one polling round trip between the progress hook and the batch status route
    changes the client's list. */
module Sync {
  import opened Wrappers
  import opened FileRecords
  import opened FileProgress
  import opened StatusRoute

  /** The local list after the hook polls a status route that serves `store`. */
  function PollRoundTrip(files: seq<FileItem>, store: seq<StoredFile>): (r: seq<FileItem>)
    ensures |r| == |files|
  {
    Merge(files, Lookup(store, ActiveIds(files)))
  }

  /** An active file the server knows takes the server's status and progress. */
  lemma PollUpdatesKnownFile(files: seq<FileItem>, store: seq<StoredFile>, i: nat)
    requires i < |files| && files[i].status.IsActive() && FindFile(store, files[i].id).Some?
    ensures PollRoundTrip(files, store)[i].status == FindFile(store, files[i].id).value.status
    ensures PollRoundTrip(files, store)[i].progress == FindFile(store, files[i].id).value.progress
  {
    var resp := Lookup(store, ActiveIds(files));
    var x := files[i].id;
    assert files[i] in files;
    assert EntryOf(FindFile(store, x).value) in resp;
    assert FindStatus(resp, x).Some?;
    var j :| 0 <= j < |resp| && resp[j] == FindStatus(resp, x).value && resp[j].id == x
             && forall k :: 0 <= k < j ==> resp[k].id != x;
    assert resp[j] in resp;
  }

  /** The server's answer holds no entry for `id` when the server does not know it or no
      active local file has it. */
  lemma NoEntryFor(files: seq<FileItem>, store: seq<StoredFile>, id: string)
    requires FindFile(store, id).None? || forall f :: f in files && f.id == id ==> !f.status.IsActive()
    ensures forall j :: 0 <= j < |Lookup(store, ActiveIds(files))| ==> Lookup(store, ActiveIds(files))[j].id != id
  {
    var resp := Lookup(store, ActiveIds(files));
    forall j | 0 <= j < |resp|
      ensures resp[j].id != id
    {
      assert resp[j] in resp;
    }
  }

  /** After one poll, each active file the server knows carries the server's status and
      progress; a file the server does not know, or that no active local record shares an
      id with, is left exactly as it was. */
  lemma PollReflectsServer(files: seq<FileItem>, store: seq<StoredFile>)
    ensures forall i :: 0 <= i < |files| && files[i].status.IsActive() && FindFile(store, files[i].id).Some?
              ==> PollRoundTrip(files, store)[i].status == FindFile(store, files[i].id).value.status
                  && PollRoundTrip(files, store)[i].progress == FindFile(store, files[i].id).value.progress
    ensures forall i :: 0 <= i < |files| && FindFile(store, files[i].id).None?
              ==> PollRoundTrip(files, store)[i] == files[i]
    ensures forall i :: 0 <= i < |files| && (forall f :: f in files && f.id == files[i].id ==> !f.status.IsActive())
              ==> PollRoundTrip(files, store)[i] == files[i]
  {
    forall i | 0 <= i < |files| && files[i].status.IsActive() && FindFile(store, files[i].id).Some?
      ensures PollRoundTrip(files, store)[i].status == FindFile(store, files[i].id).value.status
      ensures PollRoundTrip(files, store)[i].progress == FindFile(store, files[i].id).value.progress
    {
      PollUpdatesKnownFile(files, store, i);
    }
    forall i | 0 <= i < |files| && (FindFile(store, files[i].id).None?
                                    || forall f :: f in files && f.id == files[i].id ==> !f.status.IsActive())
      ensures PollRoundTrip(files, store)[i] == files[i]
    {
      NoEntryFor(files, store, files[i].id);
    }
  }
}
