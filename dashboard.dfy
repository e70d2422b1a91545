/** The derived views of `app/page.tsx`: the sidebar counters, the search/status filter,
    the history list and which row actions are offered. */
module Dashboard {
  import opened Seqs
  import opened Strings
  import opened FileRecords
  import opened FileProgress

  /** The counters shown beside the file list. */
  datatype FileStats = FileStats(total: nat, processing: nat, completed: nat, failed: nat)

  predicate IsCompleted(f: FileItem) { f.status == Completed }
  predicate IsFailed(f: FileItem) { f.status == Error }

  /** Every file is counted under exactly one of the three headings. */
  lemma {:induction false} StatusesPartition(files: seq<FileItem>)
    ensures |Filter(IsActiveFile, files)| + |Filter(IsCompleted, files)| + |Filter(IsFailed, files)| == |files|
  {
    if files != [] {
      StatusesPartition(files[1..]);
    }
  }

  /** `stats`: the processing counter includes uploads in flight. */
  function ComputeStats(files: seq<FileItem>): (s: FileStats)
    ensures s.total == |files| == s.processing + s.completed + s.failed
    ensures s.processing == |ActiveFiles(files)|
    ensures s.completed == |Filter(IsCompleted, files)| && s.failed == |Filter(IsFailed, files)|
  {
    StatusesPartition(files);
    FileStats(|files|, |Filter(IsActiveFile, files)|, |Filter(IsCompleted, files)|, |Filter(IsFailed, files)|)
  }

  /** The search box and status select; `lower` is the locale-independent `toLowerCase`. */
  predicate Matches(f: FileItem, query: string, statusFilter: string, lower: string -> string)
  {
    Contains(lower(f.name), lower(query)) && (statusFilter == "all" || f.status.Name() == statusFilter)
  }

  function Matcher(query: string, statusFilter: string, lower: string -> string): FileItem -> bool
  {
    (f: FileItem) => Matches(f, query, statusFilter, lower)
  }

  /** `filteredFiles`: the files the list shows, in list order. */
  function FilteredFiles(files: seq<FileItem>, query: string, statusFilter: string, lower: string -> string)
    : (r: seq<FileItem>)
    ensures forall f :: f in r <==> f in files && Matches(f, query, statusFilter, lower)
    ensures IsSubsequence(r, files)
  {
    FilterIsSubsequence(Matcher(query, statusFilter, lower), files);
    Filter(Matcher(query, statusFilter, lower), files)
  }

  /** With no search text and the "all" filter, every file is shown, in order. */
  lemma NoFilterShowsEverything(files: seq<FileItem>, lower: string -> string)
    requires lower("") == ""
    ensures FilteredFiles(files, "", "all", lower) == files
  {
    forall i | 0 <= i < |files|
      ensures Matcher("", "all", lower)(files[i])
    {
      assert StartsWith(lower(files[i].name), "");
    }
    FilterAll(Matcher("", "all", lower), files);
  }

  predicate IsSettled(f: FileItem) { f.status == Completed || f.status == Error }

  /** The history view: exactly the files that are no longer active. */
  function History(files: seq<FileItem>): (r: seq<FileItem>)
    ensures forall f :: f in r <==> f in files && !f.status.IsActive()
    ensures IsSubsequence(r, files)
  {
    FilterIsSubsequence(IsSettled, files);
    Filter(IsSettled, files)
  }

  /** The retry button is shown on failed files only. */
  predicate OffersReprocess(f: FileItem) { f.status == Error }

  /** The cancel button is shown on files still uploading or processing. */
  predicate OffersCancel(f: FileItem) { f.status == Processing || f.status == Uploading }

  /** The two buttons never appear together; cancel is offered exactly on the files the poller
      watches, and retry only on files the history lists. */
  lemma ActionsMatchPolling(files: seq<FileItem>, f: FileItem)
    requires f in files
    ensures !(OffersReprocess(f) && OffersCancel(f))
    ensures OffersCancel(f) <==> f in ActiveFiles(files)
    ensures OffersCancel(f) ==> f.id in ActiveIds(files)
    ensures OffersReprocess(f) ==> f in History(files)
  {
  }
}
