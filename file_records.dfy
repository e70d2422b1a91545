/** The records the TypeScript side passes around: the client's `FileItem`, the route
    handlers' stored file record, and the `{id, status, progress}` wire entry. */
module FileRecords {
  import opened Wrappers

  /** `"uploading" | "processing" | "completed" | "error"`. */
  datatype Status = Uploading | Processing | Completed | Error
  {
    /** The "active" condition every poller and counter uses. */
    predicate IsActive() { this == Uploading || this == Processing }

    /** The string the status is serialised as. */
    function Name(): string
    {
      match this
      case Uploading => "uploading"
      case Processing => "processing"
      case Completed => "completed"
      case Error => "error"
    }
  }

  /** A file as the client hook and the dashboard see it; `uploadedAt` in milliseconds. */
  datatype FileItem = FileItem(
    id: string,
    name: string,
    size: int,
    status: Status,
    progress: real,
    uploadedAt: int,
    mimeType: string)

  /** A file record as a route handler stores it; `jobId` is only ever set by the upload route. */
  datatype StoredFile = StoredFile(
    id: string,
    name: string,
    size: int,
    status: Status,
    progress: real,
    uploadedAt: string,
    mimeType: string,
    content: Option<string>,
    jobId: Option<string>)

  /** One entry of a batch status response. */
  datatype StatusEntry = StatusEntry(id: string, status: Status, progress: real)

  /** The MIME type used when the browser reports none or Python's `mimetypes` guesses none. */
  const OctetStream: string := "application/octet-stream"

  /** `files.findIndex(f => f.id === id)`: the first index holding `id`, or -1. */
  function FindIndex(files: seq<StoredFile>, id: string): (r: int)
    ensures -1 <= r < |files|
    ensures r == -1 <==> forall i :: 0 <= i < |files| ==> files[i].id != id
    ensures r >= 0 ==> files[r].id == id && forall j :: 0 <= j < r ==> files[j].id != id
  {
    if files == [] then -1
    else if files[0].id == id then 0
    else
      var k := FindIndex(files[1..], id);
      if k == -1 then -1 else k + 1
  }

  /** `files.find(f => f.id === id)`. */
  function FindFile(files: seq<StoredFile>, id: string): (r: Option<StoredFile>)
    ensures r.Some? <==> exists i :: 0 <= i < |files| && files[i].id == id
    ensures r.Some? ==> r.value == files[FindIndex(files, id)] && r.value.id == id
  {
    var k := FindIndex(files, id);
    if k == -1 then None else Some(files[k])
  }

  /** Every progress value lies in the percentage range. */
  predicate ProgressInRange(files: seq<StoredFile>)
  {
    forall i :: 0 <= i < |files| ==> 0.0 <= files[i].progress <= 100.0
  }
}
