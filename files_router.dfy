/** The FastAPI router of `app/routes/files.py`: upload, listing, progress, content, delete
    and download. */
module FilesRouter {
  import opened Wrappers
  import opened Seqs
  import opened Strings
  import opened ParseUtils
  import opened FileTable

  /** An `HTTPException`: status code and detail message. */
  datatype HttpError = HttpError(code: int, detail: string)

  /** The background job the upload enqueues. */
  datatype TaskRequest = TaskRequest(fileId: string, filePath: string, fileType: string)

  /** `FileList`: one page of rows and the number of matching rows. */
  datatype Listing = Listing(files: seq<FileRow>, total: nat)

  /** `FileProgress`. */
  datatype ProgressReport = ProgressReport(fileId: string, status: FileStatus, progress: int, errorMessage: Option<string>)

  /** `FileContent`. */
  datatype ContentReport = ContentReport(fileId: string, filename: string, status: FileStatus,
                                         parsedContent: Option<ParsedContent>, createdAt: int)

  /** The original upload as a download. */
  datatype Download = Download(path: string, filename: string, mediaType: string)

  const UploadDir: string := "uploads"

  const NotFoundError: HttpError := HttpError(404, "File not found")

  /** Where an upload is kept on disk: `os.path.join(UPLOAD_DIR, f"{id}_{filename}")`. */
  function StoragePath(id: string, filename: string): (r: string)
    ensures StartsWith(r, UploadDir + "/" + id + "_") && EndsWith(r, filename)
    ensures |r| == |UploadDir| + |id| + |filename| + 2
  {
    UploadDir + "/" + id + "_" + filename
  }

  /** The row stored for a new upload. */
  function NewRow(id: string, filename: string, size: nat, fileType: string, now: int): (r: FileRow)
    ensures r.id == id && r.filename == filename && r.originalFilename == filename
    ensures r.fileSize == size && r.fileType == fileType
    ensures r.status == Uploading && r.progress == 0 && r.parsedContent == None && r.errorMessage == None
  {
    FileRow(id, filename, filename, size, fileType, Uploading, 0, None, None, now)
  }

  /** `upload_file`: `filename` is `None` when the client sent none, `guessed` what
      `mimetypes` guesses for it, `newId` the generated uuid. Returns the stored row, the task
      it enqueued and the paths on disk afterwards. */
  method UploadFile(table: Table, filename: Option<string>, content: seq<bv8>, guessed: Option<string>,
                    newId: string, now: int, disk: set<string>)
    returns (r: Result<FileRow, HttpError>, task: Option<TaskRequest>, diskAfter: set<string>)
    modifies table
    ensures filename.None? || filename.value == "" ==>
              r == Err(HttpError(400, "No file provided")) && task == None
              && table.rows == old(table.rows) && diskAfter == disk
    ensures filename.Some? && filename.value != "" ==>
              var row := NewRow(newId, filename.value, |content|, GetFileType(guessed), now);
              var path := StoragePath(newId, filename.value);
              && r == Ok(row) && table.rows == old(table.rows) + [row]
              && task == Some(TaskRequest(newId, path, row.fileType)) && diskAfter == disk + {path}
  {
    if filename.None? || filename.value == "" {
      return Err(HttpError(400, "No file provided")), None, disk;
    }
    var name := filename.value;
    var fileType := GetFileType(guessed);
    var row := NewRow(newId, name, |content|, fileType, now);
    table.rows := table.rows + [row];
    var path := StoragePath(row.id, name);
    diskAfter := disk + {path};
    task := Some(TaskRequest(row.id, path, fileType));
    r := Ok(row);
  }

  /** The rows the optional status filter selects, in table order. */
  function MatchingRows(rows: seq<FileRow>, status: Option<FileStatus>): (r: seq<FileRow>)
    ensures forall row :: row in r <==> row in rows && (status.None? || row.status == status.value)
    ensures IsSubsequence(r, rows)
  {
    match status
    case None =>
      FilterAll((row: FileRow) => true, rows);
      FilterIsSubsequence((row: FileRow) => true, rows);
      rows
    case Some(s) =>
      FilterIsSubsequence((row: FileRow) => row.status == s, rows);
      Filter((row: FileRow) => row.status == s, rows)
  }

  /** `list_files`: the query parameters are validated (422 otherwise), then the window
      `[skip, skip + limit)` of the matching rows is returned with their total count. */
  function ListFiles(rows: seq<FileRow>, skip: int, limit: int, status: Option<FileStatus>)
    : (r: Result<Listing, HttpError>)
    ensures r.Err? <==> skip < 0 || limit < 1 || limit > 1000
    ensures r.Err? ==> r.error.code == 422
    ensures r.Ok? ==>
              var all := MatchingRows(rows, status);
              && r.value.total == |all|
              && |r.value.files| <= limit && |r.value.files| <= r.value.total
              && |r.value.files| == (if skip >= |all| then 0 else if skip + limit <= |all| then limit else |all| - skip)
              && (forall k :: 0 <= k < |r.value.files| ==> r.value.files[k] == all[skip + k])
  {
    if skip < 0 || limit < 1 || limit > 1000 then Err(HttpError(422, "Unprocessable Entity"))
    else
      var all := MatchingRows(rows, status);
      var lo := if skip < |all| then skip else |all|;
      var hi := if skip + limit < |all| then skip + limit else |all|;
      Ok(Listing(all[lo..hi], |all|))
  }

  /** The total does not depend on the page asked for. */
  lemma TotalIgnoresPaging(rows: seq<FileRow>, status: Option<FileStatus>, skip1: int, limit1: int, skip2: int, limit2: int)
    requires ListFiles(rows, skip1, limit1, status).Ok? && ListFiles(rows, skip2, limit2, status).Ok?
    ensures ListFiles(rows, skip1, limit1, status).value.total == ListFiles(rows, skip2, limit2, status).value.total
  {
  }

  /** `get_file_progress`: the row's status, progress and error message, verbatim. */
  function GetFileProgress(rows: seq<FileRow>, fileId: string): (r: Result<ProgressReport, HttpError>)
    ensures r.Err? <==> forall i :: 0 <= i < |rows| ==> rows[i].id != fileId
    ensures r.Err? ==> r.error == NotFoundError
    ensures r.Ok? ==> var row := rows[FindRow(rows, fileId)];
              r.value == ProgressReport(row.id, row.status, row.progress, row.errorMessage) && row.id == fileId
  {
    var i := FindRow(rows, fileId);
    if i == -1 then Err(NotFoundError)
    else Ok(ProgressReport(rows[i].id, rows[i].status, rows[i].progress, rows[i].errorMessage))
  }

  /** `get_file_content`: only a `ready` row yields its parsed content; `processing` answers
      202, `failed` 422 and `uploading` 400. */
  function GetFileContent(rows: seq<FileRow>, fileId: string): (r: Result<ContentReport, HttpError>)
    ensures FindRow(rows, fileId) == -1 <==> r == Err(NotFoundError)
    ensures FindRow(rows, fileId) != -1 ==>
              var row := rows[FindRow(rows, fileId)];
              && (r.Ok? <==> row.status == Ready)
              && (r.Ok? ==> r.value.parsedContent == row.parsedContent && r.value.fileId == fileId)
              && (row.status == Processing ==> r.Err? && r.error.code == 202)
              && (row.status == Failed ==> r.Err? && r.error.code == 422)
              && (row.status == Uploading ==> r.Err? && r.error.code == 400)
  {
    var i := FindRow(rows, fileId);
    if i == -1 then Err(NotFoundError)
    else
      var row := rows[i];
      match row.status
      case Processing => Err(HttpError(202, "File is still being processed. Check progress endpoint."))
      case Failed =>
        Err(HttpError(422, "File processing failed: " + (if row.errorMessage.Some? then row.errorMessage.value else "None")))
      case Uploading => Err(HttpError(400, "File is not ready for download"))
      case Ready => Ok(ContentReport(row.id, row.filename, row.status, row.parsedContent, row.createdAt))
  }

  /** `delete_file`: removes exactly the matched row and its stored upload. */
  method DeleteFile(table: Table, fileId: string, disk: set<string>)
    returns (r: Result<string, HttpError>, diskAfter: set<string>)
    modifies table
    ensures FindRow(old(table.rows), fileId) == -1 ==>
              r == Err(NotFoundError) && table.rows == old(table.rows) && diskAfter == disk
    ensures FindRow(old(table.rows), fileId) != -1 ==>
              var i := FindRow(old(table.rows), fileId);
              && r == Ok("File deleted successfully")
              && table.rows == old(table.rows)[..i] + old(table.rows)[i + 1..]
              && diskAfter == disk - {StoragePath(old(table.rows)[i].id, old(table.rows)[i].filename)}
  {
    var i := FindRow(table.rows, fileId);
    if i == -1 {
      return Err(NotFoundError), disk;
    }
    var row := table.rows[i];
    diskAfter := disk - {StoragePath(row.id, row.filename)};
    table.rows := table.rows[..i] + table.rows[i + 1..];
    r := Ok("File deleted successfully");
  }

  /** `download_file`: 404 for an unknown id or a missing upload, else the upload under its
      original name and type. */
  function DownloadFile(rows: seq<FileRow>, fileId: string, disk: set<string>): (r: Result<Download, HttpError>)
    ensures FindRow(rows, fileId) == -1 ==> r == Err(NotFoundError)
    ensures r.Ok? ==> var row := rows[FindRow(rows, fileId)];
              r.value == Download(StoragePath(row.id, row.filename), row.originalFilename, row.fileType)
              && r.value.path in disk
    ensures FindRow(rows, fileId) != -1 ==>
              (StoragePath(fileId, rows[FindRow(rows, fileId)].filename) !in disk <==>
               r == Err(HttpError(404, "File not found on disk")))
    ensures FindRow(rows, fileId) != -1 && StoragePath(fileId, rows[FindRow(rows, fileId)].filename) in disk ==> r.Ok?
  {
    var i := FindRow(rows, fileId);
    if i == -1 then Err(NotFoundError)
    else
      var path := StoragePath(rows[i].id, rows[i].filename);
      if path !in disk then Err(HttpError(404, "File not found on disk"))
      else Ok(Download(path, rows[i].originalFilename, rows[i].fileType))
  }
}
