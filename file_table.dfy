/** The `files` table of the Python backend (`app/models.py`), shared by the FastAPI router
    and the Celery worker. */
module FileTable {
  import opened Wrappers
  import opened ParseUtils

  /** `FileStatus`: `uploading | processing | ready | failed`. */
  datatype FileStatus = Uploading | Processing | Ready | Failed

  /** One row of the table. */
  datatype FileRow = FileRow(
    id: string,
    filename: string,
    originalFilename: string,
    fileSize: int,
    fileType: string,
    status: FileStatus,
    progress: int,
    parsedContent: Option<ParsedContent>,
    errorMessage: Option<string>,
    createdAt: int)

  /** `db.query(File).filter(File.id == id).first()`: the first row with `id`, or -1. */
  function FindRow(rows: seq<FileRow>, id: string): (r: int)
    ensures -1 <= r < |rows|
    ensures r == -1 <==> forall i :: 0 <= i < |rows| ==> rows[i].id != id
    ensures r >= 0 ==> rows[r].id == id && forall j :: 0 <= j < r ==> rows[j].id != id
  {
    if rows == [] then -1
    else if rows[0].id == id then 0
    else
      var k := FindRow(rows[1..], id);
      if k == -1 then -1 else k + 1
  }

  /** The table as the database session sees it. */
  class Table {
    var rows: seq<FileRow>

    constructor(initial: seq<FileRow>)
      ensures rows == initial
    {
      rows := initial;
    }
  }
}
