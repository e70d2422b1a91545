/** The parser selection and the text summary of `app/utils.py`. */
module ParseUtils {
  import opened Wrappers
  import opened Strings
  import FileRecords

  /** What a parser stores as `parsed_content`: the CSV row count and column names, the JSON
      value's Python type name, or the text summary. */
  datatype ParsedContent =
    | CsvTable(rows: nat, columns: seq<string>)
    | JsonDocument(typeName: string)
    | TextSummary(lines: nat, characters: nat, content: string)

  /** Which parser `parse_file_by_type` hands the file to. */
  datatype ParserKind = CsvParser | JsonParser | TextParser

  /** What reading the file and the CSV and JSON libraries yield for one file (each an error
      message on failure). */
  datatype FileReaders = FileReaders(
    text: Result<string, string>,
    csv: Result<ParsedContent, string>,
    json: Result<ParsedContent, string>)

  /** The length of the text preview. */
  const PreviewLength: nat := 1000

  /** `get_file_type`: the guessed MIME type, or the generic binary type when none is guessed. */
  function GetFileType(guessed: Option<string>): (r: string)
    ensures r != ""
    ensures guessed.Some? && guessed.value != "" ==> r == guessed.value
    ensures guessed.None? || guessed.value == "" ==> r == FileRecords.OctetStream
  {
    if guessed.Some? && guessed.value != "" then guessed.value else FileRecords.OctetStream
  }

  predicate IsCsv(filePath: string, fileType: string)
  {
    fileType == "text/csv" || EndsWith(filePath, ".csv")
  }

  predicate IsJson(filePath: string, fileType: string)
  {
    fileType == "application/json" || EndsWith(filePath, ".json")
  }

  predicate IsText(filePath: string, fileType: string)
  {
    StartsWith(fileType, "text/") || EndsWith(filePath, ".txt")
  }

  /** The `if`/`elif` chain of `parse_file_by_type`: CSV first, then JSON, then text. */
  function SelectParser(filePath: string, fileType: string): (r: Result<ParserKind, string>)
    ensures r == Ok(CsvParser) <==> IsCsv(filePath, fileType)
    ensures r == Ok(JsonParser) <==> !IsCsv(filePath, fileType) && IsJson(filePath, fileType)
    ensures r == Ok(TextParser) <==> !IsCsv(filePath, fileType) && !IsJson(filePath, fileType) && IsText(filePath, fileType)
    ensures r.Err? <==> !IsCsv(filePath, fileType) && !IsJson(filePath, fileType) && !IsText(filePath, fileType)
    ensures r.Err? ==> r.error == "Unsupported file type: " + fileType
  {
    if IsCsv(filePath, fileType) then Ok(CsvParser)
    else if IsJson(filePath, fileType) then Ok(JsonParser)
    else if IsText(filePath, fileType) then Ok(TextParser)
    else Err("Unsupported file type: " + fileType)
  }

  /** A CSV upload is never summarised as text, although its type starts with `text/`;
      and every other `text/` type is accepted by some parser. */
  lemma TextTypesAreParsed(filePath: string, fileType: string)
    requires StartsWith(fileType, "text/")
    ensures SelectParser(filePath, fileType).Ok?
    ensures fileType == "text/csv" ==> SelectParser(filePath, fileType) == Ok(CsvParser)
  {
  }

  /** The result of `parse_txt_file` once the file has been read into `content`. */
  function SummarizeText(content: string): (r: ParsedContent)
    ensures r.TextSummary?
    ensures r.characters == |content|
    ensures r.lines == CountChar(content, '\n') + 1
    ensures |content| <= PreviewLength ==> r.content == content
    ensures |content| > PreviewLength ==>
              |r.content| == PreviewLength + 3 && r.content[..PreviewLength] == content[..PreviewLength]
              && r.content[PreviewLength..] == "..."
  {
    SplitCount(content, '\n');
    TextSummary(|Split(content, '\n')|, |content|,
                if |content| > PreviewLength then content[..PreviewLength] + "..." else content)
  }

  /** `parse_file_by_type`: the selected parser's result, its failure wrapped in that parser's
      message. */
  function ParseFileByType(filePath: string, fileType: string, readers: FileReaders)
    : (r: Result<ParsedContent, string>)
    ensures SelectParser(filePath, fileType).Err? ==> r == Err("Unsupported file type: " + fileType)
    ensures SelectParser(filePath, fileType) == Ok(TextParser) && readers.text.Ok? ==>
              r == Ok(SummarizeText(readers.text.value))
    ensures SelectParser(filePath, fileType) == Ok(TextParser) && readers.text.Err? ==>
              r == Err("Failed to parse text file: " + readers.text.error)
    ensures SelectParser(filePath, fileType) == Ok(CsvParser) ==>
              r == (if readers.csv.Ok? then readers.csv else Err("Failed to parse CSV: " + readers.csv.error))
    ensures SelectParser(filePath, fileType) == Ok(JsonParser) ==>
              r == (if readers.json.Ok? then readers.json else Err("Failed to parse JSON: " + readers.json.error))
  {
    match SelectParser(filePath, fileType)
    case Err(e) => Err(e)
    case Ok(CsvParser) =>
      (match readers.csv
       case Ok(c) => Ok(c)
       case Err(e) => Err("Failed to parse CSV: " + e))
    case Ok(JsonParser) =>
      (match readers.json
       case Ok(c) => Ok(c)
       case Err(e) => Err("Failed to parse JSON: " + e))
    case Ok(TextParser) =>
      (match readers.text
       case Ok(t) => Ok(SummarizeText(t))
       case Err(e) => Err("Failed to parse text file: " + e))
  }
}
