/**
 The local filesystem the script owns, as a map from path to contents, and
 the progress marker kept in one of its files.
 */
module Storage {
  import opened Wrappers
  import opened Calendar
  import opened DateText
  import opened Text

  /**
   A downloaded document as the two PDF libraries see it: whether PyPDF2
   opens it, and the text pdfplumber extracts from each page (None when
   pdfplumber raises on the file; a page without text is None).
   */
  datatype Document = Document(validPdf: bool, pages: Option<seq<Option<string>>>)

  datatype FileData = TextFile(text: string) | PdfFile(doc: Document)

  class Disk {
    var files: map<string, FileData>

    constructor (initial: map<string, FileData>)
      ensures files == initial
    {
      files := initial;
    }

    /** `open(path, "w").write(...)`: creates or overwrites one file. */
    method Write(path: string, data: FileData)
      modifies this
      ensures files == old(files)[path := data]
    {
      files := files[path := data];
    }

    /** `os.remove(path)`. */
    method Remove(path: string)
      requires path in files
      modifies this
      ensures files == old(files) - {path}
    {
      files := files - {path};
    }
  }

  /** `LAST_DATE_FILE`. */
  const LastDateFile := "last_processed_date.txt"

  /** `save_last_processed_date`: the text is written as given. */
  method SaveLastProcessedDate(disk: Disk, dateStr: string)
    modifies disk
    ensures disk.files == old(disk.files)[LastDateFile := TextFile(dateStr)]
  {
    disk.Write(LastDateFile, TextFile(dateStr));
  }

  /**
   `load_last_processed_date`: None when the file is missing, is not text,
   or its stripped contents are not a "%d-%m-%Y" date.
   */
  function LoadLastProcessedDate(files: map<string, FileData>): Option<Date> {
    if LastDateFile !in files then None
    else
      match files[LastDateFile]
      case TextFile(t) => ParseDate(Strip(t))
      case PdfFile(_) => None
  }

  /** Saving a formatted date and loading it back gives that date. */
  lemma SaveThenLoad(files: map<string, FileData>, d: Date)
    ensures LoadLastProcessedDate(files[LastDateFile := TextFile(FormatDate(d))]) == Some(d)
  {
    var s := FormatDate(d);
    assert !IsSpace(s[0]) && !IsSpace(s[9]);
    StripKeepsTrimmed(s);
    ParseFormat(d);
  }
}
