/**
 `download_dou`: fetch the edition, keep it only when the server calls it a
 PDF and PyPDF2 can open it.
 */
module Fetcher {
  import opened Wrappers
  import opened Text
  import opened Storage

  /**
   What the GET of the PDF URL gives: `Failed` for an HTTP error status, a
   connection error or a timeout; otherwise the declared Content-Type ("" when
   the header is missing) and the body.
   */
  datatype Response = Failed | Served(contentType: string, doc: Document)

  /** The body is written to disk only when the Content-Type names a PDF. */
  predicate IsPdfResponse(r: Response) {
    r.Served? && Contains(Lower(r.contentType), "application/pdf")
  }

  function RemoveDashes(s: string): (r: string)
    ensures '-' !in r
    ensures |r| <= |s|
  {
    if s == [] then []
    else (if s[0] == '-' then [] else [s[0]]) + RemoveDashes(s[1..])
  }

  /** `PDF_PATH.format(date_str.replace("-", ""))`. */
  function PdfPath(dateStr: string): string {
    "dou_latest_" + RemoveDashes(dateStr) + ".pdf"
  }

  lemma PdfPathIsNotMarker(dateStr: string)
    ensures PdfPath(dateStr) != LastDateFile
  {
    assert PdfPath(dateStr)[0] == 'd';
  }

  method DownloadDou(disk: Disk, pdfUrl: string, dateStr: string, response: Response)
    returns (path: Option<string>)
    modifies disk
    ensures path.Some? <==> pdfUrl != "" && IsPdfResponse(response) && response.doc.validPdf
    ensures path.Some? ==> path.value == PdfPath(dateStr)
    ensures path.Some? ==> disk.files == old(disk.files)[PdfPath(dateStr) := PdfFile(response.doc)]
    ensures pdfUrl != "" && IsPdfResponse(response) && !response.doc.validPdf ==>
              disk.files == old(disk.files) - {PdfPath(dateStr)}
    ensures pdfUrl == "" || !IsPdfResponse(response) ==> disk.files == old(disk.files)
  {
    if pdfUrl == "" {
      return None;
    }
    var p := PdfPath(dateStr);
    if !IsPdfResponse(response) {
      return None;
    }
    disk.Write(p, PdfFile(response.doc));
    if response.doc.validPdf {
      path := Some(p);
    } else {
      disk.Remove(p);
      path := None;
    }
  }
}
