/**
 `search_entries`: scan the document page by page and line by line, and
 keep every line that contains both the searched name and the keyword,
 ignoring case.
 */
module Extractor {
  import opened Wrappers
  import opened Text
  import opened Storage

  datatype Entry = Entry(page: nat, text: string, section: string)

  const Section3 := "Seção 3"
  const DefaultKeyword := "Convocação"

  predicate LineMatches(line: string, nameLower: string, keywordLower: string) {
    Contains(Lower(line), nameLower) && Contains(Lower(line), keywordLower)
  }

  /** The entry a line yields: one when it matches, none otherwise. */
  function LineEntry(page: nat, line: string, nameLower: string, keywordLower: string): (r: seq<Entry>)
    ensures |r| <= 1
    ensures |r| == 1 <==> LineMatches(line, nameLower, keywordLower)
  {
    if LineMatches(line, nameLower, keywordLower) then [Entry(page, Strip(line), Section3)] else []
  }

  /** A page with no text (None or "") is skipped. */
  function PageLines(text: Option<string>): seq<string> {
    if text.None? || text.value == "" then [] else SplitLines(text.value)
  }

  /** The lines of every page, page by page. */
  function DocumentLines(pages: seq<Option<string>>): (r: seq<seq<string>>)
    ensures |r| == |pages|
    ensures forall p :: 0 <= p < |pages| ==> r[p] == PageLines(pages[p])
  {
    seq(|pages|, p requires 0 <= p < |pages| => PageLines(pages[p]))
  }

  /** The entries that the lines of page `page` contribute, in line order. */
  function LineEntries(page: nat, lines: seq<string>, nameLower: string, keywordLower: string): seq<Entry>
  {
    if lines == [] then []
    else
      LineEntries(page, lines[..|lines| - 1], nameLower, keywordLower)
      + LineEntry(page, lines[|lines| - 1], nameLower, keywordLower)
  }

  /** The entries of the first `|doc|` pages, numbered from 1. */
  function PagesEntries(doc: seq<seq<string>>, nameLower: string, keywordLower: string): seq<Entry>
  {
    if doc == [] then []
    else
      PagesEntries(doc[..|doc| - 1], nameLower, keywordLower)
      + LineEntries(|doc|, doc[|doc| - 1], nameLower, keywordLower)
  }

  function ExtractEntries(pages: seq<Option<string>>, name: string, keyword: string): seq<Entry> {
    PagesEntries(DocumentLines(pages), Lower(name), Lower(keyword))
  }

  /**
   What `search_entries(path, name, keyword)` returns for the files on disk:
   [] when the path is missing or empty, names no file, or the file cannot be
   read as a PDF.
   */
  function EntriesOnDisk(files: map<string, FileData>, path: Option<string>, name: string, keyword: string)
    : seq<Entry>
  {
    if path.None? || path.value == "" || path.value !in files then []
    else
      match files[path.value]
      case TextFile(_) => []
      case PdfFile(doc) =>
        match doc.pages
        case None => []
        case Some(pages) => ExtractEntries(pages, name, keyword)
  }

  method SearchEntries(disk: Disk, path: Option<string>, name: string, keyword: string)
    returns (entries: seq<Entry>)
    ensures entries == EntriesOnDisk(disk.files, path, name, keyword)
  {
    if path.None? || path.value == "" || path.value !in disk.files {
      return [];
    }
    var file := disk.files[path.value];
    if file.TextFile? || file.doc.pages.None? {
      return [];
    }
    entries := ScanPages(file.doc.pages.value, Lower(name), Lower(keyword));
  }

  /** The page loop of `search_entries`, over the text of each page. */
  method ScanPages(pages: seq<Option<string>>, nameLower: string, keywordLower: string)
    returns (entries: seq<Entry>)
    ensures entries == PagesEntries(DocumentLines(pages), nameLower, keywordLower)
  {
    ghost var doc := DocumentLines(pages);
    entries := [];
    var p := 0;
    while p < |pages|
      invariant 0 <= p <= |pages|
      invariant entries == PagesEntries(doc[..p], nameLower, keywordLower)
    {
      var lines := PageLines(pages[p]);
      assert lines == doc[p];
      entries := ScanLines(entries, p + 1, lines, nameLower, keywordLower);
      PagesEntriesStep(doc, p, nameLower, keywordLower);
      p := p + 1;
    }
    assert doc[..p] == doc;
  }

  /** The line loop of `search_entries`: appends the matching lines of one page to `entries`. */
  method ScanLines(entries0: seq<Entry>, page: nat, lines: seq<string>, nameLower: string, keywordLower: string)
    returns (entries: seq<Entry>)
    ensures entries == entries0 + LineEntries(page, lines, nameLower, keywordLower)
  {
    entries := entries0;
    var l := 0;
    while l < |lines|
      invariant 0 <= l <= |lines|
      invariant entries == entries0 + LineEntries(page, lines[..l], nameLower, keywordLower)
    {
      ScanStep(entries0, entries, page, lines, l, nameLower, keywordLower);
      var lineLower := Lower(lines[l]);
      if Contains(lineLower, nameLower) && Contains(lineLower, keywordLower) {
        entries := entries + [Entry(page, Strip(lines[l]), Section3)];
      }
      l := l + 1;
    }
    assert lines[..l] == lines;
  }

  /** The lines of one page, each paired with the page number. */
  function Tag(page: nat, lines: seq<string>): (r: seq<(nat, string)>)
    ensures |r| == |lines|
    ensures forall k :: 0 <= k < |lines| ==> r[k] == (page, lines[k])
  {
    if lines == [] then [] else Tag(page, lines[..|lines| - 1]) + [(page, lines[|lines| - 1])]
  }

  /** One turn of the line loop keeps `entries == entries0 + LineEntries(page, lines[..l], ...)`. */
  lemma ScanStep(entries0: seq<Entry>, entries: seq<Entry>, page: nat, lines: seq<string>, l: nat,
                 nl: string, kl: string)
    requires l < |lines|
    requires entries == entries0 + LineEntries(page, lines[..l], nl, kl)
    ensures LineMatches(lines[l], nl, kl) ==>
              entries + [Entry(page, Strip(lines[l]), Section3)] == entries0 + LineEntries(page, lines[..l + 1], nl, kl)
    ensures !LineMatches(lines[l], nl, kl) ==> entries == entries0 + LineEntries(page, lines[..l + 1], nl, kl)
  {
    assert lines[..l + 1][..l] == lines[..l];
    var done := LineEntries(page, lines[..l], nl, kl);
    assert LineEntries(page, lines[..l + 1], nl, kl) == done + LineEntry(page, lines[l], nl, kl);
  }

  lemma PagesEntriesStep(doc: seq<seq<string>>, p: nat, nl: string, kl: string)
    requires p < |doc|
    ensures PagesEntries(doc[..p + 1], nl, kl)
            == PagesEntries(doc[..p], nl, kl) + LineEntries(p + 1, doc[p], nl, kl)
  {
    assert doc[..p + 1][..p] == doc[..p];
  }

  /** Every line of the document with its 1-based page number, in reading order. */
  function NumberedLines(doc: seq<seq<string>>): seq<(nat, string)> {
    if doc == [] then []
    else NumberedLines(doc[..|doc| - 1]) + Tag(|doc|, doc[|doc| - 1])
  }

  /** The matching lines of a numbered list, turned into entries, in list order. */
  function Select(ls: seq<(nat, string)>, nameLower: string, keywordLower: string): seq<Entry> {
    if ls == [] then []
    else LineEntry(ls[0].0, ls[0].1, nameLower, keywordLower) + Select(ls[1..], nameLower, keywordLower)
  }

  lemma {:induction false} SelectAppend(a: seq<(nat, string)>, b: seq<(nat, string)>, nl: string, kl: string)
    ensures Select(a + b, nl, kl) == Select(a, nl, kl) + Select(b, nl, kl)
  {
    if a == [] {
      assert a + b == b;
    } else {
      assert (a + b)[0] == a[0];
      assert (a + b)[1..] == a[1..] + b;
      SelectAppend(a[1..], b, nl, kl);
    }
  }

  lemma {:induction false} LineEntriesIsSelect(page: nat, lines: seq<string>, nl: string, kl: string)
    ensures LineEntries(page, lines, nl, kl) == Select(Tag(page, lines), nl, kl)
  {
    if lines != [] {
      var n := |lines| - 1;
      LineEntriesIsSelect(page, lines[..n], nl, kl);
      SelectAppend(Tag(page, lines[..n]), [(page, lines[n])], nl, kl);
      assert Select([(page, lines[n])], nl, kl) == LineEntry(page, lines[n], nl, kl) + Select([], nl, kl);
    }
  }

  /**
   The result is exactly the matching lines of the document, in page-then-line
   order, each with its page number and its stripped text.
   */
  lemma {:induction false} ExtractEntriesSelectsLines(pages: seq<Option<string>>, name: string, keyword: string)
    ensures ExtractEntries(pages, name, keyword)
            == Select(NumberedLines(DocumentLines(pages)), Lower(name), Lower(keyword))
  {
    PagesEntriesIsSelect(DocumentLines(pages), Lower(name), Lower(keyword));
  }

  lemma {:induction false} PagesEntriesIsSelect(doc: seq<seq<string>>, nl: string, kl: string)
    ensures PagesEntries(doc, nl, kl) == Select(NumberedLines(doc), nl, kl)
  {
    if doc != [] {
      var n := |doc| - 1;
      PagesEntriesIsSelect(doc[..n], nl, kl);
      LineEntriesIsSelect(|doc|, doc[n], nl, kl);
      SelectAppend(NumberedLines(doc[..n]), Tag(|doc|, doc[n]), nl, kl);
    }
  }

  /** Every entry is a Section 3 entry of a page in `[lo, hi]`. */
  predicate PagesWithin(es: seq<Entry>, lo: int, hi: int) {
    forall i :: 0 <= i < |es| ==> lo <= es[i].page <= hi && es[i].section == Section3
  }

  predicate PagesAscending(es: seq<Entry>) {
    forall i, j :: 0 <= i < j < |es| ==> es[i].page <= es[j].page
  }

  lemma JoinPages(a: seq<Entry>, b: seq<Entry>, n: nat)
    requires PagesWithin(a, 1, n) && PagesAscending(a)
    requires PagesWithin(b, n + 1, n + 1)
    ensures PagesWithin(a + b, 1, n + 1) && PagesAscending(a + b)
  {
    var es := a + b;
    forall i | 0 <= i < |es|
      ensures 1 <= es[i].page <= n + 1 && es[i].section == Section3
    {
      if i < |a| {
        assert es[i] == a[i];
      } else {
        assert es[i] == b[i - |a|];
      }
    }
    forall i, j | 0 <= i < j < |es|
      ensures es[i].page <= es[j].page
    {
      if j >= |a| {
        assert es[j] == b[j - |a|];
        if i >= |a| {
          assert es[i] == b[i - |a|];
        }
      }
    }
  }

  /** Page numbers are 1-based, never decrease along the result, and every entry is labelled Section 3. */
  lemma ExtractEntriesShape(pages: seq<Option<string>>, name: string, keyword: string)
    ensures PagesWithin(ExtractEntries(pages, name, keyword), 1, |pages|)
    ensures PagesAscending(ExtractEntries(pages, name, keyword))
  {
    PagesEntriesShape(DocumentLines(pages), Lower(name), Lower(keyword));
  }

  lemma {:induction false} PagesEntriesShape(doc: seq<seq<string>>, nl: string, kl: string)
    ensures PagesWithin(PagesEntries(doc, nl, kl), 1, |doc|)
    ensures PagesAscending(PagesEntries(doc, nl, kl))
  {
    if doc != [] {
      var n := |doc| - 1;
      PagesEntriesShape(doc[..n], nl, kl);
      LineEntriesShape(|doc|, doc[n], nl, kl);
      JoinPages(PagesEntries(doc[..n], nl, kl), LineEntries(|doc|, doc[n], nl, kl), n);
    }
  }

  lemma {:induction false} LineEntriesShape(page: nat, lines: seq<string>, nl: string, kl: string)
    ensures PagesWithin(LineEntries(page, lines, nl, kl), page, page)
  {
    if lines != [] {
      LineEntriesShape(page, lines[..|lines| - 1], nl, kl);
      var front := LineEntries(page, lines[..|lines| - 1], nl, kl);
      var last := LineEntry(page, lines[|lines| - 1], nl, kl);
      var es := front + last;
      assert PagesWithin(last, page, page);
      forall i | 0 <= i < |es|
        ensures page <= es[i].page <= page && es[i].section == Section3
      {
        if i >= |front| {
          assert es[i] == last[i - |front|];
        }
      }
    }
  }
}
