/**
 The edition-link selection of `get_dou_section3_pdf_url`: given the rows
 of the "ResultadoConsulta" results table, already parsed, pick the first
 row of the ordinary Section 3 journal whose download link carries a
 `redirecionaSelect('...');` call, and resolve the URL it names.
 */
module Locator {
  import opened Wrappers
  import opened Text

  /** An `<a>` tag: its text (`get_text(strip=True)`) and its `title` and `onclick` attributes. */
  datatype Link = Link(text: string, title: Option<string>, onclick: Option<string>)

  /** A `<td>`: its `<a>` descendants in document order. */
  datatype Cell = Cell(links: seq<Link>)

  /** A `<tr>`: its `<td>` cells. */
  datatype Row = Row(cells: seq<Cell>)

  const SectionLabel := "diário oficial da união - seção 3"
  const ExtraMarker := "extra"
  const DownloadTitle := "download da edição completa"
  const BaseUrl := "https://pesquisa.in.gov.br/imprensa/core/"
  const CallOpen := "redirecionaSelect('"
  const CallClose := "');"

  /** At least two cells, and the first link of the first cell names the ordinary Section 3 journal. */
  predicate IsSection3Row(row: Row) {
    && |row.cells| >= 2
    && |row.cells[0].links| > 0
    && var name := Lower(row.cells[0].links[0].text);
       Contains(name, SectionLabel) && !Contains(name, ExtraMarker)
  }

  /** `find("a", onclick=True, title=lambda t: t and "download da edição completa" in t.lower())`'s test. */
  predicate IsDownloadLink(l: Link) {
    l.onclick.Some? && l.title.Some? && l.title.value != ""
    && Contains(Lower(l.title.value), DownloadTitle)
  }

  /** `find`: the first link that passes the test. */
  function FirstDownloadLink(links: seq<Link>): (r: Option<Link>)
    ensures r.None? <==> forall k :: 0 <= k < |links| ==> !IsDownloadLink(links[k])
    ensures r.Some? ==> exists k :: 0 <= k < |links| && links[k] == r.value && IsDownloadLink(links[k])
                          && forall m :: 0 <= m < k ==> !IsDownloadLink(links[m])
  {
    if links == [] then None
    else if IsDownloadLink(links[0]) then Some(links[0])
    else
      var r := FirstDownloadLink(links[1..]);
      assert forall k :: 1 <= k < |links| ==> links[k] == links[1..][k - 1];
      r
  }

  /** No line break in `s[a..b]`: the regex's `.` matches any other character. */
  predicate NoNewline(s: string, a: int, b: int)
    requires 0 <= a <= b <= |s|
  {
    forall m :: a <= m < b ==> s[m] != '\n'
  }

  /**
   `redirecionaSelect\('(.*?)'\);` matches `s` at `i`, with the group
   ending at `j`.
   */
  predicate CallAt(s: string, i: int, j: int) {
    && OccursAt(s, CallOpen, i)
    && i + |CallOpen| <= j
    && OccursAt(s, CallClose, j)
    && NoNewline(s, i + |CallOpen|, j)
  }

  /** The lazy `(.*?)'\);`: the first closing `');` from `j` on, unless a line break comes first. */
  function CloseFrom(s: string, j: nat): (k: Option<nat>)
    requires j <= |s|
    ensures k.Some? ==> && j <= k.value <= |s| && OccursAt(s, CallClose, k.value)
                        && NoNewline(s, j, k.value)
                        && forall m :: j <= m < k.value ==> !OccursAt(s, CallClose, m)
    ensures k.None? ==> forall m :: j <= m <= |s| && OccursAt(s, CallClose, m) ==> !NoNewline(s, j, m)
    decreases |s| - j
  {
    if OccursAt(s, CallClose, j) then Some(j)
    else if j == |s| || s[j] == '\n' then None
    else CloseFrom(s, j + 1)
  }

  /**
   `re.search`: the leftmost position from `from` on where the pattern
   matches, with the shortest group there; the result gives the start and
   the end of the group's closing `');`.
   */
  function FindCall(s: string, from: nat): (r: Option<(nat, nat)>)
    requires from <= |s|
    ensures r.Some? ==> && from <= r.value.0 && CallAt(s, r.value.0, r.value.1)
                        && forall i, j :: from <= i && CallAt(s, i, j) ==>
                             r.value.0 < i || (r.value.0 == i && r.value.1 <= j)
    ensures r.None? ==> forall i, j :: from <= i ==> !CallAt(s, i, j)
    decreases |s| - from
  {
    var start := from + |CallOpen|;
    if OccursAt(s, CallOpen, from) && CloseFrom(s, start).Some? then
      Some((from, CloseFrom(s, start).value))
    else if from == |s| then None
    else FindCall(s, from + 1)
  }

  /** `match.group(1)`. */
  function SearchCall(s: string): (c: Option<string>)
    ensures c.Some? <==> exists i, j :: CallAt(s, i, j)
  {
    match FindCall(s, 0)
    case Some((i, j)) => Some(s[i + |CallOpen|..j])
    case None => None
  }

  /** The group the row yields, when the row qualifies and its download link holds the call. */
  function RowCapture(row: Row): Option<string> {
    if !IsSection3Row(row) then None
    else
      match FirstDownloadLink(row.cells[|row.cells| - 1].links)
      case None => None
      case Some(link) => SearchCall(link.onclick.value)
  }

  /** A group that does not start with "http" is resolved against the base URL by `urljoin`. */
  function ResolveUrl(captured: string, join: (string, string) -> string): string {
    if StartsWith(captured, "http") then captured else join(BaseUrl, captured)
  }

  /** The index of the first row, in table order, that yields a group, or `|rows|` when none does. */
  function FirstCapture(rows: seq<Row>): (k: nat)
    ensures k <= |rows|
    ensures k < |rows| ==> RowCapture(rows[k]).Some?
    ensures forall m :: 0 <= m < k ==> RowCapture(rows[m]).None?
  {
    if rows == [] then 0
    else if RowCapture(rows[0]).Some? then 0
    else
      var k := FirstCapture(rows[1..]);
      assert forall m :: 1 <= m < |rows| ==> rows[m] == rows[1..][m - 1];
      k + 1
  }

  /** The row loop: the URL of the first row, in table order, that yields a group. */
  function SelectPdfUrl(rows: seq<Row>, join: (string, string) -> string): (r: Option<string>)
    ensures r.None? <==> forall k :: 0 <= k < |rows| ==> RowCapture(rows[k]).None?
    ensures r.Some? ==> exists k :: && 0 <= k < |rows| && RowCapture(rows[k]).Some?
                                     && (forall m :: 0 <= m < k ==> RowCapture(rows[m]).None?)
                                     && r.value == ResolveUrl(RowCapture(rows[k]).value, join)
  {
    var k := FirstCapture(rows);
    if k == |rows| then None else Some(ResolveUrl(RowCapture(rows[k]).value, join))
  }
}
