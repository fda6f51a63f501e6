/**
 * The records the feed passes around: a paper, and the page envelope every listing
 * endpoint answers with.
 */
module PaperTypes {
  import opened Wrappers
  import opened Strings

  /**
   * A paper (`abstractText` is the source's `abstract`, a reserved word here).
   * `thumbnail` is only ever set by the trending adapter; papers read from the arXiv feed
   * have none.
   */
  datatype Paper = Paper(
    id: string,
    title: string,
    abstractText: string,
    authors: seq<string>,
    publishedDate: string,
    updatedDate: string,
    categories: seq<string>,
    primaryCategory: string,
    pdfUrl: string,
    arxivUrl: string,
    thumbnail: Option<string>)

  /** One page of papers, with the position of the page in the whole result. */
  datatype PapersResponse = PapersResponse(
    papers: seq<Paper>,
    totalResults: int,
    startIndex: int,
    hasMore: bool)

  const PdfPrefix: string := "https://arxiv.org/pdf/"
  const PdfSuffix: string := ".pdf"
  const AbsPrefix: string := "https://arxiv.org/abs/"

  /** The PDF link of a paper, built from its arXiv id alone. */
  function PdfUrl(id: string): string {
    PdfPrefix + id + PdfSuffix
  }

  /** The abstract-page link of a paper, built from its arXiv id alone. */
  function AbsUrl(id: string): string {
    AbsPrefix + id
  }

  /** The arXiv id a PDF link was built from, if it has the PDF link's shape. */
  function IdOfPdfUrl(url: string): (r: Option<string>)
    ensures r.Some? ==> PdfUrl(r.value) == url
  {
    if |url| >= |PdfPrefix| + |PdfSuffix| && url[..|PdfPrefix|] == PdfPrefix
       && url[|url| - |PdfSuffix|..] == PdfSuffix
    then
      var id := url[|PdfPrefix|..|url| - |PdfSuffix|];
      assert url == PdfPrefix + id + PdfSuffix;
      Some(id)
    else None
  }

  /** The arXiv id an abstract-page link was built from, if it has that link's shape. */
  function IdOfAbsUrl(url: string): (r: Option<string>)
    ensures r.Some? ==> AbsUrl(r.value) == url
  {
    if StartsWith(url, AbsPrefix) then
      var id := url[|AbsPrefix|..];
      assert url == AbsPrefix + id;
      Some(id)
    else None
  }

  /** Both links recover the id they were built from, so each determines the id. */
  lemma LinksDetermineId(id: string)
    ensures IdOfPdfUrl(PdfUrl(id)) == Some(id)
    ensures IdOfAbsUrl(AbsUrl(id)) == Some(id)
  {
    var p := PdfUrl(id);
    assert p[..|PdfPrefix|] == PdfPrefix;
    assert p[|p| - |PdfSuffix|..] == PdfSuffix;
    assert p[|PdfPrefix|..|p| - |PdfSuffix|] == id;
    var a := AbsUrl(id);
    assert a[..|AbsPrefix|] == AbsPrefix;
    assert a[|AbsPrefix|..] == id;
  }

  /** A paper's two links are the ones its id gives. */
  predicate WellLinked(p: Paper) {
    p.pdfUrl == PdfUrl(p.id) && p.arxivUrl == AbsUrl(p.id)
  }

  /**
   * The envelope of one page: `totalResults` echoes the total, `startIndex` the offset of
   * the page, and `hasMore` says whether results remain after the page.
   */
  function PageOf(papers: seq<Paper>, total: int, start: int): (r: PapersResponse)
    ensures r.papers == papers && r.totalResults == total && r.startIndex == start
    ensures r.hasMore <==> start + |papers| < total
  {
    PapersResponse(papers, total, start, start + |papers| < total)
  }
}
