/**
 * `GET /api/search` (app/api/search/route.ts): ten results of a free-text search, with the
 * query trimmed and required.
 *
 * The handler's arXiv helper module is not part of this model: its search is `search`,
 * answering with the page or the message of the error it throws.
 */
module SearchRoute {
  import opened Wrappers
  import opened Numerals
  import opened Whitespace
  import opened PaperTypes
  import opened ArxivService
  import opened HttpResponses
  import opened PapersRoute

  /** The query is missing, empty, or whitespace only. */
  predicate BlankQuery(q: Option<string>) {
    q.None? || Trim(q.value) == ""
  }

  /**
   * `GET`: 400 `{error: "Search query is required"}` for a blank query; else the page of
   * the TRIMMED query at `start = page * 10` in the envelope, with the edge-caching
   * header; and 500 `{error: "Failed to search papers"}` when the search throws.
   */
  function Get(qParam: Option<string>, pageParam: Option<string>,
               search: (string, int, nat) -> Result<PapersPage>): (r: Response)
    requires !BlankQuery(qParam) ==> ParseInt(ParamOr(pageParam, "0"), 10).Some?
    ensures BlankQuery(qParam) ==> r == ErrorResponse("Search query is required", 400)
    ensures !BlankQuery(qParam) ==>
      var start := PageNumber(pageParam) * 10;
      var fetched := search(Trim(qParam.value), start, RoutePageSize);
      if fetched.Err? then r == ErrorResponse("Failed to search papers", 500)
      else
        r.status == 200 && r.cacheControl == Some(EdgeCaching) && r.body.PageBody? &&
        r.body.page.papers == fetched.value.papers &&
        r.body.page.totalResults == fetched.value.total &&
        r.body.page.startIndex == start &&
        (r.body.page.hasMore <==> start + |fetched.value.papers| < fetched.value.total)
  {
    if qParam.None? || |Trim(qParam.value)| == 0 then ErrorResponse("Search query is required", 400)
    else
      var start := PageNumber(pageParam) * RoutePageSize;
      match search(Trim(qParam.value), start, RoutePageSize)
      case Err(_) => ErrorResponse("Failed to search papers", 500)
      case Ok(page) => EdgeCachedPage(PageOf(page.papers, page.total, start))
  }

  /**
   * Queries that differ only in surrounding whitespace get the same answer, and a blank
   * one is answered without searching.
   */
  lemma SearchSeesTrimmedQuery(q1: string, q2: string, pageParam: Option<string>,
                               search: (string, int, nat) -> Result<PapersPage>)
    requires Trim(q1) == Trim(q2)
    requires Trim(q1) != "" ==> ParseInt(ParamOr(pageParam, "0"), 10).Some?
    ensures Get(Some(q1), pageParam, search) == Get(Some(q2), pageParam, search)
  {
  }

  /** A blank query never reaches the search. */
  lemma BlankQueryNotSearched(qParam: Option<string>, pageParam: Option<string>,
                              search1: (string, int, nat) -> Result<PapersPage>,
                              search2: (string, int, nat) -> Result<PapersPage>)
    requires BlankQuery(qParam)
    ensures Get(qParam, pageParam, search1) == Get(qParam, pageParam, search2)
  {
  }
}
