/**
 * `GET /api/papers` (app/api/papers/route.ts): a category page of ten papers, with the
 * `page` and `category` query parameters defaulted and the category checked first.
 *
 * The handler's arXiv helper module is not part of this model: its category whitelist is
 * the `whitelist` parameter, and its fetch is `fetch`, answering with the page or the
 * message of the error it throws.
 */
module PapersRoute {
  import opened Wrappers
  import opened Numerals
  import opened PaperTypes
  import opened ArxivService
  import opened HttpResponses

  /** The page size of the route; it is not a parameter of the request. */
  const RoutePageSize: nat := 10

  /** `param || fallback`: a missing or empty parameter takes the fallback. */
  function ParamOr(param: Option<string>, fallback: string): (r: string)
    ensures param.Some? && param.value != "" ==> r == param.value
    ensures param.None? || param.value == "" ==> r == fallback
  {
    if param.Some? && param.value != "" then param.value else fallback
  }

  /** `parseInt(page || "0", 10)`, for page text that parses. */
  function PageNumber(pageParam: Option<string>): int
    requires ParseInt(ParamOr(pageParam, "0"), 10).Some?
  {
    ParseInt(ParamOr(pageParam, "0"), 10).value
  }

  /**
   * `GET`: 400 `{error: "Invalid category"}` for a category outside the whitelist; else
   * the page at `start = page * 10` in the envelope, with the edge-caching header; and
   * 500 `{error: "Failed to fetch papers"}` when the fetch throws.
   */
  function Get(pageParam: Option<string>, categoryParam: Option<string>, whitelist: seq<string>,
               fetch: (string, int, nat) -> Result<PapersPage>): (r: Response)
    requires ParamOr(categoryParam, "cs.AI") in whitelist ==> ParseInt(ParamOr(pageParam, "0"), 10).Some?
    ensures ParamOr(categoryParam, "cs.AI") !in whitelist ==>
      r == ErrorResponse("Invalid category", 400)
    ensures ParamOr(categoryParam, "cs.AI") in whitelist ==>
      var start := PageNumber(pageParam) * 10;
      var fetched := fetch(ParamOr(categoryParam, "cs.AI"), start, RoutePageSize);
      if fetched.Err? then r == ErrorResponse("Failed to fetch papers", 500)
      else
        r.status == 200 && r.cacheControl == Some(EdgeCaching) && r.body.PageBody? &&
        r.body.page.papers == fetched.value.papers &&
        r.body.page.totalResults == fetched.value.total &&
        r.body.page.startIndex == start &&
        (r.body.page.hasMore <==> start + |fetched.value.papers| < fetched.value.total)
  {
    var category := ParamOr(categoryParam, "cs.AI");
    if category !in whitelist then ErrorResponse("Invalid category", 400)
    else
      var start := PageNumber(pageParam) * RoutePageSize;
      match fetch(category, start, RoutePageSize)
      case Err(_) => ErrorResponse("Failed to fetch papers", 500)
      case Ok(page) => EdgeCachedPage(PageOf(page.papers, page.total, start))
  }

  /** An unknown category is answered without asking the arXiv helper. */
  lemma UnknownCategoryNotFetched(pageParam: Option<string>, categoryParam: Option<string>,
                                  whitelist: seq<string>, fetch1: (string, int, nat) -> Result<PapersPage>,
                                  fetch2: (string, int, nat) -> Result<PapersPage>)
    requires ParamOr(categoryParam, "cs.AI") !in whitelist
    ensures Get(pageParam, categoryParam, whitelist, fetch1) == Get(pageParam, categoryParam, whitelist, fetch2)
  {
  }

  /** A request without parameters, or with them empty, is the first `cs.AI` page. */
  lemma PapersDefaults(whitelist: seq<string>, fetch: (string, int, nat) -> Result<PapersPage>)
    requires "cs.AI" in whitelist
    ensures Get(None, None, whitelist, fetch) == Get(Some("0"), Some("cs.AI"), whitelist, fetch)
    ensures Get(Some(""), Some(""), whitelist, fetch) == Get(Some("0"), Some("cs.AI"), whitelist, fetch)
    ensures fetch("cs.AI", 0, 10).Ok? ==>
      Get(None, None, whitelist, fetch).body.page.startIndex == 0
  {
    ParseDecimal(0);
  }
}
