/**
 * `GET /api/trending` (app/api/trending/route.ts): every trending paper in one envelope
 * that says there is nothing more to load.
 */
module TrendingRoute {
  import opened Wrappers
  import opened PaperTypes
  import opened HttpResponses
  import opened HuggingFace

  /**
   * `GET`, given what `getTrendingPapers` produced or threw: the papers with
   * `totalResults` their count, `startIndex` 0 and `hasMore` false, or 500
   * `{error: "Failed to fetch trending papers"}`. No caching header is set.
   */
  function Get(trending: Result<seq<Paper>>): (r: Response)
    ensures trending.Err? ==> r == ErrorResponse("Failed to fetch trending papers", 500)
    ensures trending.Ok? ==>
      r.status == 200 && r.cacheControl.None? && r.body.PageBody? &&
      r.body.page.papers == trending.value && r.body.page.totalResults == |trending.value| &&
      r.body.page.startIndex == 0 && !r.body.page.hasMore
  {
    match trending
    case Err(_) => ErrorResponse("Failed to fetch trending papers", 500)
    case Ok(papers) => Response(200, PageBody(PapersResponse(papers, |papers|, 0, false)), None)
  }

  /**
   * The fixed envelope is the one the listing formula gives for the whole list at offset
   * 0: `0 + papers.length < papers.length` never holds.
   */
  lemma TrendingEnvelopeIsPageOf(papers: seq<Paper>)
    ensures Get(Ok(papers)).body == PageBody(PageOf(papers, |papers|, 0))
  {
  }

  /**
   * Since the trending adapter never throws, the route never answers 500: it always
   * answers the adapter's papers, which are all well linked.
   */
  lemma TrendingNeverFails(response: HFResponse)
    ensures var r := Get(Ok(TrendingPapers(response)));
      r.status == 200 && r.body.PageBody? &&
      forall p :: p in r.body.page.papers ==> WellLinked(p)
  {
    TrendingWellLinked(response);
  }
}
