/**
 * The server-side arXiv service (features/papers/server/service.ts): paged category
 * listings and single papers behind process-wide caches that hold an answer for five
 * minutes, and an uncached search.
 *
 * The HTTP request is not modelled: each operation hands the query it would send to an
 * `upstream` function and gets back either the parsed feed or the failed status. The
 * clock is read twice, as in the source: `now` is the time of the cache lookup before the
 * request, and `stamp`, no earlier, the time the answer is stored once it has arrived;
 * both are in milliseconds.
 */
module ArxivService {
  import opened Wrappers
  import opened Strings
  import opened Numerals
  import opened PaperTypes
  import opened ArxivEntry

  /** How long a cached answer is served, in milliseconds: five minutes. */
  const CacheTtl: int := 5 * 60 * 1000

  /** The query parameters of a request to the arXiv API. */
  datatype ArxivQuery =
    | Listing(searchQuery: string, start: nat, maxResults: nat, sortBy: string)
    | ById(idList: string)

  /**
   * What the API answered: the feed's entries and its `opensearch:totalResults` (`None`
   * when that element is missing or its text is empty), or a failed HTTP status.
   */
  datatype ArxivResponse =
    | Feed(entries: seq<Entry>, totalResults: Option<int>)
    | HttpError(status: nat)

  /** A page of papers and the number of results the API has in all. */
  datatype PapersPage = PapersPage(papers: seq<Paper>, total: int)

  datatype CachedPage = CachedPage(data: seq<Paper>, timestamp: int, total: int)
  datatype CachedPaper = CachedPaper(data: Paper, timestamp: int)

  /** The message of the error thrown for a failed response. */
  function ApiError(status: nat): string {
    "arXiv API error: " + Decimal(status)
  }

  /** The query `fetchPapers` sends for a category page, newest submissions first. */
  function CategoryQuery(category: string, start: nat, maxResults: nat): ArxivQuery {
    Listing("cat:" + category, start, maxResults, "submittedDate")
  }

  /** The query `searchPapers` sends, most relevant first. */
  function SearchQuery(query: string, start: nat, maxResults: nat): ArxivQuery {
    Listing("all:" + query, start, maxResults, "relevance")
  }

  /** The total of a feed: the parsed `totalResults`, or 0 when it is absent. */
  function FeedTotal(totalResults: Option<int>): int {
    if totalResults.Some? then totalResults.value else 0
  }

  /** The key of a category page in the cache: `category-start-maxResults`. */
  function CacheKey(category: string, start: nat, maxResults: nat): string {
    category + "-" + Decimal(start) + "-" + Decimal(maxResults)
  }

  /** Different requests never share a cache entry. */
  lemma CacheKeyInjective(c1: string, s1: nat, m1: nat, c2: string, s2: nat, m2: nat)
    ensures CacheKey(c1, s1, m1) == CacheKey(c2, s2, m2) <==> c1 == c2 && s1 == s2 && m1 == m2
  {
    if CacheKey(c1, s1, m1) == CacheKey(c2, s2, m2) {
      DecimalDigits(s1);
      DecimalDigits(m1);
      DecimalDigits(s2);
      DecimalDigits(m2);
      SplitAtLastDash(c1 + "-" + Decimal(s1), Decimal(m1), c2 + "-" + Decimal(s2), Decimal(m2));
      SplitAtLastDash(c1, Decimal(s1), c2, Decimal(s2));
      ToRadixInjective(s1, s2, 10);
      ToRadixInjective(m1, m2, 10);
    }
  }

  /** Two strings ending in a dash-free part after a dash split there the same way. */
  lemma SplitAtLastDash(a1: string, b1: string, a2: string, b2: string)
    requires '-' !in b1 && '-' !in b2
    requires a1 + "-" + b1 == a2 + "-" + b2
    ensures a1 == a2 && b1 == b2
  {
    var s := a1 + "-" + b1;
    if |b1| < |b2| {
      DashAfter(a1, b1);
      assert false;
    } else if |b1| > |b2| {
      DashAfter(a2, b2);
      assert false;
    } else {
      assert a1 == s[..|a1|];
      assert b1 == s[|a1| + 1..];
    }
  }

  lemma DashAfter(a: string, b: string)
    ensures |a| < |a + "-" + b| && (a + "-" + b)[|a|] == '-'
  {
  }

  /** A cache entry is served when it was stored less than `CacheTtl` milliseconds ago. */
  predicate Fresh(timestamp: int, now: int) {
    now - timestamp < CacheTtl
  }

  /** The result of a fetch once the response is in: the parsed papers, or the error thrown. */
  function PageFrom(response: ArxivResponse): (r: Result<PapersPage>)
    ensures response.HttpError? ==> r == Err(ApiError(response.status))
    ensures response.Feed? ==> r.Ok? && r.value.papers == EntryPapers(response.entries)
    ensures response.Feed? && response.totalResults.None? ==> r == Ok(PapersPage(r.value.papers, 0))
    ensures response.Feed? && response.totalResults.Some? ==> r.Ok? && r.value.total == response.totalResults.value
  {
    match response
    case HttpError(status) => Err(ApiError(status))
    case Feed(entries, totalResults) => Ok(PapersPage(EntryPapers(entries), FeedTotal(totalResults)))
  }

  /**
   * `searchPapers`: asks the API with the query unchanged and never touches a cache; the
   * same query and upstream answer always give the same result.
   */
  method SearchPapers(query: string, start: nat, maxResults: nat, upstream: ArxivQuery -> ArxivResponse)
    returns (r: Result<PapersPage>, sent: ArxivQuery)
    ensures sent == SearchQuery(query, start, maxResults)
    ensures r == PageFrom(upstream(sent))
  {
    sent := SearchQuery(query, start, maxResults);
    var response := upstream(sent);
    match response {
      case HttpError(status) =>
        r := Err(ApiError(status));
      case Feed(entries, totalResults) =>
        var papers := ParseEntries(entries);
        var total := 0;
        if totalResults.Some? {
          total := totalResults.value;
        }
        r := Ok(PapersPage(papers, total));
    }
  }

  /** The module-level caches of the service. */
  class Caches {
    /** Category pages by `CacheKey`. */
    var pages: map<string, CachedPage>
    /** Single papers by the id they were asked for. */
    var papers: map<string, CachedPaper>

    constructor()
      ensures pages == map[] && papers == map[]
    {
      pages := map[];
      papers := map[];
    }

    /** The cached page for the key, when there is one still fresh at `now`. */
    function FreshPage(key: string, now: int): Option<CachedPage>
      reads this
    {
      if key in pages && Fresh(pages[key].timestamp, now) then Some(pages[key]) else None
    }

    /**
     * `fetchPapers`. A fresh cached page is returned with no request (`sent` is `None`)
     * and the cache unchanged. Otherwise the category query is sent; a failed status
     * throws and leaves the cache alone, and a feed is parsed, stored under the key with
     * the time read after the answer arrived, and returned.
     */
    method FetchPapers(category: string, start: nat, maxResults: nat, now: int, stamp: int,
                       upstream: ArxivQuery -> ArxivResponse)
      returns (r: Result<PapersPage>, sent: Option<ArxivQuery>)
      requires now <= stamp
      modifies this
      ensures papers == old(papers)
      ensures var key := CacheKey(category, start, maxResults);
        match old(FreshPage(key, now))
        case Some(hit) =>
          sent.None? && r == Ok(PapersPage(hit.data, hit.total)) && pages == old(pages)
        case None =>
          sent == Some(CategoryQuery(category, start, maxResults)) &&
          r == PageFrom(upstream(sent.value)) &&
          (if r.Ok? then pages == old(pages)[key := CachedPage(r.value.papers, stamp, r.value.total)]
           else pages == old(pages))
    {
      var key := CacheKey(category, start, maxResults);
      if key in pages && now - pages[key].timestamp < CacheTtl {
        var cached := pages[key];
        return Ok(PapersPage(cached.data, cached.total)), None;
      }
      var query := CategoryQuery(category, start, maxResults);
      sent := Some(query);
      var response := upstream(query);
      if response.HttpError? {
        return Err(ApiError(response.status)), sent;
      }
      var list := ParseEntries(response.entries);
      var total := 0;
      if response.totalResults.Some? {
        total := response.totalResults.value;
      }
      pages := pages[key := CachedPage(list, stamp, total)];
      r := Ok(PapersPage(list, total));
    }

    /** The cached paper for the id, when there is one still fresh at `now`. */
    function FreshPaper(id: string, now: int): Option<CachedPaper>
      reads this
    {
      if id in papers && Fresh(papers[id].timestamp, now) then Some(papers[id]) else None
    }

    /**
     * `fetchPaperById`. A fresh cached paper is returned with no request. Otherwise the id
     * query is sent: a failed status throws, a feed without entries gives `None` and
     * caches nothing, and otherwise the first entry's paper is stored, with the time read
     * after the answer arrived, and returned.
     */
    method FetchPaperById(id: string, now: int, stamp: int, upstream: ArxivQuery -> ArxivResponse)
      returns (r: Result<Option<Paper>>, sent: Option<ArxivQuery>)
      requires now <= stamp
      modifies this
      ensures pages == old(pages)
      ensures match old(FreshPaper(id, now))
        case Some(hit) =>
          sent.None? && r == Ok(Some(hit.data)) && papers == old(papers)
        case None =>
          sent == Some(ById(id)) &&
          match upstream(ById(id))
          case HttpError(status) =>
            r == Err(ApiError(status)) && papers == old(papers)
          case Feed(entries, _) =>
            if entries == [] then
              r == Ok(None) && papers == old(papers)
            else
              r == Ok(Some(EntryPaper(entries[0]))) &&
              papers == old(papers)[id := CachedPaper(EntryPaper(entries[0]), stamp)]
    {
      if id in papers && now - papers[id].timestamp < CacheTtl {
        return Ok(Some(papers[id].data)), None;
      }
      sent := Some(ById(id));
      var response := upstream(ById(id));
      if response.HttpError? {
        return Err(ApiError(response.status)), sent;
      }
      if |response.entries| == 0 {
        return Ok(None), sent;
      }
      var paper := ParseArxivEntry(response.entries[0]);
      papers := papers[id := CachedPaper(paper, stamp)];
      r := Ok(Some(paper));
    }
  }

  /**
   * Asking for the same page twice within five minutes of the first request sends one
   * request: when the first call fetched the page, the second is served from the cache
   * with the same result. The entry was stored when the answer arrived, no earlier than
   * the first request, so it is still fresh.
   */
  method RepeatWithinTtl(caches: Caches, category: string, start: nat, maxResults: nat,
                         now: int, stamp: int, later: int, laterStamp: int,
                         upstream: ArxivQuery -> ArxivResponse)
    returns (first: Result<PapersPage>, second: Result<PapersPage>,
             sentFirst: Option<ArxivQuery>, sentAgain: Option<ArxivQuery>)
    requires now <= stamp && later <= laterStamp
    requires now <= later < now + CacheTtl
    modifies caches
    ensures sentFirst.Some? && first.Ok? ==> sentAgain.None? && second == first
  {
    first, sentFirst := caches.FetchPapers(category, start, maxResults, now, stamp, upstream);
    second, sentAgain := caches.FetchPapers(category, start, maxResults, later, laterStamp, upstream);
  }

  /** An arXiv category the listing accepts. */
  datatype Category = Category(id: string, name: string)

  /** `ARXIV_CATEGORIES`, in declaration order. */
  const ArxivCategories: seq<Category> := [
    Category("cs.AI", "Artificial Intelligence"),
    Category("cs.LG", "Machine Learning"),
    Category("cs.CL", "Computation & Language"),
    Category("cs.CV", "Computer Vision"),
    Category("cs.NE", "Neural & Evolutionary"),
    Category("cs.RO", "Robotics"),
    Category("stat.ML", "Statistics ML"),
    Category("cs.SE", "Software Engineering"),
    Category("cs.CR", "Cryptography"),
    Category("cs.DC", "Distributed Computing")
  ]

  /** The ids of a list of categories, in order. */
  function CategoryIds(cats: seq<Category>): (r: seq<string>)
    ensures |r| == |cats| && forall k :: 0 <= k < |cats| ==> r[k] == cats[k].id
  {
    seq(|cats|, k requires 0 <= k < |cats| => cats[k].id)
  }

  /** `ARXIV_CATEGORIES.find((c) => c.id === category)` finds something. */
  predicate IsArxivCategory(category: string) {
    category in CategoryIds(ArxivCategories)
  }

  /** The whitelist, id by id. */
  lemma ArxivCategoryIds()
    ensures CategoryIds(ArxivCategories) ==
      ["cs.AI", "cs.LG", "cs.CL", "cs.CV", "cs.NE", "cs.RO", "stat.ML", "cs.SE", "cs.CR", "cs.DC"]
  {
  }
}
