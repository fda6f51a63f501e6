/**
 * The home feed (components/feed/infinite-scroll.tsx): the same loader as the category
 * feed, which can also page through search results.
 *
 * `encode` stands for `encodeURIComponent`. As in the category feed, a load runs to
 * completion inside one call and the intersection observer is not modelled.
 */
module HomeFeed {
  import opened Wrappers
  import opened PaperTypes
  import opened FeedCore

  /** A search query is present and not empty (JavaScript truthiness of a string). */
  predicate Searching(searchQuery: Option<string>) {
    searchQuery.Some? && searchQuery.value != ""
  }

  /**
   * The endpoint of a page: a search when there is a query, whatever the category; else
   * the trending list for `trending`; else the category listing.
   */
  function FeedEndpoint(searchQuery: Option<string>, category: string, pageNum: nat,
                        encode: string -> string): (e: Endpoint)
    ensures e.SearchPage? <==> Searching(searchQuery)
    ensures e.SearchPage? ==> e == SearchPage(encode(searchQuery.value), pageNum)
    ensures e == Trending <==> !Searching(searchQuery) && category == "trending"
    ensures e.CategoryPage? ==> e == CategoryPage(pageNum, category)
  {
    if Searching(searchQuery) then SearchPage(encode(searchQuery.value), pageNum)
    else if category == "trending" then Trending
    else CategoryPage(pageNum, category)
  }

  /**
   * With an injective encoding that writes no `&`, two searches ask the same path exactly
   * when they have the same query and, unless that query is empty (then both load the
   * trending list), the same page.
   */
  lemma SearchPagesDiffer(q1: string, q2: string, p1: nat, p2: nat, encode: string -> string)
    requires forall q :: '&' !in encode(q)
    requires forall a, b :: encode(a) == encode(b) ==> a == b
    ensures Url(FeedEndpoint(Some(q1), "trending", p1, encode)) == Url(FeedEndpoint(Some(q2), "trending", p2, encode))
      <==> q1 == q2 && (q1 != "" ==> p1 == p2)
  {
    var e1 := FeedEndpoint(Some(q1), "trending", p1, encode);
    var e2 := FeedEndpoint(Some(q2), "trending", p2, encode);
    UrlInjective(e1, e2);
  }

  class HomeFeedScroll {
    var papers: seq<Paper>
    var page: nat
    var isLoading: bool
    var hasMore: bool
    var error: Option<string>
    /** `isLoadingRef.current`, the guard against overlapping loads. */
    var isLoadingRef: bool
    /** The category the feed was mounted with; it never changes. */
    const category: string
    /** The search query prop. */
    const searchQuery: Option<string>

    /** Between loads, nothing is loading. */
    predicate Idle()
      reads this
    {
      !isLoading && !isLoadingRef
    }

    /** The first render; the category defaults to `cs.AI`. */
    constructor(initialCategory: Option<string>, searchQuery: Option<string>)
      ensures Idle() && papers == [] && page == 0 && hasMore && error.None?
      ensures category == (if initialCategory.Some? then initialCategory.value else "cs.AI")
      ensures this.searchQuery == searchQuery
    {
      papers := [];
      page := 0;
      isLoading := false;
      hasMore := true;
      error := None;
      isLoadingRef := false;
      category := if initialCategory.Some? then initialCategory.value else "cs.AI";
      this.searchQuery := searchQuery;
    }

    /**
     * `fetchPapers(pageNum)`: nothing while a load runs or when there are no more pages;
     * otherwise the page is requested from the endpoint the query and category choose,
     * a success merges the batch and takes `hasMore` and the page number, a failure only
     * sets the error, and the loading flags are cleared either way.
     */
    method FetchPapers(pageNum: nat, encode: string -> string, respond: Endpoint -> FetchOutcome)
      returns (sent: Option<Endpoint>)
      modifies this
      ensures old(isLoadingRef) || !old(hasMore) ==>
        sent.None? && papers == old(papers) && page == old(page) && hasMore == old(hasMore) &&
        error == old(error) && isLoading == old(isLoading) && isLoadingRef == old(isLoadingRef)
      ensures !old(isLoadingRef) && old(hasMore) ==>
        sent == Some(FeedEndpoint(searchQuery, category, pageNum, encode)) && Idle() &&
        match respond(sent.value)
        case Received(data) =>
          papers == Merge(old(papers), data.papers) && hasMore == data.hasMore &&
          page == pageNum && error.None?
        case _ =>
          papers == old(papers) && page == old(page) && hasMore == old(hasMore) &&
          error == Some(ErrorMessage(respond(sent.value)))
    {
      if isLoadingRef || !hasMore {
        return None;
      }
      isLoadingRef := true;
      isLoading := true;
      error := None;
      var endpoint := FeedEndpoint(searchQuery, category, pageNum, encode);
      sent := Some(endpoint);
      var outcome := respond(endpoint);
      match outcome {
        case Received(data) =>
          papers := Merge(papers, data.papers);
          hasMore := data.hasMore;
          page := pageNum;
        case NotOk =>
          error := Some("Failed to fetch papers");
        case Threw(message) =>
          error := Some(message);
        case ThrewOther =>
          error := Some("Something went wrong");
      }
      isLoading := false;
      isLoadingRef := false;
    }

    /**
     * "Try again": `fetchPapers(page)`, so the page last loaded is requested again, under
     * the same guard; a success merges the batch into what is shown and keeps the page
     * number, a failure sets the error anew.
     */
    method TryAgain(encode: string -> string, respond: Endpoint -> FetchOutcome)
      returns (sent: Option<Endpoint>)
      modifies this
      ensures old(isLoadingRef) || !old(hasMore) ==>
        sent.None? && papers == old(papers) && page == old(page) && hasMore == old(hasMore) &&
        error == old(error) && isLoading == old(isLoading) && isLoadingRef == old(isLoadingRef)
      ensures !old(isLoadingRef) && old(hasMore) ==>
        sent == Some(FeedEndpoint(searchQuery, category, old(page), encode)) && Idle() &&
        page == old(page) &&
        match respond(sent.value)
        case Received(data) =>
          papers == Merge(old(papers), data.papers) && hasMore == data.hasMore && error.None?
        case _ =>
          papers == old(papers) && hasMore == old(hasMore) &&
          error == Some(ErrorMessage(respond(sent.value)))
    {
      sent := FetchPapers(page, encode, respond);
    }
  }

  /**
   * Retrying a page already shown adds none of the papers shown again: the merge drops
   * every batch paper whose id is on screen.
   */
  lemma RetryAddsNoRepeat(prev: seq<Paper>, batch: seq<Paper>)
    requires forall p :: p in batch ==> p.id in Ids(prev)
    ensures Merge(prev, batch) == prev
  {
    UnseenNone(Ids(prev), batch);
  }

  lemma {:induction false} UnseenNone(ids: seq<string>, batch: seq<Paper>)
    requires forall p :: p in batch ==> p.id in ids
    ensures Unseen(ids, batch) == []
  {
    if batch != [] {
      assert batch[0] in batch;
      assert forall p :: p in batch[1..] ==> p in batch;
      UnseenNone(ids, batch[1..]);
    }
  }
}
