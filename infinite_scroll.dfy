/**
 * The category feed (components/InfiniteScroll.tsx): the page loader, its guard and state
 * updates, and pull to refresh.
 *
 * A load runs to completion inside one call: the request is the endpoint handed to
 * `respond`, which gives back how it ended. The intersection observer that asks for the
 * next page, and the interleaving of loads with renders, are not modelled.
 */
module InfiniteScrollFeed {
  import opened Wrappers
  import opened PaperTypes
  import opened FeedCore

  /** The endpoint of a page: the trending list for `trending`, else the category listing. */
  function CategoryEndpoint(category: string, pageNum: nat): (e: Endpoint)
    ensures category == "trending" <==> e == Trending
    ensures e.CategoryPage? ==> e.page == pageNum && e.category == category
    ensures Encoded(e)
  {
    if category == "trending" then Trending else CategoryPage(pageNum, category)
  }

  class InfiniteScroll {
    var papers: seq<Paper>
    var page: nat
    var isLoading: bool
    var hasMore: bool
    var error: Option<string>
    /** `isLoadingRef.current`, the guard against overlapping loads. */
    var isLoadingRef: bool
    /** The category the feed was mounted with; it never changes. */
    const category: string

    /** Between loads, nothing is loading. */
    predicate Idle()
      reads this
    {
      !isLoading && !isLoadingRef
    }

    /** The first render; the category defaults to `cs.AI`. */
    constructor(initialCategory: Option<string>)
      ensures Idle() && papers == [] && page == 0 && hasMore && error.None?
      ensures category == (if initialCategory.Some? then initialCategory.value else "cs.AI")
    {
      papers := [];
      page := 0;
      isLoading := false;
      hasMore := true;
      error := None;
      isLoadingRef := false;
      category := if initialCategory.Some? then initialCategory.value else "cs.AI";
    }

    /**
     * The `fetchPapers` callback of a render in which `hasMore` was `renderedHasMore`.
     * It does nothing while a load runs or when that render had no more pages. Otherwise
     * it requests the page and, on success, merges the batch and takes the response's
     * `hasMore` and the page number; on failure it keeps the papers and the page and sets
     * the error. The loading flags are cleared either way.
     */
    method FetchAsRendered(pageNum: nat, renderedHasMore: bool, respond: Endpoint -> FetchOutcome)
      returns (sent: Option<Endpoint>)
      modifies this
      ensures isLoadingRef || !renderedHasMore ==> sent.None?
      ensures old(isLoadingRef) || !renderedHasMore ==>
        papers == old(papers) && page == old(page) && hasMore == old(hasMore) &&
        error == old(error) && isLoading == old(isLoading) && isLoadingRef == old(isLoadingRef)
      ensures !old(isLoadingRef) && renderedHasMore ==>
        sent == Some(CategoryEndpoint(category, pageNum)) && Idle() &&
        match respond(sent.value)
        case Received(data) =>
          papers == Merge(old(papers), data.papers) && hasMore == data.hasMore &&
          page == pageNum && error.None?
        case _ =>
          papers == old(papers) && page == old(page) && hasMore == old(hasMore) &&
          error == Some(ErrorMessage(respond(sent.value)))
    {
      if isLoadingRef || !renderedHasMore {
        return None;
      }
      isLoadingRef := true;
      isLoading := true;
      error := None;
      var endpoint := CategoryEndpoint(category, pageNum);
      sent := Some(endpoint);
      var outcome := respond(endpoint);
      match outcome {
        case Received(data) =>
          papers := Merge(papers, data.papers);
          hasMore := data.hasMore;
          page := pageNum;
        case NotOk =>
          error := Some("Failed to fetch papers");
        case Threw(message) =>
          error := Some(message);
        case ThrewOther =>
          error := Some("Something went wrong");
      }
      isLoading := false;
      isLoadingRef := false;
    }

    /** `fetchPapers(pageNum)` called from the current render. */
    method FetchPapers(pageNum: nat, respond: Endpoint -> FetchOutcome) returns (sent: Option<Endpoint>)
      modifies this
      ensures old(isLoadingRef) || !old(hasMore) ==>
        sent.None? && papers == old(papers) && page == old(page) && hasMore == old(hasMore) &&
        error == old(error) && isLoading == old(isLoading) && isLoadingRef == old(isLoadingRef)
      ensures !old(isLoadingRef) && old(hasMore) ==>
        sent == Some(CategoryEndpoint(category, pageNum)) && Idle() &&
        match respond(sent.value)
        case Received(data) =>
          papers == Merge(old(papers), data.papers) && hasMore == data.hasMore &&
          page == pageNum && error.None?
        case _ =>
          papers == old(papers) && page == old(page) && hasMore == old(hasMore) &&
          error == Some(ErrorMessage(respond(sent.value)))
    {
      sent := FetchAsRendered(pageNum, hasMore, respond);
    }

    /**
     * `handleRefresh` as written: it resets the list, the page, `hasMore` and the guard,
     * then calls the `fetchPapers` of the render it was created in, whose `hasMore` is
     * the one from before the reset.
     */
    method HandleRefresh(respond: Endpoint -> FetchOutcome) returns (sent: Option<Endpoint>)
      modifies this
      ensures !old(hasMore) ==>
        sent.None? && papers == [] && page == 0 && hasMore && !isLoadingRef &&
        error == old(error) && isLoading == old(isLoading)
      ensures old(hasMore) ==>
        sent == Some(CategoryEndpoint(category, 0)) && Idle() &&
        match respond(sent.value)
        case Received(data) =>
          papers == Merge([], data.papers) && page == 0 && hasMore == data.hasMore && error.None?
        case _ =>
          papers == [] && page == 0 && hasMore && error == Some(ErrorMessage(respond(sent.value)))
    {
      var renderedHasMore := hasMore;
      papers := [];
      page := 0;
      hasMore := true;
      isLoadingRef := false;
      sent := FetchAsRendered(0, renderedHasMore, respond);
    }

    /**
     * Refresh as intended: after the reset, the first page is requested whatever the
     * state before, and the feed then shows exactly that page's papers.
     */
    method Refresh(respond: Endpoint -> FetchOutcome) returns (sent: Option<Endpoint>)
      modifies this
      ensures sent == Some(CategoryEndpoint(category, 0)) && Idle()
      ensures respond(sent.value).Received? ==>
        papers == Merge([], respond(sent.value).data.papers) && page == 0 &&
        hasMore == respond(sent.value).data.hasMore && error.None?
      ensures !respond(sent.value).Received? ==>
        papers == [] && page == 0 && hasMore && error == Some(ErrorMessage(respond(sent.value)))
    {
      papers := [];
      page := 0;
      hasMore := true;
      isLoadingRef := false;
      sent := FetchAsRendered(0, true, respond);
    }
  }

  /**
   * Refreshing a feed that has reached its end empties it and requests nothing: the
   * callback still sees `hasMore` false.
   */
  method RefreshAtEndRequestsNothing(feed: InfiniteScroll, respond: Endpoint -> FetchOutcome)
    returns (sent: Option<Endpoint>)
    requires feed.Idle() && !feed.hasMore && feed.papers != []
    modifies feed
    ensures sent.None? && feed.papers == [] && feed.hasMore
  {
    sent := feed.HandleRefresh(respond);
  }

  /** A successful load keeps the papers shown and their order, and keeps ids unique. */
  method LoadKeepsShown(feed: InfiniteScroll, pageNum: nat, respond: Endpoint -> FetchOutcome)
    returns (sent: Option<Endpoint>)
    requires UniqueIds(feed.papers)
    requires forall e :: respond(e).Received? ==> UniqueIds(respond(e).data.papers)
    modifies feed
    ensures |old(feed.papers)| <= |feed.papers| && feed.papers[..|old(feed.papers)|] == old(feed.papers)
    ensures UniqueIds(feed.papers)
  {
    sent := feed.FetchPapers(pageNum, respond);
    if sent.Some? && respond(sent.value).Received? {
      MergeFacts(old(feed.papers), respond(sent.value).data.papers);
      MergeUnique(old(feed.papers), respond(sent.value).data.papers);
    }
  }
}
