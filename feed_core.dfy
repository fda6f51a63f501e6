/**
 * What the two infinite-scroll feeds (components/InfiniteScroll.tsx and
 * components/feed/infinite-scroll.tsx) share: the API endpoints they load pages from, how a
 * load can end, and how a loaded batch is merged into the papers already shown.
 */
module FeedCore {
  import opened Wrappers
  import opened Strings
  import opened Numerals
  import opened PaperTypes

  /** A page request of a feed; a search query is already URI-encoded. */
  datatype Endpoint =
    | Trending
    | CategoryPage(page: nat, category: string)
    | SearchPage(encodedQuery: string, page: nat)

  /** The request path of an endpoint. */
  function Url(e: Endpoint): string {
    match e
    case Trending => "/api/trending"
    case CategoryPage(page, category) => "/api/papers?page=" + Decimal(page) + "&category=" + category
    case SearchPage(q, page) => "/api/search?q=" + q + "&page=" + Decimal(page)
  }

  /** A URI-encoded query holds no `&` (`encodeURIComponent` writes it `%26`). */
  predicate Encoded(e: Endpoint) {
    e.SearchPage? ==> '&' !in e.encodedQuery
  }

  /**
   * Different requests have different paths, so the route handlers can tell them apart.
   * (A category is not encoded, but it is the last parameter, so any text goes.)
   */
  lemma UrlInjective(e1: Endpoint, e2: Endpoint)
    requires Encoded(e1) && Encoded(e2)
    ensures Url(e1) == Url(e2) <==> e1 == e2
  {
    if Url(e1) == Url(e2) {
      UrlKind(e1);
      UrlKind(e2);
      if e1.CategoryPage? && e2.CategoryPage? {
        CategoryUrlInjective(e1.page, e1.category, e2.page, e2.category);
      } else if e1.SearchPage? && e2.SearchPage? {
        SearchUrlInjective(e1.encodedQuery, e1.page, e2.encodedQuery, e2.page);
      }
    }
  }

  lemma CategoryUrlInjective(p1: nat, c1: string, p2: nat, c2: string)
    requires Url(CategoryPage(p1, c1)) == Url(CategoryPage(p2, c2))
    ensures p1 == p2 && c1 == c2
  {
    var prefix := "/api/papers?page=";
    var u1, u2 := Url(CategoryPage(p1, c1)), Url(CategoryPage(p2, c2));
    var t1 := Decimal(p1) + ['&'] + ("category=" + c1);
    var t2 := Decimal(p2) + ['&'] + ("category=" + c2);
    assert u1 == prefix + t1;
    assert u2 == prefix + t2;
    assert t1 == u1[|prefix|..] == u2[|prefix|..] == t2;
    DecimalNoAmp(p1);
    DecimalNoAmp(p2);
    SplitAtFirstChar(Decimal(p1), "category=" + c1, Decimal(p2), "category=" + c2, '&');
    ToRadixInjective(p1, p2, 10);
    assert c1 == ("category=" + c1)[9..];
    assert c2 == ("category=" + c2)[9..];
  }

  lemma SearchUrlInjective(q1: string, p1: nat, q2: string, p2: nat)
    requires '&' !in q1 && '&' !in q2
    requires Url(SearchPage(q1, p1)) == Url(SearchPage(q2, p2))
    ensures q1 == q2 && p1 == p2
  {
    var prefix := "/api/search?q=";
    var u1, u2 := Url(SearchPage(q1, p1)), Url(SearchPage(q2, p2));
    var t1 := q1 + ['&'] + ("page=" + Decimal(p1));
    var t2 := q2 + ['&'] + ("page=" + Decimal(p2));
    assert u1 == prefix + t1;
    assert u2 == prefix + t2;
    assert t1 == u1[|prefix|..] == u2[|prefix|..] == t2;
    SplitAtFirstChar(q1, "page=" + Decimal(p1), q2, "page=" + Decimal(p2), '&');
    assert Decimal(p1) == ("page=" + Decimal(p1))[5..];
    assert Decimal(p2) == ("page=" + Decimal(p2))[5..];
    ToRadixInjective(p1, p2, 10);
  }

  /** The sixth character of a path says which route it asks. */
  lemma UrlKind(e: Endpoint)
    ensures |Url(e)| > 5
    ensures Url(e)[5] == (match e case Trending => 't' case CategoryPage(_, _) => 'p' case SearchPage(_, _) => 's')
  {
  }

  lemma DecimalNoAmp(n: nat)
    ensures '&' !in Decimal(n)
  {
    DecimalDigits(n);
  }

  /** How a load ended. */
  datatype FetchOutcome =
    | Received(data: PapersResponse)  // an OK response with its JSON envelope
    | NotOk                           // a response whose status is not OK
    | Threw(message: string)          // an `Error` was thrown (network, JSON), with its message
    | ThrewOther                      // something that is not an `Error` was thrown

  /** The error a failed load shows. */
  function ErrorMessage(outcome: FetchOutcome): (r: string)
    requires !outcome.Received?
    ensures outcome.NotOk? ==> r == "Failed to fetch papers"
    ensures outcome.ThrewOther? ==> r == "Something went wrong"
    ensures outcome.Threw? ==> r == outcome.message
  {
    match outcome
    case NotOk => "Failed to fetch papers"
    case Threw(message) => message
    case ThrewOther => "Something went wrong"
  }

  /** The ids of a list of papers, in order. */
  function Ids(papers: seq<Paper>): (r: seq<string>)
    ensures |r| == |papers| && forall k :: 0 <= k < |papers| ==> r[k] == papers[k].id
  {
    seq(|papers|, k requires 0 <= k < |papers| => papers[k].id)
  }

  /** The papers of a batch whose id is not among `ids`, in batch order. */
  function Unseen(ids: seq<string>, batch: seq<Paper>): (r: seq<Paper>)
    ensures |r| <= |batch|
  {
    if batch == [] then []
    else (if batch[0].id in ids then [] else [batch[0]]) + Unseen(ids, batch[1..])
  }

  /** The list after a batch is loaded: the papers shown, then the batch's unseen papers. */
  function Merge(prev: seq<Paper>, batch: seq<Paper>): seq<Paper> {
    prev + Unseen(Ids(prev), batch)
  }

  /** No two papers share an id. */
  predicate UniqueIds(papers: seq<Paper>) {
    forall i, j :: 0 <= i < j < |papers| ==> papers[i].id != papers[j].id
  }

  /**
   * A batch paper is appended exactly when its id is not shown yet; an appended paper is
   * a batch paper.
   */
  lemma {:induction false} UnseenMembers(ids: seq<string>, batch: seq<Paper>, p: Paper)
    ensures p in Unseen(ids, batch) <==> p in batch && p.id !in ids
  {
    if batch != [] {
      UnseenMembers(ids, batch[1..], p);
      assert batch == [batch[0]] + batch[1..];
    }
  }

  /** Filtering a batch in two parts gives the two filtered parts in order. */
  lemma {:induction false} UnseenAppend(ids: seq<string>, b1: seq<Paper>, b2: seq<Paper>)
    ensures Unseen(ids, b1 + b2) == Unseen(ids, b1) + Unseen(ids, b2)
  {
    if b1 == [] {
      assert b1 + b2 == b2;
    } else {
      assert (b1 + b2)[0] == b1[0];
      assert (b1 + b2)[1..] == b1[1..] + b2;
      UnseenAppend(ids, b1[1..], b2);
    }
  }

  /**
   * The merge keeps the list shown as a prefix, appends only papers with a new id, and
   * keeps batch order: merging a batch in two parts is merging it whole.
   */
  lemma MergeFacts(prev: seq<Paper>, batch: seq<Paper>)
    ensures var m := Merge(prev, batch);
      |prev| <= |m| && m[..|prev|] == prev &&
      forall k :: |prev| <= k < |m| ==> m[k] in batch && m[k].id !in Ids(prev)
  {
    var m := Merge(prev, batch);
    var u := Unseen(Ids(prev), batch);
    assert m[..|prev|] == prev;
    forall k | |prev| <= k < |m|
      ensures m[k] in batch && m[k].id !in Ids(prev)
    {
      assert m[k] == u[k - |prev|];
      UnseenMembers(Ids(prev), batch, m[k]);
    }
  }

  /** Batch papers that are new all get appended. */
  lemma MergeKeepsNew(prev: seq<Paper>, batch: seq<Paper>, p: Paper)
    requires p in batch && p.id !in Ids(prev)
    ensures p in Merge(prev, batch)
  {
    UnseenMembers(Ids(prev), batch, p);
  }

  /** Filtering keeps unique ids unique. */
  lemma {:induction false} UnseenUnique(ids: seq<string>, batch: seq<Paper>)
    requires UniqueIds(batch)
    ensures UniqueIds(Unseen(ids, batch))
  {
    if batch != [] {
      var rest := Unseen(ids, batch[1..]);
      UnseenUnique(ids, batch[1..]);
      forall k | 0 <= k < |rest| ensures rest[k].id != batch[0].id {
        UnseenMembers(ids, batch[1..], rest[k]);
        var j :| 0 <= j < |batch[1..]| && batch[1..][j] == rest[k];
        assert batch[j + 1] == rest[k];
      }
    }
  }

  /** A shown list and a batch that each have unique ids merge into a list with unique ids. */
  lemma MergeUnique(prev: seq<Paper>, batch: seq<Paper>)
    requires UniqueIds(prev) && UniqueIds(batch)
    ensures UniqueIds(Merge(prev, batch))
  {
    var u := Unseen(Ids(prev), batch);
    var m := Merge(prev, batch);
    UnseenUnique(Ids(prev), batch);
    forall i, j | 0 <= i < j < |m| ensures m[i].id != m[j].id {
      if i < |prev| && |prev| <= j {
        UnseenMembers(Ids(prev), batch, u[j - |prev|]);
        assert m[j] == u[j - |prev|];
        assert Ids(prev)[i] == m[i].id;
      } else if |prev| <= i {
        assert m[i] == u[i - |prev|] && m[j] == u[j - |prev|];
      }
    }
  }

  /** Duplicates inside one batch are not removed: the merge only looks at the shown list. */
  lemma BatchDuplicatesKept(p: Paper)
    ensures Merge([], [p, p]) == [p, p]
    ensures !UniqueIds(Merge([], [p, p]))
  {
    assert Ids([]) == [];
    assert [p, p][1..] == [p];
    assert [p][1..] == [];
    assert Unseen([], [p]) == [p];
  }
}
