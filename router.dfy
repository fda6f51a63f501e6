/**
 * The tRPC papers router (features/papers/server/router.ts): input validation with its
 * defaults, the category whitelist, the page offset and the page envelope.
 *
 * The service calls the procedures make are parameters: `fetch` stands for the service's
 * `fetchPapers`, `search` for `searchPapers` and `fetchById` for `fetchPaperById`, each
 * answering with what the call returns or the message of the error it throws.
 */
module PapersRouter {
  import opened Wrappers
  import opened PaperTypes
  import opened Numerals
  import opened ArxivService

  /** What a procedure answers: its value, a rejected input, or a thrown error. */
  datatype Reply<T> = Success(value: T) | InvalidInput | Failure(message: string)

  /**
   * The input of `list`; a missing field takes its default. The schema's `z.number()`
   * accepts any finite number, fractions included, so page and page size are reals.
   */
  datatype ListInput = ListInput(page: Option<real>, category: Option<string>, pageSize: Option<real>)

  /** The input of `search`; the query is required. */
  datatype SearchInput = SearchInput(query: string, page: Option<real>, pageSize: Option<real>)

  /**
   * The envelope `list` and `search` answer with. The offset is the product of two
   * numbers the schema let through, so it need not be whole.
   */
  datatype ListedPage = ListedPage(papers: seq<Paper>, totalResults: int, startIndex: real, hasMore: bool)

  const DefaultPage: real := 0.0
  const DefaultPageSize: real := 10.0
  const MaxPageSize: real := 50.0
  const DefaultCategory: string := "cs.AI"

  function OrDefault<T>(o: Option<T>, default: T): T {
    if o.Some? then o.value else default
  }

  /** The bounds the input schema puts on a page number and a page size. */
  predicate PagingValid(page: real, pageSize: real) {
    page >= 0.0 && 1.0 <= pageSize <= MaxPageSize
  }

  /** The offset of the first result of a page: `page * pageSize`. */
  function Offset(page: real, pageSize: real): real {
    page * pageSize
  }

  /** The page envelope the procedures answer with, for a page fetched at `start`. */
  function Envelope(fetched: Result<PapersPage>, start: real): Reply<ListedPage> {
    match fetched
    case Err(message) => Failure(message)
    case Ok(page) =>
      Success(ListedPage(page.papers, page.total, start, start + |page.papers| as real < page.total as real))
  }

  /** At a whole offset the envelope is the service's page envelope, field for field. */
  lemma EnvelopeAtWholeOffset(page: PapersPage, start: nat)
    ensures var r := Envelope(Ok(page), start as real).value;
      var p := PageOf(page.papers, page.total, start);
      r.papers == p.papers && r.totalResults == p.totalResults &&
      r.startIndex == p.startIndex as real && r.hasMore == p.hasMore
  {
  }

  /**
   * `list`: the schema checks come first, then the category whitelist, and only then is
   * the page fetched, at offset `page * pageSize`.
   */
  function List(input: ListInput, fetch: (string, real, real) -> Result<PapersPage>): (r: Reply<ListedPage>)
    ensures r.InvalidInput? <==>
      !PagingValid(OrDefault(input.page, DefaultPage), OrDefault(input.pageSize, DefaultPageSize))
    ensures r.Success? ==> IsArxivCategory(OrDefault(input.category, DefaultCategory))
  {
    var page := OrDefault(input.page, DefaultPage);
    var pageSize := OrDefault(input.pageSize, DefaultPageSize);
    var category := OrDefault(input.category, DefaultCategory);
    if !PagingValid(page, pageSize) then InvalidInput
    else if !IsArxivCategory(category) then Failure("Invalid category")
    else
      var start := Offset(page, pageSize);
      Envelope(fetch(category, start, pageSize), start)
  }

  /**
   * An unknown category is refused with "Invalid category" whatever the service would
   * answer, so the service is never asked.
   */
  lemma ListRejectsUnknownCategory(input: ListInput, fetch1: (string, real, real) -> Result<PapersPage>,
                                   fetch2: (string, real, real) -> Result<PapersPage>)
    requires PagingValid(OrDefault(input.page, DefaultPage), OrDefault(input.pageSize, DefaultPageSize))
    requires !IsArxivCategory(OrDefault(input.category, DefaultCategory))
    ensures List(input, fetch1) == Failure("Invalid category")
    ensures List(input, fetch1) == List(input, fetch2)
  {
  }

  /**
   * A successful listing asked the service for `pageSize` papers of the category at
   * `start = page * pageSize`, echoes its total and `start`, and has more exactly when
   * results remain after the page.
   */
  lemma ListEnvelope(input: ListInput, fetch: (string, real, real) -> Result<PapersPage>)
    requires List(input, fetch).Success?
    ensures var page := OrDefault(input.page, DefaultPage);
      var pageSize := OrDefault(input.pageSize, DefaultPageSize);
      var start := Offset(page, pageSize);
      var fetched := fetch(OrDefault(input.category, DefaultCategory), start, pageSize);
      var r := List(input, fetch).value;
      fetched.Ok? &&
      r.papers == fetched.value.papers && r.totalResults == fetched.value.total &&
      r.startIndex == start && (r.hasMore <==> start + |r.papers| as real < r.totalResults as real)
  {
  }

  /** A failing service call surfaces as the error it threw. */
  lemma ListPassesErrors(input: ListInput, fetch: (string, real, real) -> Result<PapersPage>)
    requires PagingValid(OrDefault(input.page, DefaultPage), OrDefault(input.pageSize, DefaultPageSize))
    requires IsArxivCategory(OrDefault(input.category, DefaultCategory))
    ensures var page := OrDefault(input.page, DefaultPage);
      var pageSize := OrDefault(input.pageSize, DefaultPageSize);
      var fetched := fetch(OrDefault(input.category, DefaultCategory), Offset(page, pageSize), pageSize);
      fetched.Err? ==> List(input, fetch) == Failure(fetched.message)
  {
  }

  /** An empty input lists the first ten papers of `cs.AI`. */
  lemma ListDefaults(fetch: (string, real, real) -> Result<PapersPage>)
    ensures List(ListInput(None, None, None), fetch) == List(ListInput(Some(0.0), Some("cs.AI"), Some(10.0)), fetch)
    ensures List(ListInput(None, None, None), fetch) == Envelope(fetch("cs.AI", 0.0, 10.0), 0.0)
  {
    ArxivCategoryIds();
  }

  /**
   * The schema takes fractional numbers too: half of page size 10 starts at result 5, and
   * a page size of 2.5 is handed to the service as it is.
   */
  lemma FractionalPagingPassed(fetch: (string, real, real) -> Result<PapersPage>)
    ensures List(ListInput(Some(0.5), None, None), fetch) == Envelope(fetch("cs.AI", 5.0, 10.0), 5.0)
    ensures List(ListInput(Some(1.0), None, Some(2.5)), fetch) == Envelope(fetch("cs.AI", 2.5, 2.5), 2.5)
  {
    ArxivCategoryIds();
  }

  /** `getById`: a paper the service does not find becomes the error "Paper not found". */
  function GetById(id: string, fetchById: string -> Result<Option<Paper>>): (r: Reply<Paper>)
    ensures !r.InvalidInput?
    ensures r.Success? <==> fetchById(id).Ok? && fetchById(id).value.Some?
    ensures r.Success? ==> r.value == fetchById(id).value.value
    ensures fetchById(id) == Ok(None) ==> r == Failure("Paper not found")
    ensures fetchById(id).Err? ==> r == Failure(fetchById(id).message)
  {
    match fetchById(id)
    case Err(message) => Failure(message)
    case Ok(found) => if found.None? then Failure("Paper not found") else Success(found.value)
  }

  /**
   * `search`: the query must have at least one character, untrimmed, and the search is
   * sent with the query exactly as given.
   */
  function Search(input: SearchInput, search: (string, real, real) -> Result<PapersPage>): (r: Reply<ListedPage>)
    ensures r.InvalidInput? <==>
      input.query == [] ||
      !PagingValid(OrDefault(input.page, DefaultPage), OrDefault(input.pageSize, DefaultPageSize))
  {
    var page := OrDefault(input.page, DefaultPage);
    var pageSize := OrDefault(input.pageSize, DefaultPageSize);
    if |input.query| < 1 || !PagingValid(page, pageSize) then InvalidInput
    else
      var start := Offset(page, pageSize);
      Envelope(search(input.query, start, pageSize), start)
  }

  /**
   * A successful search asked for `pageSize` results of the untouched query at
   * `start = page * pageSize`, and its envelope follows the listing's rules.
   */
  lemma SearchEnvelope(input: SearchInput, search: (string, real, real) -> Result<PapersPage>)
    requires Search(input, search).Success?
    ensures var page := OrDefault(input.page, DefaultPage);
      var pageSize := OrDefault(input.pageSize, DefaultPageSize);
      var start := Offset(page, pageSize);
      var fetched := search(input.query, start, pageSize);
      var r := Search(input, search).value;
      fetched.Ok? &&
      r.papers == fetched.value.papers && r.totalResults == fetched.value.total &&
      r.startIndex == start && (r.hasMore <==> start + |r.papers| as real < r.totalResults as real)
  {
  }

  /** A query of spaces only passes the schema and is searched for as it is. */
  lemma BlankQuerySearched(query: string, search: (string, real, real) -> Result<PapersPage>)
    requires query == "   "
    ensures Search(SearchInput(query, None, None), search) == Envelope(search(query, 0.0, 10.0), 0.0)
  {
  }

  /**
   * `categories`: the whole whitelist, in declaration order, so a category is offered
   * exactly when `list` accepts it.
   */
  function Categories(): (r: seq<Category>)
    ensures r == ArxivCategories
    ensures forall c :: c in r ==> IsArxivCategory(c.id)
    ensures forall id :: IsArxivCategory(id) <==> exists c :: c in r && c.id == id
    ensures CategoryIds(r) ==
      ["cs.AI", "cs.LG", "cs.CL", "cs.CV", "cs.NE", "cs.RO", "stat.ML", "cs.SE", "cs.CR", "cs.DC"]
  {
    CategoryIdsMembers(ArxivCategories);
    ArxivCategoryIds();
    ArxivCategories
  }

  /** An id is among a list's ids exactly when some category of the list has it. */
  lemma CategoryIdsMembers(cats: seq<Category>)
    ensures forall id :: id in CategoryIds(cats) <==> exists c :: c in cats && c.id == id
  {
    forall id | id in CategoryIds(cats)
      ensures exists c :: c in cats && c.id == id
    {
      var k :| 0 <= k < |cats| && CategoryIds(cats)[k] == id;
      assert cats[k] in cats;
    }
  }

  /** Every category offered is accepted by `list`. */
  lemma OfferedCategoriesListed(c: Category, page: real, pageSize: real,
                                fetch: (string, real, real) -> Result<PapersPage>)
    requires c in Categories() && PagingValid(page, pageSize)
    ensures List(ListInput(Some(page), Some(c.id), Some(pageSize)), fetch) ==
      Envelope(fetch(c.id, Offset(page, pageSize), pageSize), Offset(page, pageSize))
  {
    assert IsArxivCategory(c.id);
  }
}
