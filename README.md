# arXiv feed: a verified model

This project models the core of a Next.js app that shows arXiv papers as a feed, in
Dafny.

- **The server side.**
  - The arXiv service reads the Atom feed. It turns each `<entry>` into a `Paper` and keeps
    category pages and single papers in process-wide caches for five minutes. Search is
    never cached.
  - The tRPC router and the three JSON route handlers (`/api/papers`, `/api/search`,
    `/api/trending`) validate their input, compute the page offset and wrap the page in an
    envelope with `totalResults`, `startIndex` and `hasMore`.
  - The Hugging Face trending adapter maps daily papers to `Paper`s and degrades to an empty
    list on any failure.
- **The browser side.**
  - The bookmark and like hooks, which keep id sets mirrored to `localStorage`.
  - The two infinite-scroll feeds: a load guard, a merge of each batch with its duplicates
    removed, refresh and retry.
  - The card helpers: the author line, the age label, the avatar tag and "Show more".
  - The theme picker and its hex colour adjustment.
  - The two card visuals: the category lookup, the title-hash gradient and the thumbnail
    fallback.
  - The swipe gesture hook.
  - The sign-in redirect callback.

Pure code is modelled as functions and lemmas. State that the source updates in place is
modelled as classes: the service caches, the hooks, the feeds, the theme picker, the
picture card and the swipe hook. Their methods carry `modifies` clauses and state the whole
new state. Each loop in the source is a method with loop invariants, proved against a
specification function: collecting authors and categories, and parsing the entries.

Several things are parameters rather than modelled code:
- The network. The arXiv API, the Hugging Face API and the route handlers' arXiv helper
  are functions passed in, together with what they answer.
- The clock, which is an integer number of milliseconds.
- Browser storage, which is a field.
- `encodeURIComponent`, which is a function parameter.

JavaScript's own operations are written out, each in its own module:
- `Strings`: `split` (left to right, non-overlapping), `indexOf`, `includes`, `startsWith`
  and `join`.
- `Whitespace`: `trim()` and `replace(/\s+/g, " ")`, with the ECMAScript whitespace class.
- `Numerals`: `toString(radix)`, `String(n)` and `parseInt` on text that starts with a digit or with `-` and a digit. Leading whitespace, a `+` sign and a `0x` prefix under radix 16 are outside it.
- `OrderedIds`: a `Set` as a duplicate-free sequence in insertion order.

## Model

| member | source | states |
|---|---|---|
| Strings.Split | features/papers/server/service.ts:58 | `split` with a non-empty separator gives at least one piece, and no piece contains the separator |
| Strings.JoinSplit | features/papers/server/service.ts:58 | joining the pieces of a split with the separator gives back the string |
| Strings.SplitFirst | features/papers/server/service.ts:58 | the first piece of a split is the text before the first occurrence of the separator, or the whole string when there is none |
| Strings.IndexFrom | features/papers/server/service.ts:58 | the occurrence found is the first one at or after the start; when none is found, there is none |
| Whitespace.TrimFacts | features/papers/server/service.ts:16 | `trim()` leaves no edge whitespace, is a contiguous slice of the input, keeps every visible character in order, and is empty exactly when the input is all whitespace |
| Whitespace.TrimIdempotent | features/papers/server/service.ts:16 | trimming twice is trimming once |
| Whitespace.CollapseFacts | features/papers/server/service.ts:63-64 | the `\s+` collapse is empty only for empty input, leaves only single plain spaces, and has whitespace at an end exactly where the input had it |
| Whitespace.CollapseKeepsVisible | features/papers/server/service.ts:63-64 | the collapse keeps every non-whitespace character, in order |
| Whitespace.NormalizeFacts | features/papers/server/service.ts:63-64 | trim then collapse gives text with no edge whitespace and only single plain spaces, with the same visible characters as the input; it is empty exactly when the input is all whitespace |
| Whitespace.NormalizeIdempotent | features/papers/server/service.ts:63-64 | normalising a title or abstract twice changes nothing more |
| Whitespace.JoinedByWhitespace | features/papers/server/service.ts:63-64 | two normalised pieces separated by any whitespace run (a line break, say) normalise to the pieces joined by one space |
| ArxivEntry.ElementTextFacts | features/papers/server/service.ts:13-19 | `getElementText` has no edge whitespace and keeps the visible characters; it is `""` exactly when the element is missing or all whitespace |
| ArxivEntry.CollapsedTextFacts | features/papers/server/service.ts:63-64 | the title and abstract are normalised, keep the element's visible characters, and are `""` for a missing element |
| ArxivEntry.StripId | features/papers/server/service.ts:57-58 | the id is empty exactly when the id text is |
| ArxivEntry.StripIdPiece | features/papers/server/service.ts:58 | an id other than the whole id text holds neither `v` nor `/abs/` |
| ArxivEntry.StripVersionedId | features/papers/server/service.ts:58 | `http://arxiv.org/abs/<core>v<version>` gives `<core>` when the core has no `v` and the rest no `/abs/` |
| ArxivEntry.StripIdExample | features/papers/server/service.ts:58 | `http://arxiv.org/abs/2301.12345v2` gives `2301.12345` |
| ArxivEntry.StripIdCutsArchiveName | features/papers/server/service.ts:58 | the cut is at the first `v`, so the old-style id `solv-int/9901001v1` gives `sol` |
| ArxivEntry.Present | features/papers/server/service.ts:38-39 | the kept terms are never empty, and there are no more of them than elements |
| ArxivEntry.PresentAppend | features/papers/server/service.ts:37-40 | keeping the present terms distributes over concatenation, so document order is kept |
| ArxivEntry.PresentMembers | features/papers/server/service.ts:38-39 | a term is kept exactly when some element has it non-empty |
| ArxivEntry.AuthorNamesAllPresent | features/papers/server/service.ts:22-32 | when every author has a non-empty name, there is one trimmed name per author, in order |
| ArxivEntry.BlankAuthorKept | features/papers/server/service.ts:27-28 | a whitespace-only name is not skipped; it becomes `""` |
| ArxivEntry.CollectAuthors | features/papers/server/service.ts:22-32 | the loop yields exactly the trimmed present names in document order (loop invariant over the prefix read) |
| ArxivEntry.CollectCategories | features/papers/server/service.ts:34-42 | the loop yields exactly the present non-empty terms in document order |
| ArxivEntry.PrimaryCategory | features/papers/server/service.ts:44-55 | the primary term when present and non-empty, else the first category, else `""` |
| ArxivEntry.PrimaryCategoryEmpty | features/papers/server/service.ts:44-55 | the primary category is `""` exactly when there is no non-empty primary term and no non-empty category term |
| ArxivEntry.EntryPaperFacts | features/papers/server/service.ts:57-71 | a parsed paper's links are those of its id, its title and abstract are normalised, its id is empty only for an empty id element, it has no thumbnail, and without a primary term its primary category is one of its categories or `""` |
| ArxivEntry.ParseArxivEntry | features/papers/server/service.ts:21-73 | `parseArxivEntry` returns the entry's paper as specified by the field derivations |
| ArxivEntry.EntryPapers | features/papers/server/service.ts:107-112 | a feed gives exactly one paper per entry |
| ArxivEntry.EntryPapersAt | features/papers/server/service.ts:107-112 | the k-th paper of a feed is the paper parsed from its k-th entry, so the papers follow the entries' order |
| ArxivEntry.ParseEntries | features/papers/server/service.ts:107-112 | the loop over the entries yields the entries' papers in order (loop invariant over the prefix read) |
| PaperTypes.IdOfPdfUrl | features/papers/server/service.ts:70 | the id recovered from a PDF link rebuilds that link |
| PaperTypes.IdOfAbsUrl | features/papers/server/service.ts:71 | the id recovered from an abstract link rebuilds that link |
| PaperTypes.LinksDetermineId | features/papers/server/service.ts:70-71 | each link a paper gets recovers the id it was built from, so the links are functions of the id alone and determine it |
| PaperTypes.PageOf | features/papers/server/router.ts:37-42 | the envelope echoes the papers, the total and the start, and `hasMore` holds exactly when `start + papers.length < total` |
| ArxivService.CacheKeyInjective | features/papers/server/service.ts:83 | two requests share the key `category-start-maxResults` exactly when category, start and size are all equal |
| ArxivService.PageFrom | features/papers/server/service.ts:99-121 | a failed status becomes the error `arXiv API error: <status>`; a feed becomes its entries' papers, with the parsed `totalResults` as the total when present and 0 when absent |
| ArxivService.SearchPapers | features/papers/server/service.ts:171-210 | search sends `all:<query>` sorted by relevance and returns what the answer parses to; it has no cache to read or write |
| ArxivService.Caches.constructor | features/papers/server/service.ts:7-10 | both caches start empty |
| ArxivService.Caches.FetchPapers | features/papers/server/service.ts:78-126 | a page cached less than 300000 ms before the lookup is returned with no request and the cache unchanged; otherwise `cat:<category>` is requested, an error leaves the cache unchanged, and a feed is stored under the key with the time read after the answer arrived, and returned; the paper cache is untouched |
| ArxivService.Caches.FetchPaperById | features/papers/server/service.ts:133-166 | a paper cached less than 300000 ms before the lookup is returned with no request; otherwise the id is requested: an error throws and caches nothing, no entries gives `null` and caches nothing, else the first entry's paper is stored with the time read after the answer arrived, and returned |
| ArxivService.RepeatWithinTtl | features/papers/server/service.ts:83-88 | the same page asked again within five minutes of a successful fetch's request is served from the cache, with the same result and no second request |
| ArxivService.CategoryIds | features/papers/server/service.ts:215-226 | the ids of the whitelist, one per category, in order |
| ArxivService.ArxivCategoryIds | features/papers/server/service.ts:215-226 | the whitelist is exactly the ten ids `cs.AI` … `cs.DC`, in declaration order |
| PapersRouter.List | features/papers/server/router.ts:17-43 | `list` takes any finite page and page size, fractions included; it rejects the input exactly when the defaulted page is negative or the page size is outside 1..50, and succeeds only for a whitelisted category |
| PapersRouter.EnvelopeAtWholeOffset | features/papers/server/router.ts:37-42 | at a whole offset the router's envelope is the service's page envelope, field for field |
| PapersRouter.ListRejectsUnknownCategory | features/papers/server/router.ts:28-32 | an unknown category fails with "Invalid category" whatever the service would answer, so the service is never asked |
| PapersRouter.ListEnvelope | features/papers/server/router.ts:34-42 | a successful listing fetched `pageSize` papers at `start = page * pageSize`, and its envelope echoes the papers, the total and `start`, with `hasMore` exactly when results remain |
| PapersRouter.ListPassesErrors | features/papers/server/router.ts:35 | a service error on valid input surfaces as that error |
| PapersRouter.ListDefaults | features/papers/server/router.ts:20-22 | an empty input lists page 0 of `cs.AI` with ten papers |
| PapersRouter.FractionalPagingPassed | features/papers/server/router.ts:20-35 | a fractional page or page size passes the schema: page 0.5 of size 10 starts at 5, and a page size of 2.5 is handed to the service unchanged |
| PapersRouter.GetById | features/papers/server/router.ts:48-56 | `getById` succeeds exactly when the service finds the paper, answers "Paper not found" for `null`, and passes service errors on |
| PapersRouter.Search | features/papers/server/router.ts:61-68 | `search` takes any finite page and page size; it rejects the input exactly when the query is empty (untrimmed) or the paging is out of bounds |
| PapersRouter.SearchEnvelope | features/papers/server/router.ts:70-79 | a successful search asked for the untouched query at `start = page * pageSize`, with the listing's envelope |
| PapersRouter.BlankQuerySearched | features/papers/server/router.ts:64 | a query of spaces passes the length check and is searched as it is |
| PapersRouter.Categories | features/papers/server/router.ts:85-87 | `categories` returns the whole whitelist: its ids are the ten declared ids in declaration order, and an id is offered exactly when `list` accepts it as a category |
| PapersRouter.CategoryIdsMembers | features/papers/server/router.ts:30 | an id is among a category list's ids exactly when some category of the list has it, so `find` by id succeeds exactly then |
| PapersRouter.OfferedCategoriesListed | features/papers/server/router.ts:28-42 | every offered category is accepted by `list` on valid paging |
| PapersRoute.ParamOr | app/api/papers/route.ts:10-11 | a missing or empty parameter takes the fallback, and any other is kept |
| PapersRoute.Get | app/api/papers/route.ts:9-46 | 400 "Invalid category" outside the whitelist; else the page at `start = page * 10` with `totalResults`, `startIndex` and `hasMore = start + papers.length < total` and the edge-caching header; 500 "Failed to fetch papers" when the fetch throws |
| PapersRoute.UnknownCategoryNotFetched | app/api/papers/route.ts:15-18 | an unknown category is answered without asking the arXiv helper |
| PapersRoute.PapersDefaults | app/api/papers/route.ts:10-12 | missing or empty `page` and `category` mean page 0 of `cs.AI`, which starts at index 0 |
| SearchRoute.Get | app/api/search/route.ts:9-43 | 400 "Search query is required" for a missing or whitespace-only query; else the TRIMMED query's page at `start = page * 10` in the envelope; 500 "Failed to search papers" when the search throws |
| SearchRoute.SearchSeesTrimmedQuery | app/api/search/route.ts:22 | queries that differ only in surrounding whitespace get the same answer |
| SearchRoute.BlankQueryNotSearched | app/api/search/route.ts:14-19 | a blank query never reaches the search |
| TrendingRoute.Get | app/api/trending/route.ts:10-25 | the papers with `totalResults` their count, `startIndex` 0 and `hasMore` false, or 500 "Failed to fetch trending papers" |
| TrendingRoute.TrendingEnvelopeIsPageOf | app/api/trending/route.ts:12-16 | the fixed envelope is the listing formula's for the whole list at 0 (`0 + n < n` is false) |
| TrendingRoute.TrendingNeverFails | app/api/trending/route.ts:10-17 | as the adapter never throws, the route always answers 200 with well-linked papers |
| HuggingFace.ItemPaper | lib/huggingface.ts:35-50 | an item's paper keeps its id, title, summary, author names and thumbnail, has both dates `publishedAt`, category `cs.AI`, and the arXiv links of its id |
| HuggingFace.TrendingPapers | lib/huggingface.ts:23-26 | a response that is not OK, or a failure, gives `[]` |
| HuggingFace.TrendingPerItem | lib/huggingface.ts:30-51 | a well-formed list maps to one paper per item, in order, each with its item's id, thumbnail, links and `cs.AI` |
| HuggingFace.MissingPaperEmpties | lib/huggingface.ts:35-36 | an item without its `paper` object makes the mapping throw, and the result is `[]` |
| HuggingFace.MissingAuthorsEmpties | lib/huggingface.ts:42 | an item whose `paper` has no `authors` array makes `p.authors.map` throw, and the result is `[]` |
| HuggingFace.TrendingWellLinked | lib/huggingface.ts:17-56 | every trending paper, whatever the response, is well linked and filed under `cs.AI` |
| OrderedIds.Remove | hooks/useSavedPapers.ts:37 | `delete` keeps exactly the other members |
| OrderedIds.FromArray | hooks/useSavedPapers.ts:14 | `new Set(array)` has exactly the array's members |
| OrderedIds.ToggleMembership | hooks/useSavedPapers.ts:35-41 | a toggle flips the toggled id's membership and no other |
| OrderedIds.ToggleDistinct | hooks/useSavedPapers.ts:35-41 | a toggle keeps the ids free of repetitions |
| OrderedIds.ToggleTwice | hooks/useSavedPapers.ts:35-41 | toggling twice restores every id's membership |
| OrderedIds.ToggleTwiceFromAbsent | hooks/useSavedPapers.ts:35-41 | toggling an absent id twice restores the very same set, order included |
| OrderedIds.FromArrayDistinct | hooks/useSavedPapers.ts:14 | a set built from an array has no repetitions |
| OrderedIds.FromArrayOfDistinct | hooks/useSavedPapers.ts:14-26 | a set written with `[...set]` and read back with `new Set` is the same set |
| SavedPapers.SavedPapersHook.constructor | hooks/useSavedPapers.ts:6-7 | nothing saved, not loaded |
| SavedPapers.SavedPapersHook.Load | hooks/useSavedPapers.ts:10-20 | a stored array replaces the ids, anything else leaves them; the hook is then loaded and storage holds the ids |
| SavedPapers.SavedPapersHook.ToggleSave | hooks/useSavedPapers.ts:23-43 | the id is deleted when saved and added otherwise; storage is written only once loaded; the ids stay a set |
| SavedPapers.SavedPapersHook.IsSaved | hooks/useSavedPapers.ts:45-48 | `isSaved(id)` holds exactly when `id` is saved |
| SavedPapers.ToggleTwiceRestores | hooks/useSavedPapers.ts:33-43 | saving and unsaving a paper leaves every other paper's state, and storage reads back as the saved set |
| SavedPapers.ToggleBeforeLoad | hooks/useSavedPapers.ts:24 | before the load nothing is written to storage |
| LikedPapers.LikedPapersHook.constructor | hooks/useLikedPapers.ts:6-25 | the initial likes are the stored array's ids when there is one, else none, and storage then holds them |
| LikedPapers.LikedPapersHook.ToggleLike | hooks/useLikedPapers.ts:19-37 | the id is deleted when liked and added otherwise, and storage is written; the ids stay a set |
| LikedPapers.LikedPapersHook.IsLiked | hooks/useLikedPapers.ts:39-42 | `isLiked(id)` holds exactly when `id` is liked |
| LikedPapers.LikeTwiceRestores | hooks/useLikedPapers.ts:27-37 | liking and unliking a paper leaves every paper's like as it was |
| LikedPapers.Reopen | hooks/useLikedPapers.ts:6-21 | a hook created over what another wrote reads back the same likes |
| FeedCore.UrlInjective | components/feed/infinite-scroll.tsx:37-44 | different page requests have different paths |
| FeedCore.ErrorMessage | components/InfiniteScroll.tsx:40-56 | a non-OK response shows "Failed to fetch papers", a thrown `Error` its message, anything else "Something went wrong" |
| FeedCore.Ids | components/InfiniteScroll.tsx:48 | the ids of the papers shown, in order |
| FeedCore.UnseenMembers | components/InfiniteScroll.tsx:49 | a batch paper is appended exactly when its id is not shown yet |
| FeedCore.UnseenAppend | components/InfiniteScroll.tsx:49 | the filter keeps batch order: filtering a batch in two parts gives the two parts filtered |
| FeedCore.MergeFacts | components/InfiniteScroll.tsx:46-51 | the merged list keeps the list shown as its prefix and appends only batch papers with a new id |
| FeedCore.MergeKeepsNew | components/InfiniteScroll.tsx:48-50 | every batch paper with a new id is appended |
| FeedCore.MergeUnique | components/InfiniteScroll.tsx:48-50 | a shown list and a batch that each have unique ids merge into a list with unique ids |
| FeedCore.BatchDuplicatesKept | components/InfiniteScroll.tsx:48-50 | duplicates inside one batch are not removed |
| InfiniteScrollFeed.CategoryEndpoint | components/InfiniteScroll.tsx:34-36 | `/api/trending` exactly for the `trending` category, else that category's page |
| InfiniteScrollFeed.InfiniteScroll.constructor | components/InfiniteScroll.tsx:13-24 | empty, page 0, more to load, no error, not loading, category `cs.AI` by default |
| InfiniteScrollFeed.InfiniteScroll.FetchAsRendered | components/InfiniteScroll.tsx:26-61 | nothing is requested or changed while loading or when the render had no more pages; otherwise success merges the batch and takes `hasMore` and the page, failure sets only the error, and loading is cleared either way |
| InfiniteScrollFeed.InfiniteScroll.FetchPapers | components/InfiniteScroll.tsx:26-61 | the same, with the current `hasMore`; when the guard holds, nothing at all changes, the loading flags included |
| InfiniteScrollFeed.InfiniteScroll.HandleRefresh | components/InfiniteScroll.tsx:92-98 | as written: when `hasMore` was true, page 0 is requested and the feed then shows exactly that page's papers with its `hasMore`, or an empty list, `hasMore` and the error; when it was false, the list is emptied and nothing is requested, the error and loading flag left as they were |
| InfiniteScrollFeed.InfiniteScroll.Refresh | components/InfiniteScroll.tsx:92-98 | refresh as intended: the reset, then page 0 requested whatever the state was, and the feed shows exactly that page |
| InfiniteScrollFeed.RefreshAtEndRequestsNothing | components/InfiniteScroll.tsx:92-98 | refreshing a feed at its end empties it and requests nothing |
| InfiniteScrollFeed.LoadKeepsShown | components/InfiniteScroll.tsx:46-51 | a load keeps the papers shown as a prefix and keeps ids unique |
| HomeFeed.FeedEndpoint | components/feed/infinite-scroll.tsx:37-44 | a non-empty search query first, then `trending`, then the category page |
| HomeFeed.SearchPagesDiffer | components/feed/infinite-scroll.tsx:39 | with an injective encoding free of `&`, two searches share a path exactly when query and page agree (an empty query loads trending) |
| HomeFeed.HomeFeedScroll.constructor | components/feed/infinite-scroll.tsx:14-25 | empty, page 0, more to load, no error, not loading |
| HomeFeed.HomeFeedScroll.FetchPapers | components/feed/infinite-scroll.tsx:27-69 | nothing while loading or at the end; otherwise the chosen endpoint is requested, success merges and takes `hasMore` and the page, failure sets only the error, and loading is cleared either way |
| HomeFeed.HomeFeedScroll.TryAgain | components/feed/infinite-scroll.tsx:127 | "Try again" is `fetchPapers(page)` under the same guard: the current page is requested again; a success merges the batch and takes its `hasMore` and clears the error, a failure keeps the papers and sets the error; the page number stays |
| HomeFeed.RetryAddsNoRepeat | components/feed/infinite-scroll.tsx:54-59 | a batch whose papers are all shown adds nothing |
| PaperCard.FormatAuthors | components/PaperCard.tsx:29-33 | the author line is empty exactly for no authors or one empty name |
| PaperCard.AuthorsShown | components/PaperCard.tsx:29-33 | at most three names are shown, joined by `, `; with more than three the line is the first three's line followed by ` et al.` |
| PaperCard.FormatDate | components/PaperCard.tsx:15-27 | `now` exactly under one hour (future dates included); else whole hours 1..23; else whole days 1..6; else the calendar date exactly from seven days |
| PaperCard.DateTextsDistinct | components/PaperCard.tsx:22-24 | under a week, two ages get the same text exactly when they get the same label |
| PaperCard.AsciiUpper | components/PaperCard.tsx:65 | upper-casing maps `a`-`z` to `A`-`Z` and keeps the length and every other character |
| PaperCard.AvatarLabel | components/PaperCard.tsx:65 | the avatar tag has one or two characters |
| PaperCard.AvatarOfSubject | components/PaperCard.tsx:65 | `archive.subject` shows the subject's first two letters, upper-cased |
| PaperCard.AvatarWithoutSubject | components/PaperCard.tsx:65 | a category with no subject shows `AI` |
| PaperCard.ShowMoreAfterClicks | components/PaperCard.tsx:52-56 | from the first render, "Show more" is offered exactly after an even number of `handleExpand` clicks on an abstract over 200 characters, and never on a shorter one |
| PaperCard.ExpandedParity | components/PaperCard.tsx:52-56 | after any number of clicks the expansion depends only on their parity: an even count restores the initial state |
| PaperCard.CardExpansion.constructor | components/PaperCard.tsx:35 | a card starts collapsed |
| PaperCard.CardExpansion.HandleExpand | components/PaperCard.tsx:52-56 | `handleExpand` flips `isExpanded` and nothing else |
| PaperCard.ClickSwitchesShowMore | components/PaperCard.tsx:102 | on an abstract over 200 characters each click switches whether "Show more" is offered |
| PaperCard.ClickTwiceRestores | components/PaperCard.tsx:52-56 | two clicks restore the expansion and the offer of "Show more" |
| Numerals.ParseDecimal | app/api/papers/route.ts:10 | `parseInt` reads back what `String(n)` wrote |
| Numerals.ToRadixInjective | features/papers/server/service.ts:83 | different numbers are written differently |
| ThemeToggle.Int32 | components/ThemeToggle.tsx:137-139 | the bit operators' 32-bit view of a number: in range, congruent modulo 2^32, and unchanged when already in range |
| ThemeToggle.Clamp | components/ThemeToggle.tsx:137-139 | a clamped channel lies in 0..255 and is unchanged when already there |
| ThemeToggle.AdjustedRgb | components/ThemeToggle.tsx:137-140 | the adjusted colour fits in three bytes |
| ThemeToggle.AdjustBrightness | components/ThemeToggle.tsx:134-141 | the output is `#` and the adjusted colour written as six hex digits |
| ThemeToggle.AdjustShape | components/ThemeToggle.tsx:140 | the output is `#` followed by exactly six lower-case hex digits, zero-padded |
| ThemeToggle.AdjustChannels | components/ThemeToggle.tsx:137-140 | each channel read back from the output is the input channel plus `amt`, clamped to 0..255 |
| ThemeToggle.AdjustMonotone | components/ThemeToggle.tsx:137-139 | a larger `amt` never lowers any channel |
| ThemeToggle.AdjustIdentity | components/ThemeToggle.tsx:135-140 | with `amt = 0` a colour written `#` and six lower-case hex digits comes back unchanged |
| ThemeToggle.ColorOfDigits | components/ThemeToggle.tsx:135 | `#` and six hex digits parse to the digits' value, below 2^24 |
| ThemeToggle.FindTheme | components/ThemeToggle.tsx:60 | a theme found is in the list with that id; nothing is found exactly when no theme has the id |
| ThemeToggle.ThemePicker.constructor | components/ThemeToggle.tsx:45-47 | closed, `twitter-blue`, not mounted, no properties set |
| ThemeToggle.ThemePicker.ApplyTheme | components/ThemeToggle.tsx:59-71 | a known theme sets its accent, the accent darkened by 38, its background and that lightened by 26; an unknown id changes nothing |
| ThemeToggle.ThemePicker.Mount | components/ThemeToggle.tsx:50-57 | a stored id is made current and applied only when `THEMES` has it; otherwise the theme and style stay |
| ThemeToggle.ThemePicker.HandleThemeChange | components/ThemeToggle.tsx:73-77 | the chosen theme becomes current, that same id is stored, and the theme is applied |
| ThemeToggle.ThemePicker.ToggleOpen | components/ThemeToggle.tsx:120 | the toggle button flips the picker open or closed; the theme, storage, style and `mounted` stay as they were |
| ThemeToggle.ChoiceSurvivesReload | components/ThemeToggle.tsx:50-77 | a theme chosen in one visit is current after the next mount |
| ThemeToggle.UnknownStoredTheme | components/ThemeToggle.tsx:46-56 | a stored id no theme has leaves `twitter-blue` and no properties set |
| CardVisual.FirstKeyIndex | components/paper-card-visual.tsx:28 | the key found is the first key, in declaration order, that the category contains; none found means the category contains none |
| CardVisual.Lookup | components/paper-card-visual.tsx:29-31 | the value found belongs to the key in the table, and a key is found exactly when the table has it |
| CardVisual.Keys | components/paper-card-visual.tsx:28 | the table's keys, in declaration order |
| CardVisual.Angle | components/paper-card-visual.tsx:34-35 | the angle is the UTF-16 code-unit sum of the title modulo 360, in 0..359 |
| CardVisual.AstralTitleAngle | components/paper-card-visual.tsx:34-35 | a character beyond U+FFFF counts as its two surrogates: the title U+1F600 sums 0xD83D + 0xDE00 and gets angle 229 |
| CardVisual.CharCodeSumAppend | components/paper-card-visual.tsx:34 | the char-code sum of a title is the sum over its parts |
| CardVisual.AngleOfSwap | components/paper-card-visual.tsx:34-35 | titles made of the same parts in another order get the same angle |
| CardVisual.GradientColorsFromTable | components/paper-card-visual.tsx:10-31 | the colours always come from the table, under the chosen key (`cs.AI` when no key matches) |
| CardVisual.GradientCard | components/paper-card-visual.tsx:40-58 | the thumbnail exactly when one is present, else the gradient of the category and title |
| CardVisual.CategoryImageFromTable | components/paper/paper-card-visual.tsx:26-29 | the picture always comes from the table, under the chosen key; a category with no key gets `/categories/ai.png` |
| CardVisual.PictureCard.constructor | components/paper/paper-card-visual.tsx:23 | no load error yet |
| CardVisual.PictureCard.Shown | components/paper/paper-card-visual.tsx:31-63 | the thumbnail exactly when present and not failed, else the category picture |
| CardVisual.PictureCard.OnError | components/paper/paper-card-visual.tsx:40 | after a load error, the category picture is shown |
| Swipe.SwipeOf | hooks/useSwipe.ts:39-48 | right fires exactly beyond +80 with a right callback, left exactly beyond -80 with a left callback |
| Swipe.SwipeHook.constructor | hooks/useSwipe.ts:21-23 | no touch in progress, offset 0 |
| Swipe.SwipeHook.OnTouchStart | hooks/useSwipe.ts:25-28 | the gesture starts at `x` |
| Swipe.SwipeHook.OnTouchMove | hooks/useSwipe.ts:30-34 | outside a gesture nothing changes; inside, the offset is the travel so far |
| Swipe.SwipeHook.OnTouchEnd | hooks/useSwipe.ts:36-52 | outside a gesture nothing fires or changes; otherwise the direction's callback fires, if given, and the start and offset are reset |
| Swipe.Gesture | hooks/useSwipe.ts:25-52 | a whole gesture within 80 pixels fires nothing; beyond, it fires its direction when that callback is given; the hook is left at rest |
| Swipe.Tap | hooks/useSwipe.ts:25-52 | a tap never fires |
| AuthRedirect.Redirect | lib/auth.ts:16-20 | a url starting with `baseUrl` is kept, one starting with `/` is prefixed with `baseUrl`, and any other becomes `baseUrl/home` |
| AuthRedirect.RedirectStartsWithBase | lib/auth.ts:16-20 | every result starts with `baseUrl` |
| AuthRedirect.LookAlikeHostPasses | lib/auth.ts:17 | a look-alike host that extends the base url's host passes the prefix check and is redirected to, off the site's origin |
| AuthRedirect.SameOriginRedirect | lib/auth.ts:16-20 | the redirect with an origin check in place of the prefix check |
| AuthRedirect.SameOriginRedirectStays | lib/auth.ts:16-20 | every result of the corrected redirect is on the site's origin |
| AuthRedirect.RedirectsAgreeOnOrigin | lib/auth.ts:17 | on every url that is on the origin or fails the prefix check, the two redirects agree |

## Left out

- The XML parsing (`DOMParser`, `getElementsByTagName[NS]`). An entry is the record of what those queries return, with each text already taken as `textContent`.
- HTTP: `fetch`, the User-Agent header, `NextResponse`, the tRPC transport and JSON parsing of response bodies. Upstream answers are parameters.
- lib/arxiv is not part of this model. The route handlers' whitelist and fetch are parameters, and the tRPC `categories` procedure uses the service's own list.
- PapersRoute.Get: requires `page` to parse as a decimal. `parseInt`'s `NaN`, its leading whitespace and sign, and precision above 2^53 are not modelled. The same applies to SearchRoute.Get.
- ArxivService.PageFrom: `totalResults` is taken already parsed, as an optional integer, so `parseInt` on its text is not modelled.
- ArxivService.Caches.FetchPapers: `start` and `maxResults` are natural numbers. The router never passes a negative one, but it can pass a fractional one (PapersRouter.FractionalPagingPassed); how such a number is written into the cache key and the query is not modelled.
- PapersRouter.List: `page` and `pageSize` are finite reals. The schema's `z.number()` refuses `NaN`, and `.max(50)` refuses an infinite page size, but an infinite `page` passes `.min(0)` and would reach the service as an infinite `start`; that case is not modelled. The same applies to PapersRouter.Search.
- The clock (`Date.now`) is a parameter: the service's lookup time `now` and its storing time `stamp`, no earlier. `new Date(...)` parsing and the locale date format of `formatDate` are not modelled: the calendar-date case is the label `CalendarDate`.
- Floating point: `Math.round(2.55 * percent)` is the integer `amt` (the constants are -38 for the hover shade and 26 for the secondary background), and touch `clientX` positions are integers.
- `encodeURIComponent` is a function parameter. Its only property used is that its output holds no `&`.
- `toUpperCase` is modelled on ASCII letters only. String lengths count code units of the model's characters, not UTF-16 units.
- `localStorage` is a field. Reads that fail or hold something that is not an array of strings are one `Unreadable` case, and JSON encoding is not modelled.
- React rendering, the intersection observer that asks for the next page, and effects interleaved with renders are not modelled. In particular, concurrent loads past the `isLoadingRef` guard are not: each load runs to completion inside one method call.
- The card's age label, author line and avatar are modelled; the card's other markup, the share menu and the links are not.
- HuggingFace.TrendingPapers: a thrown mapping error (an item without `paper`, or a `paper` without `authors`) is modelled as the `[]` the `catch` returns. Other malformed fields are not modelled.
- Console logging in every catch is not modelled.

## Findings

| source | as written | input that shows it | evidently intended | confidence | as-written member | corrected member |
|---|---|---|---|---|---|---|
| lib/auth.ts:17 | `url.startsWith(baseUrl)` accepts any url whose text continues the base url, including another host | `baseUrl = "https://app.example"`, `url = "https://app.example.evil.test/"` is returned unchanged | only urls on the site's origin (the base url followed by nothing, `/`, `?` or `#`) are returned unchanged | not executed; high | AuthRedirect.LookAlikeHostPasses | AuthRedirect.SameOriginRedirectStays |
| components/InfiniteScroll.tsx:92-98 | `handleRefresh` resets `hasMore` to true but calls the `fetchPapers` of its render, whose `hasMore` is the old value | a feed that reached its end (`hasMore` false) is refreshed: the list is emptied and page 0 is not requested | refresh requests page 0 whatever the state before | not executed; medium | InfiniteScrollFeed.RefreshAtEndRequestsNothing | InfiniteScrollFeed.InfiniteScroll.Refresh |
