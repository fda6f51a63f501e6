/**
 * Turning one `<entry>` of an arXiv Atom feed into a `Paper` (`parseArxivEntry` and its
 * helpers in features/papers/server/service.ts).
 *
 * The XML itself is not modelled: an entry is the record of what the DOM queries the
 * code makes would return.
 */
module ArxivEntry {
  import opened Wrappers
  import opened Strings
  import opened Whitespace
  import opened PaperTypes

  /**
   * What the DOM exposes of one entry. A text field is the `textContent` of the first
   * element with that tag, `None` when there is no such element. `authorNames` has one
   * item per `<author>`: the text of its first `<name>`, `None` when it has none.
   * `categoryTerms` has one item per `<category>`: its `term` attribute, `None` when
   * absent. `primaryTerm` is the `term` of the first `arxiv:primary_category`, `None` when
   * there is no such element or it has no `term`.
   */
  datatype Entry = Entry(
    idText: Option<string>,
    titleText: Option<string>,
    summaryText: Option<string>,
    publishedText: Option<string>,
    updatedText: Option<string>,
    authorNames: seq<Option<string>>,
    categoryTerms: seq<Option<string>>,
    primaryTerm: Option<string>)

  /** `getElementText`: the trimmed text of the element, or `""` when there is none. */
  function ElementText(text: Option<string>): string {
    if text.Some? && text.value != "" then Trim(text.value) else ""
  }

  /**
   * The element text has no whitespace at its ends, keeps every visible character, and is
   * empty exactly when the element is missing or its text is all whitespace.
   */
  lemma ElementTextFacts(text: Option<string>)
    ensures NoEdgeSpace(ElementText(text))
    ensures text.Some? ==> Visible(ElementText(text)) == Visible(text.value)
    ensures ElementText(text) == [] <==>
      text.None? || forall k :: 0 <= k < |text.value| ==> IsSpace(text.value[k])
  {
    if text.Some? && text.value != "" {
      TrimFacts(text.value);
    }
  }

  /** The text with every whitespace run replaced by one space (`replace(/\s+/g, " ")`). */
  function CollapsedText(text: Option<string>): string {
    Collapse(ElementText(text))
  }

  /**
   * The title and abstract are normalised: no whitespace at the ends, only single plain
   * spaces inside, the same visible characters as the element text, and `""` for a
   * missing element.
   */
  lemma CollapsedTextFacts(text: Option<string>)
    ensures IsNormal(CollapsedText(text))
    ensures text.Some? ==> Visible(CollapsedText(text)) == Visible(text.value)
    ensures text.None? ==> CollapsedText(text) == ""
  {
    if text.Some? && text.value != "" {
      NormalizeFacts(text.value);
      assert CollapsedText(text) == Normalize(text.value);
    } else {
      assert CollapsedText(text) == Collapse("");
    }
  }

  /**
   * The arXiv id: the part after the last `/abs/`, cut before its first `v`; the whole id
   * text when that part is empty.
   */
  function StripId(idText: string): (r: string)
    ensures r == "" <==> idText == ""
  {
    var piece := Split(Last(Split(idText, "/abs/")), "v")[0];
    if piece == "" then idText else piece
  }

  /** An id that is not the whole id text holds no `v` and no `/abs/`. */
  lemma StripIdPiece(idText: string)
    ensures StripId(idText) == idText || ('v' !in StripId(idText) && !Includes(StripId(idText), "/abs/"))
  {
    var tail := Last(Split(idText, "/abs/"));
    var piece := Split(tail, "v")[0];
    if piece != "" {
      assert !Includes(tail, "/abs/");
      SplitFirst(tail, "v");
      if 'v' in piece {
        var j :| 0 <= j < |piece| && piece[j] == 'v';
        assert piece[j..j + 1] == "v";
        assert OccursAt(piece, "v", j);
        assert false;
      }
      NoSepInPrefix(tail, piece, "/abs/");
    }
  }

  /** A prefix of a string without the separator has none either. */
  lemma NoSepInPrefix(s: string, p: string, sep: string)
    requires |sep| > 0 && !Includes(s, sep) && |p| <= |s| && p == s[..|p|]
    ensures !Includes(p, sep)
  {
    IncludesIff(s, sep);
    forall i: nat ensures !OccursAt(p, sep, i) {
      if i + |sep| <= |p| {
        assert p[i..i + |sep|] == s[i..i + |sep|] by {
          forall k | i <= k < i + |sep| ensures p[k] == s[k] {
            assert p[k] == s[..|p|][k];
          }
        }
        assert !OccursAt(s, sep, i);
      }
    }
    IncludesIff(p, sep);
  }

  const FeedHost: string := "http://arxiv.org"

  /** In `http://arxiv.org/abs/...` the first `/abs/` is the one after the host. */
  lemma AbsAfterHost(b: string)
    ensures IndexOf(FeedHost + "/abs/" + b, "/abs/") == Some(|FeedHost|)
  {
    var s := FeedHost + "/abs/" + b;
    var h := FeedHost + "/abs/";
    assert forall k | 0 <= k < |h| :: s[k] == h[k];
    forall j | 0 <= j < |FeedHost| ensures !OccursAt(s, "/abs/", j) {
      assert s[j] == h[j] && s[j + 1] == h[j + 1];
      if j == 0 { assert h[0] == 'h'; }
      else if j == 1 { assert h[1] == 't'; }
      else if j == 2 { assert h[2] == 't'; }
      else if j == 3 { assert h[3] == 'p'; }
      else if j == 4 { assert h[4] == ':'; }
      else if j == 5 { assert h[6] == '/'; }
      else if j == 6 { assert h[7] == 'a'; assert h[8] == 'r'; }
      else if j == 7 { assert h[7] == 'a'; }
      else if j == 8 { assert h[8] == 'r'; }
      else if j == 9 { assert h[9] == 'x'; }
      else if j == 10 { assert h[10] == 'i'; }
      else if j == 11 { assert h[11] == 'v'; }
      else if j == 12 { assert h[12] == '.'; }
      else if j == 13 { assert h[13] == 'o'; }
      else if j == 14 { assert h[14] == 'r'; }
      else if j == 15 { assert h[15] == 'g'; }
    }
    assert OccursAt(s, "/abs/", |FeedHost|);
  }

  /**
   * A feed id `http://arxiv.org/abs/<core>v<version>` whose core is non-empty and has no
   * `v`, and whose remainder holds no further `/abs/`, gives the core.
   */
  lemma StripVersionedId(core: string, version: string)
    requires core != "" && 'v' !in core && !Includes(core + "v" + version, "/abs/")
    ensures StripId(FeedHost + "/abs/" + core + "v" + version) == core
  {
    var b := core + "v" + version;
    assert FeedHost + "/abs/" + core + "v" + version == FeedHost + "/abs/" + b;
    AbsAfterHost(b);
    SplitPair(FeedHost, "/abs/", b);
    FirstOfChar(core, 'v', version);
    SplitFirst(b, "v");
  }

  /** A string whose only `/` is not followed by `a` holds no `/abs/`. */
  lemma OneSlashNoAbs(u: string, w: string)
    requires '/' !in u && '/' !in w && w != [] && w[0] != 'a'
    ensures !Includes(u + "/" + w, "/abs/")
  {
    var s := u + "/" + w;
    forall j: nat | j + 5 <= |s| ensures !OccursAt(s, "/abs/", j) {
      var t := s[j..j + 5];
      assert t[0] == s[j] && t[1] == s[j + 1];
      if j < |u| {
        assert s[j] == u[j] && u[j] in u;
        assert t[0] != '/';
      } else if j > |u| {
        assert s[j] == w[j - |u| - 1] && w[j - |u| - 1] in w;
        assert t[0] != '/';
      } else {
        assert s[j + 1] == w[0];
        assert t[1] != 'a';
      }
    }
  }

  lemma StripIdExample(idText: string)
    requires idText == "http://arxiv.org/abs/2301.12345v2"
    ensures StripId(idText) == "2301.12345"
  {
    var core, version := "2301.12345", "2";
    assert idText == FeedHost + "/abs/" + core + "v" + version;
    MissingFirstChar(core + "v" + version, "/abs/");
    StripVersionedId(core, version);
  }

  /**
   * An old-style id whose archive name holds a `v` is cut at that `v`:
   * `http://arxiv.org/abs/solv-int/9901001v1` gives `sol`.
   */
  lemma StripIdCutsArchiveName(idText: string)
    requires idText == "http://arxiv.org/abs/solv-int/9901001v1"
    ensures StripId(idText) == "sol"
  {
    var core, version := "sol", "-int/9901001v1";
    assert idText == FeedHost + "/abs/" + core + "v" + version;
    assert core + "v" + version == "solv-int" + "/" + "9901001v1";
    OneSlashNoAbs("solv-int", "9901001v1");
    StripVersionedId(core, version);
  }

  /** The values that are present and non-empty, in order (what `if (term) push(term)` keeps). */
  function Present(xs: seq<Option<string>>): (r: seq<string>)
    ensures |r| <= |xs|
    ensures forall k :: 0 <= k < |r| ==> r[k] != ""
  {
    if xs == [] then []
    else
      var last := xs[|xs| - 1];
      Present(xs[..|xs| - 1]) + (if last.Some? && last.value != "" then [last.value] else [])
  }

  /** Keeping present values distributes over concatenation, so document order is kept. */
  lemma {:induction false} PresentAppend(xs: seq<Option<string>>, ys: seq<Option<string>>)
    ensures Present(xs + ys) == Present(xs) + Present(ys)
    decreases |ys|
  {
    if ys != [] {
      var init := ys[..|ys| - 1];
      assert (xs + ys)[..|xs + ys| - 1] == xs + init;
      PresentAppend(xs, init);
    } else {
      assert xs + ys == xs;
    }
  }

  /** A value is kept exactly when it is present and non-empty somewhere in the input. */
  lemma {:induction false} PresentMembers(xs: seq<Option<string>>, s: string)
    ensures s in Present(xs) <==> s != "" && Some(s) in xs
  {
    if xs != [] {
      var init := xs[..|xs| - 1];
      PresentMembers(init, s);
      assert xs == init + [xs[|xs| - 1]];
    }
  }

  /** The author names: each kept name, trimmed; a whitespace-only name becomes `""`. */
  function AuthorNames(names: seq<Option<string>>): (r: seq<string>)
  {
    var kept := Present(names);
    seq(|kept|, k requires 0 <= k < |kept| => Trim(kept[k]))
  }

  /** When every author has a non-empty name, there is one trimmed name per author. */
  lemma AuthorNamesAllPresent(names: seq<Option<string>>)
    requires forall k :: 0 <= k < |names| ==> names[k].Some? && names[k].value != ""
    ensures |AuthorNames(names)| == |names|
    ensures forall k :: 0 <= k < |names| ==> AuthorNames(names)[k] == Trim(names[k].value)
  {
    AllPresent(names);
  }

  lemma {:induction false} AllPresent(xs: seq<Option<string>>)
    requires forall k :: 0 <= k < |xs| ==> xs[k].Some? && xs[k].value != ""
    ensures |Present(xs)| == |xs|
    ensures forall k :: 0 <= k < |xs| ==> Present(xs)[k] == xs[k].value
  {
    if xs != [] {
      AllPresent(xs[..|xs| - 1]);
    }
  }

  /** A name made of whitespace alone is kept, as `""`. */
  lemma BlankAuthorKept(name: string)
    requires name != "" && forall k :: 0 <= k < |name| ==> IsSpace(name[k])
    ensures AuthorNames([Some(name)]) == [""]
  {
    TrimFacts(name);
    assert [Some(name)][..0] == [];
  }

  /** `getAuthors`: walks the authors in document order. */
  method CollectAuthors(names: seq<Option<string>>) returns (authors: seq<string>)
    ensures authors == AuthorNames(names)
  {
    authors := [];
    var i := 0;
    while i < |names|
      invariant 0 <= i <= |names|
      invariant authors == AuthorNames(names[..i])
    {
      var name := names[i];
      assert names[..i + 1][..i] == names[..i];
      if name.Some? && name.value != "" {
        authors := authors + [Trim(name.value)];
      }
      i := i + 1;
    }
    assert names[..i] == names;
  }

  /** `getCategories`: the category terms in document order, skipping missing or empty ones. */
  method CollectCategories(terms: seq<Option<string>>) returns (cats: seq<string>)
    ensures cats == Present(terms)
  {
    cats := [];
    var i := 0;
    while i < |terms|
      invariant 0 <= i <= |terms|
      invariant cats == Present(terms[..i])
    {
      var term := terms[i];
      assert terms[..i + 1][..i] == terms[..i];
      if term.Some? && term.value != "" {
        cats := cats + [term.value];
      }
      i := i + 1;
    }
    assert terms[..i] == terms;
  }

  /**
   * `getPrimaryCategory`: the primary category's term when present and non-empty, else
   * the first category, else `""`.
   */
  function PrimaryCategory(primaryTerm: Option<string>, categories: seq<string>): (r: string)
    ensures primaryTerm.Some? && primaryTerm.value != "" ==> r == primaryTerm.value
    ensures !(primaryTerm.Some? && primaryTerm.value != "") ==>
      (if categories == [] then r == "" else r == categories[0])
  {
    if primaryTerm.Some? && primaryTerm.value != "" then primaryTerm.value
    else if categories != [] then categories[0]
    else ""
  }

  /** An entry's primary category is empty only when it has neither a primary term nor a category. */
  lemma PrimaryCategoryEmpty(e: Entry)
    ensures PrimaryCategory(e.primaryTerm, Present(e.categoryTerms)) == "" <==>
      (e.primaryTerm.None? || e.primaryTerm.value == "") &&
      forall k :: 0 <= k < |e.categoryTerms| ==> e.categoryTerms[k].None? || e.categoryTerms[k].value == ""
  {
    var cats := Present(e.categoryTerms);
    if cats != [] {
      assert cats[0] in cats;
      PresentMembers(e.categoryTerms, cats[0]);
    } else {
      forall k | 0 <= k < |e.categoryTerms| && e.categoryTerms[k].Some?
        ensures e.categoryTerms[k].value == ""
      {
        PresentMembers(e.categoryTerms, e.categoryTerms[k].value);
      }
    }
  }

  /** The paper an entry describes. */
  function EntryPaper(e: Entry): Paper {
    var id := StripId(ElementText(e.idText));
    var categories := Present(e.categoryTerms);
    Paper(
      id,
      CollapsedText(e.titleText),
      CollapsedText(e.summaryText),
      AuthorNames(e.authorNames),
      ElementText(e.publishedText),
      ElementText(e.updatedText),
      categories,
      PrimaryCategory(e.primaryTerm, categories),
      PdfUrl(id),
      AbsUrl(id),
      None)
  }

  /**
   * What every parsed paper satisfies: its links come from its id, its title and abstract
   * are normalised, its id is empty only when the id element is, and its primary category
   * is one of its categories unless the entry names a primary one.
   */
  lemma EntryPaperFacts(e: Entry)
    ensures WellLinked(EntryPaper(e))
    ensures IsNormal(EntryPaper(e).title) && IsNormal(EntryPaper(e).abstractText)
    ensures EntryPaper(e).id == "" <==> ElementText(e.idText) == ""
    ensures EntryPaper(e).thumbnail.None?
    ensures e.primaryTerm.None? || e.primaryTerm.value == "" ==>
      EntryPaper(e).primaryCategory == "" || EntryPaper(e).primaryCategory in EntryPaper(e).categories
  {
    CollapsedTextFacts(e.titleText);
    CollapsedTextFacts(e.summaryText);
  }

  /** `parseArxivEntry` */
  method ParseArxivEntry(e: Entry) returns (p: Paper)
    ensures p == EntryPaper(e)
  {
    var idText := ElementText(e.idText);
    var id := StripId(idText);
    var categories := CollectCategories(e.categoryTerms);
    var authors := CollectAuthors(e.authorNames);
    var primary: string;
    if e.primaryTerm.Some? && e.primaryTerm.value != "" {
      primary := e.primaryTerm.value;
    } else {
      var cats := CollectCategories(e.categoryTerms);
      primary := if cats != [] then cats[0] else "";
    }
    p := Paper(
      id,
      CollapsedText(e.titleText),
      CollapsedText(e.summaryText),
      authors,
      ElementText(e.publishedText),
      ElementText(e.updatedText),
      categories,
      primary,
      PdfUrl(id),
      AbsUrl(id),
      None);
  }

  /** The papers of a feed: exactly one per entry, in the order of the entries. */
  function EntryPapers(entries: seq<Entry>): (r: seq<Paper>)
    ensures |r| == |entries|
  {
    if entries == [] then []
    else EntryPapers(entries[..|entries| - 1]) + [EntryPaper(entries[|entries| - 1])]
  }

  /** The k-th paper of a feed is the k-th entry's: the map `fetchPapers` performs. */
  lemma {:induction false} EntryPapersAt(entries: seq<Entry>, k: nat)
    requires k < |entries|
    ensures EntryPapers(entries)[k] == EntryPaper(entries[k])
  {
    var init := entries[..|entries| - 1];
    var last := EntryPaper(entries[|entries| - 1]);
    assert EntryPapers(entries) == EntryPapers(init) + [last];
    if k < |init| {
      EntryPapersAt(init, k);
      assert init[k] == entries[k];
      assert EntryPapers(entries)[k] == EntryPapers(init)[k];
    } else {
      assert EntryPapers(entries)[k] == last;
    }
  }

  /** The loop over the feed's entries in `fetchPapers` and `searchPapers`. */
  method ParseEntries(entries: seq<Entry>) returns (papers: seq<Paper>)
    ensures papers == EntryPapers(entries)
  {
    papers := [];
    var i := 0;
    while i < |entries|
      invariant 0 <= i <= |entries|
      invariant papers == EntryPapers(entries[..i])
    {
      var p := ParseArxivEntry(entries[i]);
      assert entries[..i + 1][..i] == entries[..i];
      papers := papers + [p];
      i := i + 1;
    }
    assert entries[..i] == entries;
  }
}
