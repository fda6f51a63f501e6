/**
 * The trending adapter (lib/huggingface.ts): the Hugging Face daily-papers list, item by
 * item, as papers. The request is not modelled: its outcome is the `HFResponse` given.
 */
module HuggingFace {
  import opened Wrappers
  import opened PaperTypes

  /**
   * The `paper` object of a daily-papers item, with its authors' `name` fields; `None`
   * when the object has no `authors` array.
   */
  datatype HFPaperInfo = HFPaperInfo(
    id: string,
    title: string,
    summary: string,
    authorNames: Option<seq<string>>,
    publishedAt: string)

  /** One daily-papers item; either field may be missing from the JSON. */
  datatype HFItem = HFItem(paper: Option<HFPaperInfo>, thumbnail: Option<string>)

  /**
   * How the request ended: a parsed item array, a response that was not OK, or a failure
   * (the network, or a body that is not JSON).
   */
  datatype HFResponse = HFOk(items: seq<HFItem>) | HFNotOk | HFFailed

  /** The paper an item maps to; its arXiv links come from the item's id. */
  function ItemPaper(info: HFPaperInfo, thumbnail: Option<string>): (p: Paper)
    requires info.authorNames.Some?
    ensures WellLinked(p) && p.id == info.id
    ensures p.categories == ["cs.AI"] && p.primaryCategory == "cs.AI"
    ensures p.publishedDate == info.publishedAt && p.updatedDate == info.publishedAt
    ensures p.title == info.title && p.abstractText == info.summary
    ensures p.authors == info.authorNames.value && p.thumbnail == thumbnail
  {
    Paper(info.id, info.title, info.summary, info.authorNames.value, info.publishedAt, info.publishedAt,
          ["cs.AI"], "cs.AI", PdfUrl(info.id), AbsUrl(info.id), thumbnail)
  }

  /**
   * Every item carries its `paper` object (otherwise reading `p.id` throws) and that
   * object its `authors` array (otherwise `p.authors.map` throws).
   */
  predicate AllHavePaper(items: seq<HFItem>) {
    forall k :: 0 <= k < |items| ==> items[k].paper.Some? && items[k].paper.value.authorNames.Some?
  }

  /** `data.map(...)`, item for item. */
  function MapItems(items: seq<HFItem>): (r: seq<Paper>)
    requires AllHavePaper(items)
  {
    seq(|items|, k requires 0 <= k < |items| => ItemPaper(items[k].paper.value, items[k].thumbnail))
  }

  /**
   * `getTrendingPapers`: the mapped items, or `[]` when the response is not OK, when the
   * request or the JSON fails, or when an item lacks its `paper` or its authors and the
   * mapping throws.
   * It never throws.
   */
  function TrendingPapers(response: HFResponse): (r: seq<Paper>)
    ensures response.HFNotOk? || response.HFFailed? ==> r == []
  {
    match response
    case HFOk(items) => if AllHavePaper(items) then MapItems(items) else []
    case _ => []
  }

  /**
   * A well-formed list maps one paper per item, in order, each carrying its item's id,
   * fields and thumbnail, with the arXiv links of that id and the `cs.AI` category.
   */
  lemma TrendingPerItem(items: seq<HFItem>)
    requires AllHavePaper(items)
    ensures var r := TrendingPapers(HFOk(items));
      |r| == |items| &&
      forall k :: 0 <= k < |items| ==>
        r[k] == ItemPaper(items[k].paper.value, items[k].thumbnail) &&
        r[k].id == items[k].paper.value.id && WellLinked(r[k]) &&
        r[k].categories == ["cs.AI"] && r[k].primaryCategory == "cs.AI" &&
        r[k].thumbnail == items[k].thumbnail
  {
    var r := TrendingPapers(HFOk(items));
    forall k | 0 <= k < |items|
      ensures r[k] == ItemPaper(items[k].paper.value, items[k].thumbnail)
    {
    }
  }

  /** An item without its `paper` object empties the whole list. */
  lemma MissingPaperEmpties(items: seq<HFItem>, k: nat)
    requires k < |items| && items[k].paper.None?
    ensures TrendingPapers(HFOk(items)) == []
  {
  }

  /** An item whose `paper` has no `authors` array empties the whole list. */
  lemma MissingAuthorsEmpties(items: seq<HFItem>, k: nat)
    requires k < |items| && items[k].paper.Some? && items[k].paper.value.authorNames.None?
    ensures TrendingPapers(HFOk(items)) == []
  {
  }

  /** Every trending paper, whatever the response, is well linked and filed under `cs.AI`. */
  lemma TrendingWellLinked(response: HFResponse)
    ensures forall p :: p in TrendingPapers(response) ==>
      WellLinked(p) && p.primaryCategory == "cs.AI" && p.categories == ["cs.AI"]
  {
    if response.HFOk? && AllHavePaper(response.items) {
      TrendingPerItem(response.items);
    }
  }
}
