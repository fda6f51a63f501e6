/**
 * The likes hook (hooks/useLikedPapers.ts). The liked ids are read from storage when the
 * hook is created and written back on every change, starting with the first render.
 */
module LikedPapers {
  import opened OrderedIds
  import opened StoredIds

  class LikedPapersHook {
    /** `likedIds`, in insertion order. */
    var likedIds: seq<string>
    /** The `likedPapers` entry of `localStorage`. */
    var storage: Stored

    /** The ids are a set and storage holds exactly them. */
    predicate Valid()
      reads this
    {
      Distinct(likedIds) && storage == Array(likedIds)
    }

    /**
     * The lazy initial state, then the effect of the first render: the stored array (the
     * first occurrence of each id) when storage holds one, otherwise the empty set, which
     * is written back at once.
     */
    constructor(stored: Stored)
      ensures Valid()
      ensures likedIds == (if stored.Array? then FromArray(stored.items) else [])
    {
      if stored.Array? {
        likedIds := FromArray(stored.items);
        FromArrayDistinct(stored.items);
      } else {
        likedIds := [];
      }
      storage := Array(likedIds);
    }

    /** `toggleLike`: the id is deleted when liked and added otherwise, and written back. */
    method ToggleLike(paperId: string)
      requires Valid()
      modifies this
      ensures Valid()
      ensures likedIds == Toggled(old(likedIds), paperId)
    {
      var next := Toggled(likedIds, paperId);
      ToggleDistinct(likedIds, paperId);
      likedIds := next;
      storage := Array(likedIds);
    }

    /** `isLiked`: membership of the current set. */
    function IsLiked(paperId: string): (r: bool)
      reads this
      ensures r <==> paperId in likedIds
    {
      paperId in likedIds
    }
  }

  /** Liking and unliking the same paper leaves every paper's like as it was. */
  method LikeTwiceRestores(hook: LikedPapersHook, paperId: string, other: string)
    requires hook.Valid()
    modifies hook
    ensures hook.Valid()
    ensures hook.IsLiked(other) <==> old(hook.IsLiked(other))
    ensures old(!hook.IsLiked(paperId)) ==> hook.likedIds == old(hook.likedIds)
  {
    hook.ToggleLike(paperId);
    hook.ToggleLike(paperId);
    ToggleTwice(old(hook.likedIds), paperId, other);
    if paperId !in old(hook.likedIds) {
      ToggleTwiceFromAbsent(old(hook.likedIds), paperId);
    }
  }

  /** A hook created over what another wrote reads back the same likes. */
  method Reopen(hook: LikedPapersHook) returns (again: LikedPapersHook)
    requires hook.Valid()
    ensures again.likedIds == hook.likedIds
  {
    again := new LikedPapersHook(hook.storage);
    FromArrayOfDistinct(hook.likedIds);
  }
}
