/**
 * The bookmarks hook (hooks/useSavedPapers.ts). The saved ids start empty, are replaced
 * by the stored array when the mount effect loads it, and are written back on every change
 * once that load has happened.
 *
 * React's effects are the method calls: `Load` is the mount effect followed by the write
 * that setting `isLoaded` triggers, and `ToggleSave` is the state update followed by the
 * write its change triggers.
 */
module SavedPapers {
  import opened OrderedIds
  import opened StoredIds

  class SavedPapersHook {
    /** `savedIds`, in insertion order. */
    var savedIds: seq<string>
    var isLoaded: bool
    /** The `savedPapers` entry of `localStorage`. */
    var storage: Stored

    /** The ids are a set, and once loaded, storage holds exactly them. */
    predicate Valid()
      reads this
    {
      Distinct(savedIds) && (isLoaded ==> storage == Array(savedIds))
    }

    /** The first render: nothing saved, nothing loaded, storage as the browser has it. */
    constructor(stored: Stored)
      ensures Valid()
      ensures savedIds == [] && !isLoaded && storage == stored
    {
      savedIds := [];
      isLoaded := false;
      storage := stored;
    }

    /**
     * The mount effect: a stored array replaces the ids (the first occurrence of each),
     * anything else leaves them; then the hook is loaded and the ids are written back,
     * which overwrites an unreadable entry.
     */
    method Load()
      requires Valid() && !isLoaded
      modifies this
      ensures Valid() && isLoaded
      ensures savedIds == (if old(storage).Array? then FromArray(old(storage).items) else old(savedIds))
      ensures storage == Array(savedIds)
    {
      if storage.Array? {
        savedIds := FromArray(storage.items);
        FromArrayDistinct(storage.items);
      }
      isLoaded := true;
      storage := Array(savedIds);
    }

    /**
     * `toggleSave`: the id is deleted when saved and added otherwise; the new set is
     * written back only when the hook has loaded.
     */
    method ToggleSave(paperId: string)
      requires Valid()
      modifies this
      ensures Valid()
      ensures savedIds == Toggled(old(savedIds), paperId)
      ensures isLoaded == old(isLoaded)
      ensures storage == (if isLoaded then Array(savedIds) else old(storage))
    {
      var next := Toggled(savedIds, paperId);
      ToggleDistinct(savedIds, paperId);
      savedIds := next;
      if isLoaded {
        storage := Array(savedIds);
      }
    }

    /** `isSaved`: membership of the current set. */
    function IsSaved(paperId: string): (r: bool)
      reads this
      ensures r <==> paperId in savedIds
    {
      paperId in savedIds
    }
  }

  /**
   * Saving and unsaving the same paper leaves the same saved set, and what storage holds
   * once loaded is what a fresh hook reads back.
   */
  method ToggleTwiceRestores(hook: SavedPapersHook, paperId: string, other: string)
    requires hook.Valid() && hook.isLoaded
    modifies hook
    ensures hook.Valid()
    ensures hook.IsSaved(other) <==> old(hook.IsSaved(other))
    ensures old(!hook.IsSaved(paperId)) ==> hook.savedIds == old(hook.savedIds)
    ensures hook.storage.Array? && FromArray(hook.storage.items) == hook.savedIds
  {
    hook.ToggleSave(paperId);
    hook.ToggleSave(paperId);
    ToggleTwice(old(hook.savedIds), paperId, other);
    if paperId !in old(hook.savedIds) {
      ToggleTwiceFromAbsent(old(hook.savedIds), paperId);
    }
    FromArrayOfDistinct(hook.savedIds);
  }

  /** Before the load nothing is written, however often the ids are toggled. */
  method ToggleBeforeLoad(hook: SavedPapersHook, paperId: string)
    requires hook.Valid() && !hook.isLoaded
    modifies hook
    ensures hook.storage == old(hook.storage)
  {
    hook.ToggleSave(paperId);
  }
}
