/** What browser storage holds under a hook's key, as the hooks read it. */
module StoredIds {
  /**
   * No entry (or an empty one), an entry that `JSON.parse` or `new Set` rejects, or the
   * array of ids an earlier write left.
   */
  datatype Stored = Missing | Unreadable | Array(items: seq<string>)
}
