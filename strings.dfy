/**
 * The JavaScript string operations the feed relies on, on `string` = `seq<char>`:
 * `startsWith`, `indexOf`, `includes`, `split` with a non-empty separator, and `join`.
 */
module Strings {
  import opened Wrappers

  /** `s.startsWith(p)` */
  predicate StartsWith(s: string, p: string) {
    |p| <= |s| && s[..|p|] == p
  }

  /** `sep` occurs in `s` at index `i`. */
  predicate OccursAt(s: string, sep: string, i: nat) {
    i + |sep| <= |s| && s[i..i + |sep|] == sep
  }

  /** The first occurrence of `sep` in `s` at or after `from`, scanning left to right. */
  function IndexFrom(s: string, sep: string, from: nat): (r: Option<nat>)
    ensures r.Some? ==> from <= r.value && OccursAt(s, sep, r.value)
    ensures r.Some? ==> forall j :: from <= j < r.value ==> !OccursAt(s, sep, j)
    ensures r.None? ==> forall j :: from <= j ==> !OccursAt(s, sep, j)
    decreases |s| + 1 - from
  {
    if from + |sep| > |s| then None
    else if s[from..from + |sep|] == sep then Some(from)
    else IndexFrom(s, sep, from + 1)
  }

  /** `s.indexOf(sep)`, with `None` for -1. */
  function IndexOf(s: string, sep: string): Option<nat> {
    IndexFrom(s, sep, 0)
  }

  /** `s.includes(sub)` */
  predicate Includes(s: string, sub: string) {
    IndexOf(s, sub).Some?
  }

  lemma IncludesIff(s: string, sub: string)
    ensures Includes(s, sub) <==> exists i :: OccursAt(s, sub, i)
  {
  }

  /**
   * `s.split(sep)` for a non-empty separator: the pieces between the occurrences of `sep`
   * found left to right without overlapping.
   */
  function Split(s: string, sep: string): (r: seq<string>)
    requires |sep| > 0
    ensures |r| >= 1
    ensures forall k :: 0 <= k < |r| ==> !Includes(r[k], sep)
    decreases |s|
  {
    match IndexOf(s, sep)
    case None => [s]
    case Some(i) =>
      BeforeFirstHasNone(s, sep, i);
      [s[..i]] + Split(s[i + |sep|..], sep)
  }

  /** The text before the first occurrence of `sep` does not contain `sep`. */
  lemma BeforeFirstHasNone(s: string, sep: string, i: nat)
    requires |sep| > 0 && IndexOf(s, sep) == Some(i)
    ensures !Includes(s[..i], sep)
  {
    var p := s[..i];
    if Includes(p, sep) {
      var j := IndexOf(p, sep).value;
      assert p[j..j + |sep|] == s[j..j + |sep|];
      assert OccursAt(s, sep, j);
      assert false;
    }
  }

  /** `xs.join(sep)` */
  function Join(xs: seq<string>, sep: string): string {
    if |xs| == 0 then ""
    else if |xs| == 1 then xs[0]
    else xs[0] + sep + Join(xs[1..], sep)
  }

  /** The last element, what `pop()` returns on a non-empty array. */
  function Last<T>(xs: seq<T>): T
    requires |xs| > 0
  {
    xs[|xs| - 1]
  }

  /** Splitting and joining back with the same separator gives the original string. */
  lemma {:induction false} JoinSplit(s: string, sep: string)
    requires |sep| > 0
    ensures Join(Split(s, sep), sep) == s
    decreases |s|
  {
    match IndexOf(s, sep)
    case None =>
    case Some(i) =>
      var rest := s[i + |sep|..];
      var tail := Split(rest, sep);
      JoinSplit(rest, sep);
      var pieces := [s[..i]] + tail;
      assert Split(s, sep) == pieces;
      assert pieces[1..] == tail;
      assert Join(pieces, sep) == s[..i] + sep + Join(tail, sep);
      assert s == s[..i] + sep + rest;
  }

  /** A string without any occurrence of the separator splits into itself alone. */
  lemma SplitWithout(s: string, sep: string)
    requires |sep| > 0 && !Includes(s, sep)
    ensures Split(s, sep) == [s]
  {
  }

  /** The first piece of a split is the text before the first occurrence of the separator. */
  lemma SplitFirst(s: string, sep: string)
    requires |sep| > 0
    ensures IndexOf(s, sep).None? ==> Split(s, sep)[0] == s
    ensures IndexOf(s, sep).Some? ==> Split(s, sep)[0] == s[..IndexOf(s, sep).value]
  {
  }

  /** `a + sep + b` where `sep` first occurs right after `a` and never in `b` splits into `[a, b]`. */
  lemma {:induction false} SplitPair(a: string, sep: string, b: string)
    requires |sep| > 0
    requires IndexOf(a + sep + b, sep) == Some(|a|)
    requires !Includes(b, sep)
    ensures Split(a + sep + b, sep) == [a, b]
  {
    var s := a + sep + b;
    assert s[..|a|] == a;
    assert s[|a| + |sep|..] == b;
    SplitWithout(b, sep);
  }

  /** A string that lacks the separator's first character does not contain the separator. */
  lemma MissingFirstChar(s: string, sep: string)
    requires |sep| > 0 && sep[0] !in s
    ensures !Includes(s, sep)
  {
  }

  /** A single-character separator first occurs at its first position. */
  lemma FirstOfChar(a: string, x: char, b: string)
    requires x !in a
    ensures IndexOf(a + [x] + b, [x]) == Some(|a|)
  {
    var s := a + [x] + b;
    forall j | 0 <= j < |a| ensures !OccursAt(s, [x], j) {
      assert s[j..j + 1][0] == a[j];
    }
    assert s[|a|..|a| + 1] == [x];
    assert OccursAt(s, [x], |a|);
  }

  /** A string cut at the first occurrence of a character splits one way only. */
  lemma SplitAtFirstChar(a1: string, b1: string, a2: string, b2: string, x: char)
    requires x !in a1 && x !in a2
    requires a1 + [x] + b1 == a2 + [x] + b2
    ensures a1 == a2 && b1 == b2
  {
    FirstOfChar(a1, x, b1);
    FirstOfChar(a2, x, b2);
    var s := a1 + [x] + b1;
    assert a1 == s[..|a1|] && a2 == s[..|a2|];
    assert b1 == s[|a1| + 1..] && b2 == s[|a2| + 1..];
  }
}
