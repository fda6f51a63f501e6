/**
 * A JavaScript `Set<string>` of paper ids, as the sequence of its members in insertion
 * order (the order `[...set]` lists them in): a sequence without repetitions.
 */
module OrderedIds {

  /** No id occurs twice. */
  predicate Distinct(xs: seq<string>) {
    forall i, j :: 0 <= i < j < |xs| ==> xs[i] != xs[j]
  }

  /** `set.delete(x)`: the members other than `x`, in their order. */
  function Remove(xs: seq<string>, x: string): (r: seq<string>)
    ensures forall y :: y in r <==> y in xs && y != x
    ensures |r| <= |xs|
  {
    if xs == [] then []
    else (if xs[0] == x then [] else [xs[0]]) + Remove(xs[1..], x)
  }

  /** A copy of the set with `x` deleted when it is a member, and added last otherwise. */
  function Toggled(xs: seq<string>, x: string): seq<string> {
    if x in xs then Remove(xs, x) else xs + [x]
  }

  /** `new Set(array)`: the first occurrence of each id, in array order. */
  function FromArray(items: seq<string>): (r: seq<string>)
    ensures forall y :: y in r <==> y in items
  {
    if items == [] then []
    else
      var init := FromArray(items[..|items| - 1]);
      var x := items[|items| - 1];
      assert items == items[..|items| - 1] + [x];
      if x in init then init else init + [x]
  }

  /** Toggling flips the membership of the toggled id and of no other. */
  lemma ToggleMembership(xs: seq<string>, x: string, y: string)
    ensures y in Toggled(xs, x) <==> (if y == x then x !in xs else y in xs)
  {
  }

  /** Deleting from a set whose members are distinct keeps them distinct. */
  lemma {:induction false} RemoveDistinct(xs: seq<string>, x: string)
    requires Distinct(xs)
    ensures Distinct(Remove(xs, x))
  {
    if xs != [] {
      RemoveDistinct(xs[1..], x);
      var rest := Remove(xs[1..], x);
      assert xs[0] !in xs[1..];
      assert xs[0] !in rest;
    }
  }

  /** Toggling keeps the members distinct. */
  lemma ToggleDistinct(xs: seq<string>, x: string)
    requires Distinct(xs)
    ensures Distinct(Toggled(xs, x))
  {
    if x in xs {
      RemoveDistinct(xs, x);
    }
  }

  /** Deleting an id that is not a member changes nothing. */
  lemma {:induction false} RemoveAbsent(xs: seq<string>, x: string)
    requires x !in xs
    ensures Remove(xs, x) == xs
  {
    if xs != [] {
      RemoveAbsent(xs[1..], x);
      assert [xs[0]] + xs[1..] == xs;
    }
  }

  /** Deleting the id that was just added last gives back the set before. */
  lemma {:induction false} RemoveLast(xs: seq<string>, x: string)
    requires x !in xs
    ensures Remove(xs + [x], x) == xs
  {
    if xs == [] {
      assert [] + [x] == [x];
    } else {
      assert (xs + [x])[1..] == xs[1..] + [x];
      RemoveLast(xs[1..], x);
      assert [xs[0]] + xs[1..] == xs;
    }
  }

  /** Toggling the same id twice gives a set with the same members. */
  lemma ToggleTwice(xs: seq<string>, x: string, y: string)
    ensures y in Toggled(Toggled(xs, x), x) <==> y in xs
  {
  }

  /** Toggling an absent id twice gives back the very same set, order included. */
  lemma ToggleTwiceFromAbsent(xs: seq<string>, x: string)
    requires x !in xs
    ensures Toggled(Toggled(xs, x), x) == xs
  {
    RemoveLast(xs, x);
  }

  /** The set built from an array has no repetitions. */
  lemma {:induction false} FromArrayDistinct(items: seq<string>)
    ensures Distinct(FromArray(items))
  {
    if items != [] {
      FromArrayDistinct(items[..|items| - 1]);
    }
  }

  /** A set written out with `[...set]` and read back with `new Set(...)` is the same set. */
  lemma {:induction false} FromArrayOfDistinct(items: seq<string>)
    requires Distinct(items)
    ensures FromArray(items) == items
  {
    if items != [] {
      var init := items[..|items| - 1];
      FromArrayOfDistinct(init);
      assert items[|items| - 1] !in init;
      assert init + [items[|items| - 1]] == items;
    }
  }
}
