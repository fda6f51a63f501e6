/**
 * JavaScript's whitespace handling: `String.prototype.trim` and `replace(/\s+/g, " ")`.
 * Both use the same character class: the WhiteSpace and LineTerminator code points of
 * ECMAScript (section 12.2 and 12.3 of ECMA-262).
 */
module Whitespace {
  import opened Strings

  /** A character matched by `\s` and removed by `trim()`. */
  predicate IsSpace(c: char) {
    var n := c as int;
    || 0x09 <= n <= 0x0D                   // tab, line feed, vertical tab, form feed, carriage return
    || n == 0x20 || n == 0xA0 || n == 0x1680  // space, no-break space, ogham space mark
    || 0x2000 <= n <= 0x200A               // en quad .. hair space
    || n == 0x2028 || n == 0x2029          // line and paragraph separators
    || n == 0x202F || n == 0x205F || n == 0x3000
    || n == 0xFEFF                         // byte order mark
  }

  /** No whitespace at either end. */
  predicate NoEdgeSpace(s: string) {
    s == [] || (!IsSpace(s[0]) && !IsSpace(s[|s| - 1]))
  }

  /** No two adjacent whitespace characters. */
  predicate NoDoubleSpace(s: string) {
    forall i :: 1 <= i < |s| && IsSpace(s[i]) ==> !IsSpace(s[i - 1])
  }

  /** The only whitespace character present is the plain space. */
  predicate OnlyPlainSpaces(s: string) {
    forall i :: 0 <= i < |s| && IsSpace(s[i]) ==> s[i] == ' '
  }

  /** Already normalised text. */
  predicate IsNormal(s: string) {
    NoEdgeSpace(s) && NoDoubleSpace(s) && OnlyPlainSpaces(s)
  }

  /** The characters of `s` that are not whitespace, in order. */
  function Visible(s: string): (r: string)
    ensures forall i :: 0 <= i < |r| ==> !IsSpace(r[i])
  {
    if s == [] then []
    else if IsSpace(s[0]) then Visible(s[1..])
    else [s[0]] + Visible(s[1..])
  }

  /** `trimStart()`: the suffix that remains after the leading whitespace. */
  function TrimStart(s: string): (r: string)
    ensures |r| <= |s| && r == s[|s| - |r|..]
    ensures r == [] || !IsSpace(r[0])
  {
    if s != [] && IsSpace(s[0]) then TrimStart(s[1..]) else s
  }

  /** What `trimStart()` removes is whitespace. */
  lemma {:induction false} TrimStartSkipsSpaces(s: string)
    ensures forall k :: 0 <= k < |s| - |TrimStart(s)| ==> IsSpace(s[k])
    decreases |s|
  {
    if s != [] && IsSpace(s[0]) {
      var t := s[1..];
      TrimStartSkipsSpaces(t);
      forall k | 0 <= k < |s| - |TrimStart(s)| ensures IsSpace(s[k]) {
        if k > 0 { assert s[k] == t[k - 1]; }
      }
    }
  }

  /** `trimEnd()`: the prefix that remains before the trailing whitespace. */
  function TrimEnd(s: string): (r: string)
    ensures |r| <= |s| && r == s[..|r|]
    ensures r == [] || !IsSpace(r[|r| - 1])
  {
    if s != [] && IsSpace(s[|s| - 1]) then TrimEnd(s[..|s| - 1]) else s
  }

  /** What `trimEnd()` removes is whitespace. */
  lemma {:induction false} TrimEndSkipsSpaces(s: string)
    ensures forall k :: |TrimEnd(s)| <= k < |s| ==> IsSpace(s[k])
    decreases |s|
  {
    if s != [] && IsSpace(s[|s| - 1]) {
      var p := s[..|s| - 1];
      TrimEndSkipsSpaces(p);
      forall k | |TrimEnd(s)| <= k < |s| ensures IsSpace(s[k]) {
        if k < |s| - 1 { assert s[k] == p[k]; }
      }
    }
  }

  /** `trim()` */
  function Trim(s: string): string {
    TrimEnd(TrimStart(s))
  }

  /** `trim()` removes exactly the whitespace at both ends and nothing else. */
  lemma TrimFacts(s: string)
    ensures NoEdgeSpace(Trim(s))
    ensures var i := |s| - |TrimStart(s)|; i + |Trim(s)| <= |s| && Trim(s) == s[i..i + |Trim(s)|]
    ensures Visible(Trim(s)) == Visible(s)
    ensures Trim(s) == [] <==> forall k :: 0 <= k < |s| ==> IsSpace(s[k])
  {
    var t := TrimStart(s);
    var u := TrimEnd(t);
    TrimSlice(s);
    VisibleOfTrimStart(s);
    VisibleOfTrimEnd(t);
    if u != [] {
      assert u[0] == t[0];
      var i := |s| - |t|;
      assert s[i] == t[0];
    }
  }

  lemma TrimSlice(s: string)
    ensures var i := |s| - |TrimStart(s)|; i + |Trim(s)| <= |s| && Trim(s) == s[i..i + |Trim(s)|]
  {
    var t := TrimStart(s);
    var u := TrimEnd(t);
    var i := |s| - |t|;
    assert t == s[i..];
    assert u == t[..|u|];
  }

  /** Whatever `trim()` returns has nothing left to trim. */
  lemma {:induction false} TrimIdempotent(s: string)
    ensures Trim(Trim(s)) == Trim(s)
  {
    TrimFacts(s);
    TrimNoEdge(Trim(s));
  }

  /** A string without edge whitespace is left as it is by `trim()`. */
  lemma TrimNoEdge(s: string)
    requires NoEdgeSpace(s)
    ensures Trim(s) == s
  {
  }

  lemma {:induction false} VisibleOfTrimStart(s: string)
    ensures Visible(TrimStart(s)) == Visible(s)
    decreases |s|
  {
    if s != [] && IsSpace(s[0]) {
      VisibleOfTrimStart(s[1..]);
    }
  }

  lemma {:induction false} VisibleOfTrimEnd(s: string)
    ensures Visible(TrimEnd(s)) == Visible(s)
    decreases |s|
  {
    if s != [] && IsSpace(s[|s| - 1]) {
      var p := s[..|s| - 1];
      VisibleOfTrimEnd(p);
      VisibleAppend(p, [s[|s| - 1]]);
      assert p + [s[|s| - 1]] == s;
    }
  }

  lemma {:induction false} VisibleAppend(a: string, b: string)
    ensures Visible(a + b) == Visible(a) + Visible(b)
    decreases |a|
  {
    if a != [] {
      VisibleAppend(a[1..], b);
      assert (a + b)[0] == a[0];
      assert (a + b)[1..] == a[1..] + b;
      if !IsSpace(a[0]) {
        assert [a[0]] + Visible(a[1..]) + Visible(b) == [a[0]] + (Visible(a[1..]) + Visible(b));
      }
    } else {
      assert a + b == b;
    }
  }

  /**
   * `s.replace(/\s+/g, " ")`: every maximal run of whitespace becomes one plain space.
   */
  function Collapse(s: string): string {
    CollapseRun(s, false)
  }

  /**
   * The collapse, scanning left to right; `inRun` says the character before `s` was
   * whitespace, whose run has already produced its space.
   */
  function CollapseRun(s: string, inRun: bool): string
    decreases |s|
  {
    if s == [] then []
    else if IsSpace(s[0]) then
      (if inRun then [] else [' ']) + CollapseRun(s[1..], true)
    else [s[0]] + CollapseRun(s[1..], false)
  }

  /** The collapse leaves only single plain spaces, and keeps whitespace at an end exactly where the input had it. */
  lemma CollapseFacts(s: string)
    ensures s == [] <==> Collapse(s) == []
    ensures s != [] ==> Collapse(s)[0] == (if IsSpace(s[0]) then ' ' else s[0])
    ensures s != [] ==> (IsSpace(Last(Collapse(s))) <==> IsSpace(Last(s)))
    ensures OnlyPlainSpaces(Collapse(s)) && NoDoubleSpace(Collapse(s))
  {
    if s != [] {
      RunLast(s, false);
    }
    RunClean(s, false);
  }

  /** A collapse ends in whitespace exactly when its input does; it is empty only inside a run. */
  lemma {:induction false} RunLast(s: string, inRun: bool)
    requires s != []
    ensures CollapseRun(s, inRun) == [] ==> inRun && IsSpace(Last(s))
    ensures CollapseRun(s, inRun) != [] ==> (IsSpace(Last(CollapseRun(s, inRun))) <==> IsSpace(Last(s)))
    decreases |s|
  {
    var t := s[1..];
    var head := if IsSpace(s[0]) then (if inRun then [] else [' ']) else [s[0]];
    var next := IsSpace(s[0]);
    assert CollapseRun(s, inRun) == head + CollapseRun(t, next);
    if t != [] {
      RunLast(t, next);
      assert Last(t) == Last(s);
    }
  }

  /** A collapse holds no whitespace but single plain spaces, and none at its start inside a run. */
  lemma {:induction false} RunClean(s: string, inRun: bool)
    ensures OnlyPlainSpaces(CollapseRun(s, inRun)) && NoDoubleSpace(CollapseRun(s, inRun))
    ensures inRun && CollapseRun(s, inRun) != [] ==> !IsSpace(CollapseRun(s, inRun)[0])
    decreases |s|
  {
    if s != [] {
      var next := IsSpace(s[0]);
      var head := if next then (if inRun then [] else [' ']) else [s[0]];
      RunClean(s[1..], next);
      var ct := CollapseRun(s[1..], next);
      var r := head + ct;
      assert CollapseRun(s, inRun) == r;
      if head != [] {
        forall i | 1 <= i < |r| && IsSpace(r[i]) ensures !IsSpace(r[i - 1]) {
          assert r[i] == ct[i - 1];
          if i > 1 { assert r[i - 1] == ct[i - 2]; }
        }
        forall i | 0 <= i < |r| && IsSpace(r[i]) ensures r[i] == ' ' {
          if i > 0 { assert r[i] == ct[i - 1]; }
        }
      } else {
        assert r == ct;
      }
    }
  }

  /** Collapsing keeps every non-whitespace character, in order. */
  lemma {:induction false} CollapseKeepsVisible(s: string, inRun: bool)
    ensures Visible(CollapseRun(s, inRun)) == Visible(s)
    decreases |s|
  {
    if s != [] {
      var next := IsSpace(s[0]);
      CollapseKeepsVisible(s[1..], next);
      var ct := CollapseRun(s[1..], next);
      if next {
        if inRun {
          assert CollapseRun(s, inRun) == ct;
        } else {
          assert CollapseRun(s, inRun) == [' '] + ct;
          assert ([' '] + ct)[1..] == ct;
        }
      } else {
        assert CollapseRun(s, inRun) == [s[0]] + ct;
        assert ([s[0]] + ct)[1..] == ct;
      }
    }
  }

  /**
   * A string with no whitespace other than single plain spaces is already collapsed (and,
   * inside a run, so is one that does not start with whitespace).
   */
  lemma {:induction false} CollapseFixpoint(s: string, inRun: bool)
    requires OnlyPlainSpaces(s) && NoDoubleSpace(s)
    requires inRun ==> s == [] || !IsSpace(s[0])
    ensures CollapseRun(s, inRun) == s
    decreases |s|
  {
    if s != [] {
      var t := s[1..];
      assert OnlyPlainSpaces(t) && NoDoubleSpace(t) by {
        forall i | 1 <= i < |t| && IsSpace(t[i]) ensures !IsSpace(t[i - 1]) {
          assert t[i] == s[i + 1] && t[i - 1] == s[i];
        }
      }
      if IsSpace(s[0]) {
        assert t != [] ==> !IsSpace(t[0]) by {
          if t != [] { assert t[0] == s[1]; }
        }
      }
      CollapseFixpoint(t, IsSpace(s[0]));
      assert s == [s[0]] + t;
    }
  }

  /** Collapsing distributes over a split point after a non-whitespace character. */
  lemma {:induction false} CollapseAppend(a: string, b: string, inRun: bool)
    requires a != [] && !IsSpace(Last(a))
    ensures CollapseRun(a + b, inRun) == CollapseRun(a, inRun) + CollapseRun(b, false)
    decreases |a|
  {
    var t := a[1..];
    var next := IsSpace(a[0]);
    var head := if next then (if inRun then [] else [' ']) else [a[0]];
    assert (a + b)[0] == a[0];
    assert (a + b)[1..] == t + b;
    assert CollapseRun(a + b, inRun) == head + CollapseRun(t + b, next);
    assert CollapseRun(a, inRun) == head + CollapseRun(t, next);
    if t == [] {
      assert t + b == b;
    } else {
      assert Last(t) == Last(a);
      CollapseAppend(t, b, next);
    }
  }

  /** A whitespace run followed by text that starts without whitespace collapses to one space. */
  lemma {:induction false} SpacesCollapse(ws: string, b: string, inRun: bool)
    requires forall k :: 0 <= k < |ws| ==> IsSpace(ws[k])
    requires ws != []
    ensures CollapseRun(ws + b, inRun) == (if inRun then [] else [' ']) + CollapseRun(b, true)
    decreases |ws|
  {
    assert (ws + b)[0] == ws[0];
    assert (ws + b)[1..] == ws[1..] + b;
    if |ws| == 1 {
      assert ws[1..] + b == b;
    } else {
      SpacesCollapse(ws[1..], b, true);
    }
  }

  /** The title and abstract normalisation: `trim()` followed by the whitespace collapse. */
  function Normalize(s: string): string {
    Collapse(Trim(s))
  }

  /**
   * Normalised text has no whitespace at its ends, no whitespace other than single plain
   * spaces, and the same visible characters in the same order as the input.
   */
  lemma NormalizeFacts(s: string)
    ensures IsNormal(Normalize(s))
    ensures Visible(Normalize(s)) == Visible(s)
    ensures Normalize(s) == [] <==> forall k :: 0 <= k < |s| ==> IsSpace(s[k])
  {
    var t := Trim(s);
    TrimFacts(s);
    CollapseFacts(t);
    CollapseKeepsVisible(t, false);
    var r := Collapse(t);
    if t != [] {
      assert Last(r) == r[|r| - 1] && Last(t) == t[|t| - 1];
    }
  }

  /** Normalising twice is normalising once. */
  lemma {:induction false} NormalizeIdempotent(s: string)
    ensures Normalize(Normalize(s)) == Normalize(s)
  {
    var n := Normalize(s);
    NormalizeFacts(s);
    TrimNoEdge(n);
    CollapseFixpoint(n, false);
  }

  /** Two normalised pieces separated by any whitespace run (a pretty-printed line break, say) normalise to the pieces joined by one space. */
  lemma JoinedByWhitespace(a: string, ws: string, b: string)
    requires a != [] && b != [] && IsNormal(a) && IsNormal(b)
    requires ws != [] && forall k :: 0 <= k < |ws| ==> IsSpace(ws[k])
    ensures Normalize(a + ws + b) == a + " " + b
  {
    var s := a + ws + b;
    TrimKeepsInner(a, ws, b);
    CollapseJoin(a, ws, b);
  }

  lemma TrimKeepsInner(a: string, ws: string, b: string)
    requires a != [] && b != [] && NoEdgeSpace(a) && NoEdgeSpace(b)
    ensures Trim(a + ws + b) == a + ws + b
  {
    var s := a + ws + b;
    assert s[0] == a[0] && s[|s| - 1] == b[|b| - 1];
    TrimNoEdge(s);
  }

  lemma CollapseJoin(a: string, ws: string, b: string)
    requires a != [] && b != [] && IsNormal(a) && IsNormal(b)
    requires ws != [] && forall k :: 0 <= k < |ws| ==> IsSpace(ws[k])
    ensures Collapse(a + ws + b) == a + " " + b
  {
    assert a + ws + b == a + (ws + b);
    CollapseFixpoint(a, false);
    SpacesCollapse(ws, b, false);
    CollapseFixpoint(b, true);
    CollapseAppend(a, ws + b, false);
  }
}
