/**
 * The display helpers of a feed card (components/PaperCard.tsx): the author line, the
 * age of a paper, the category avatar and the "Show more" switch.
 */
module PaperCard {
  import opened Strings
  import opened Numerals

  /** `formatAuthors`: nobody, up to three names joined by `, `, or the first three and `et al.` */
  function FormatAuthors(authors: seq<string>): (r: string)
    ensures r == "" <==> authors == [] || authors == [""]
  {
    if |authors| == 0 then ""
    else if |authors| <= 3 then
      JoinEmpty(authors, ", ");
      Join(authors, ", ")
    else
      Join(authors[..3], ", ") + " et al."
  }

  /** Pieces joined by a non-empty separator give `""` only for the single piece `""`. */
  lemma JoinEmpty(xs: seq<string>, sep: string)
    requires |xs| >= 1 && sep != ""
    ensures Join(xs, sep) == "" <==> xs == [""]
  {
  }

  /** Occurrences of a character. */
  function Count(s: string, c: char): nat {
    if s == [] then 0 else (if s[0] == c then 1 else 0) + Count(s[1..], c)
  }

  lemma {:induction false} CountAppend(a: string, b: string, c: char)
    ensures Count(a + b, c) == Count(a, c) + Count(b, c)
  {
    if a == [] {
      assert a + b == b;
    } else {
      assert (a + b)[1..] == a[1..] + b;
      CountAppend(a[1..], b, c);
    }
  }

  /** Names without commas joined by `, ` hold one comma fewer than there are names. */
  lemma {:induction false} JoinCommas(xs: seq<string>)
    requires |xs| >= 1 && forall k :: 0 <= k < |xs| ==> Count(xs[k], ',') == 0
    ensures Count(Join(xs, ", "), ',') == |xs| - 1
  {
    if |xs| > 1 {
      JoinCommas(xs[1..]);
      CountAppend(xs[0], ", ", ',');
      CountAppend(xs[0] + ", ", Join(xs[1..], ", "), ',');
      assert Count(", ", ',') == 1;
    }
  }

  /**
   * The author line names at most three authors: for names without commas it holds one
   * comma fewer than the names shown, and it ends in `et al.` after the third exactly
   * when authors were left out.
   */
  lemma AuthorsShown(authors: seq<string>)
    requires |authors| >= 1 && forall k :: 0 <= k < |authors| ==> Count(authors[k], ',') == 0
    ensures var shown := if |authors| <= 3 then |authors| else 3;
      Count(FormatAuthors(authors), ',') == shown - 1
    ensures |authors| > 3 ==> FormatAuthors(authors) == FormatAuthors(authors[..3]) + " et al."
  {
    if |authors| <= 3 {
      JoinCommas(authors);
    } else {
      JoinCommas(authors[..3]);
      CountAppend(Join(authors[..3], ", "), " et al.", ',');
      assert Count(" et al.", ',') == 0;
      assert authors[..3][..3] == authors[..3];
    }
  }

  const HourMs: int := 1000 * 60 * 60
  const DayMs: int := 1000 * 60 * 60 * 24

  /** The age label of a card; the calendar date (a locale format) is left abstract. */
  datatype DateLabel = JustNow | HoursAgo(hours: int) | DaysAgo(days: int) | CalendarDate

  /**
   * `formatDate`, given the milliseconds elapsed since publication (negative for a date
   * in the future): whole hours and days are floored.
   */
  function FormatDate(diffMs: int): (r: DateLabel)
    ensures r == JustNow <==> diffMs < HourMs
    ensures r.HoursAgo? ==> 1 <= r.hours <= 23 && r.hours * HourMs <= diffMs < (r.hours + 1) * HourMs
    ensures r.DaysAgo? ==> 1 <= r.days <= 6 && r.days * DayMs <= diffMs < (r.days + 1) * DayMs
    ensures r == CalendarDate <==> diffMs >= 7 * DayMs
  {
    var diffHours := diffMs / HourMs;
    var diffDays := diffMs / DayMs;
    if diffHours < 1 then JustNow
    else if diffHours < 24 then HoursAgo(diffHours)
    else if diffDays < 7 then DaysAgo(diffDays)
    else CalendarDate
  }

  /** The text of a label, `now`, `<h>h` or `<d>d`. */
  function LabelText(tag: DateLabel): (r: string)
    requires !tag.CalendarDate? && (tag.HoursAgo? ==> tag.hours >= 0) && (tag.DaysAgo? ==> tag.days >= 0)
  {
    match tag
    case JustNow => "now"
    case HoursAgo(h) => Decimal(h) + "h"
    case DaysAgo(d) => Decimal(d) + "d"
  }

  /** Every age under a week has a label text, and texts of different ages differ. */
  lemma DateTextsDistinct(d1: int, d2: int)
    requires d1 < 7 * DayMs && d2 < 7 * DayMs
    ensures LabelText(FormatDate(d1)) == LabelText(FormatDate(d2)) <==> FormatDate(d1) == FormatDate(d2)
  {
    var l1, l2 := FormatDate(d1), FormatDate(d2);
    if LabelText(l1) == LabelText(l2) && l1 != l2 {
      LabelShape(l1);
      LabelShape(l2);
      if l1.HoursAgo? && l2.HoursAgo? {
        assert Decimal(l1.hours) == LabelText(l1)[..|LabelText(l1)| - 1];
        ToRadixInjective(l1.hours, l2.hours, 10);
      } else if l1.DaysAgo? && l2.DaysAgo? {
        assert Decimal(l1.days) == LabelText(l1)[..|LabelText(l1)| - 1];
        ToRadixInjective(l1.days, l2.days, 10);
      }
    }
  }

  /** The last character of a label text tells its kind. */
  lemma LabelShape(tag: DateLabel)
    requires !tag.CalendarDate? && (tag.HoursAgo? ==> tag.hours >= 0) && (tag.DaysAgo? ==> tag.days >= 0)
    ensures var t := LabelText(tag);
      |t| >= 1 && t[|t| - 1] == (match tag case JustNow => 'w' case HoursAgo(_) => 'h' case _ => 'd')
    ensures tag.HoursAgo? ==> LabelText(tag) == Decimal(tag.hours) + "h"
    ensures tag.DaysAgo? ==> LabelText(tag) == Decimal(tag.days) + "d"
  {
  }

  /** ASCII `toUpperCase()`. */
  function AsciiUpper(s: string): (r: string)
    ensures |r| == |s|
    ensures forall k :: 0 <= k < |s| ==> r[k] == (if 'a' <= s[k] <= 'z' then (s[k] as int - 32) as char else s[k])
  {
    if s == [] then [] else
      [if 'a' <= s[0] <= 'z' then (s[0] as int - 32) as char else s[0]] + AsciiUpper(s[1..])
  }

  /**
   * The avatar tag: the text after the first `.` and before the next one, uppercased
   * and cut to two characters, or `AI` when that is missing or empty.
   */
  function AvatarLabel(primaryCategory: string): (r: string)
    ensures 1 <= |r| <= 2
  {
    var pieces := Split(primaryCategory, ".");
    if |pieces| < 2 then "AI"
    else
      var upper := AsciiUpper(pieces[1]);
      var cut := if |upper| <= 2 then upper else upper[..2];
      if cut == "" then "AI" else cut
  }

  /** The tag of `archive.subject` is the subject's first two letters, uppercased. */
  lemma AvatarOfSubject(archive: string, subject: string)
    requires '.' !in archive && '.' !in subject && subject != ""
    ensures var u := AsciiUpper(subject);
      AvatarLabel(archive + "." + subject) == (if |u| <= 2 then u else u[..2])
  {
    FirstOfChar(archive, '.', subject);
    MissingFirstChar(subject, ".");
    SplitPair(archive, ".", subject);
  }

  /** A category without a subject (no `.`, or nothing after it) shows `AI`. */
  lemma AvatarWithoutSubject(archive: string)
    requires '.' !in archive
    ensures AvatarLabel(archive) == "AI"
    ensures AvatarLabel(archive + ".") == "AI"
  {
    MissingFirstChar(archive, ".");
    SplitWithout(archive, ".");
    FirstOfChar(archive, '.', "");
    assert archive + "." == archive + "." + "";
    SplitPair(archive, ".", "");
  }

  /** "Show more" is offered on a collapsed card whose abstract is over 200 characters. */
  predicate ShowMore(isExpanded: bool, abstractText: string) {
    !isExpanded && |abstractText| > 200
  }

  /** Whether the abstract is expanded after `clicks` calls of `handleExpand`. */
  function ExpandedAfter(clicks: nat, initial: bool): bool {
    if clicks == 0 then initial else !ExpandedAfter(clicks - 1, initial)
  }

  /** Each click flips the state, so only the parity of the clicks matters. */
  lemma {:induction false} ExpandedParity(clicks: nat, initial: bool)
    ensures ExpandedAfter(clicks, initial) == (if clicks % 2 == 0 then initial else !initial)
  {
    if clicks > 0 {
      ExpandedParity(clicks - 1, initial);
    }
  }

  /**
   * From the first render, "Show more" is offered exactly after an even number of clicks
   * on a long abstract, and never on an abstract of at most 200 characters.
   */
  lemma ShowMoreAfterClicks(clicks: nat, abstractText: string)
    ensures ShowMore(ExpandedAfter(clicks, false), abstractText) <==>
      clicks % 2 == 0 && |abstractText| > 200
  {
    ExpandedParity(clicks, false);
  }

  /** The card's `isExpanded` state. */
  class CardExpansion {
    var isExpanded: bool

    /** The first render: collapsed. */
    constructor()
      ensures !isExpanded
    {
      isExpanded := false;
    }

    /** `handleExpand`: the abstract or the "Show more" button flips the expansion. */
    method HandleExpand()
      modifies this
      ensures isExpanded == ExpandedAfter(1, old(isExpanded))
    {
      isExpanded := !isExpanded;
    }
  }

  /** On a long abstract each click switches whether "Show more" is offered. */
  method ClickSwitchesShowMore(card: CardExpansion, abstractText: string)
    requires |abstractText| > 200
    modifies card
    ensures ShowMore(card.isExpanded, abstractText) == !old(ShowMore(card.isExpanded, abstractText))
  {
    card.HandleExpand();
  }

  /** Two clicks bring the card, and the offer of "Show more", back to where they were. */
  method ClickTwiceRestores(card: CardExpansion, abstractText: string)
    modifies card
    ensures card.isExpanded == old(card.isExpanded)
    ensures ShowMore(card.isExpanded, abstractText) == old(ShowMore(card.isExpanded, abstractText))
  {
    card.HandleExpand();
    card.HandleExpand();
  }
}
