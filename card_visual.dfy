/**
 * The two card visuals: the gradient card (components/paper-card-visual.tsx) and the
 * picture card (components/paper/paper-card-visual.tsx). Both pick the first key of a
 * table, in declaration order, that occurs in the category.
 */
module CardVisual {
  import opened Wrappers
  import opened Strings
  import opened Numerals

  /** The position of the first key, in order, that occurs in the category. */
  function FirstKeyIndex(keys: seq<string>, category: string): (r: Option<nat>)
    ensures r.Some? ==>
      r.value < |keys| && Includes(category, keys[r.value]) &&
      forall j :: 0 <= j < r.value ==> !Includes(category, keys[j])
    ensures r.None? ==> forall j :: 0 <= j < |keys| ==> !Includes(category, keys[j])
  {
    if keys == [] then None
    else if Includes(category, keys[0]) then Some(0)
    else
      var r := FirstKeyIndex(keys[1..], category);
      if r.None? then None else Some(r.value + 1)
  }

  /** `Object.keys(table).find(k => category.includes(k)) || "cs.AI"` */
  function FirstKeyIn(keys: seq<string>, category: string): string {
    var found := FirstKeyIndex(keys, category);
    if found.Some? && keys[found.value] != "" then keys[found.value] else "cs.AI"
  }

  /** The keys of a table, in declaration order. */
  function Keys<V>(table: seq<(string, V)>): (r: seq<string>)
    ensures |r| == |table| && forall i :: 0 <= i < |table| ==> r[i] == table[i].0
  {
    seq(|table|, i requires 0 <= i < |table| => table[i].0)
  }

  /** The value of the first entry with the key. */
  function Lookup<V>(table: seq<(string, V)>, key: string): (r: Option<V>)
    ensures r.Some? <==> key in Keys(table)
    ensures r.Some? ==> (key, r.value) in table
  {
    if table == [] then None
    else if table[0].0 == key then Some(table[0].1)
    else
      var r := Lookup(table[1..], key);
      assert Keys(table) == [table[0].0] + Keys(table[1..]);
      r
  }

  /** `CATEGORY_COLORS`: the gradient's start and end colours. */
  const CategoryColors: seq<(string, (string, string))> := [
    ("cs.AI", ("#3b82f6", "#8b5cf6")),
    ("cs.LG", ("#10b981", "#3b82f6")),
    ("cs.CL", ("#f59e0b", "#ef4444")),
    ("cs.CV", ("#ec4899", "#8b5cf6")),
    ("cs.RO", ("#f97316", "#db2777")),
    ("physics", ("#0ea5e9", "#1e40af")),
    ("math", ("#84cc16", "#15803d"))
  ]

  /** The colours used when the table has no entry for the key. */
  const FallbackColors: (string, string) := ("#6366f1", "#a855f7")

  /**
   * What one character adds to the sum. `split("")` cuts a string into UTF-16 code units,
   * so a character beyond U+FFFF adds its two surrogates; any other adds its own code.
   */
  function CodeUnitSum(c: char): (r: nat)
    ensures c as int <= 0xFFFF ==> r == c as int
    ensures c as int > 0xFFFF ==> 0xD800 + 0xDC00 <= r < 0xDC00 + 0xE000
  {
    if c as int <= 0xFFFF then c as nat
    else
      var v := c as int - 0x10000;
      (0xD800 + v / 0x400) + (0xDC00 + v % 0x400)
  }

  /** `title.split("").reduce((acc, char) => acc + char.charCodeAt(0), 0)` */
  function CharCodeSum(title: string): (r: nat) {
    if title == [] then 0 else CharCodeSum(title[..|title| - 1]) + CodeUnitSum(title[|title| - 1])
  }

  /** A character beyond U+FFFF counts as its two surrogates: U+1F600 is 0xD83D and 0xDE00. */
  lemma AstralTitleAngle()
    ensures CharCodeSum(['\U{1F600}']) == 0xD83D + 0xDE00
    ensures Angle(['\U{1F600}']) == 229
  {
    assert ['\U{1F600}'][..0] == [];
  }

  /** The sum over a title is the sum over its parts. */
  lemma {:induction false} CharCodeSumAppend(a: string, b: string)
    ensures CharCodeSum(a + b) == CharCodeSum(a) + CharCodeSum(b)
    decreases |b|
  {
    if b == [] {
      assert a + b == a;
    } else {
      assert (a + b)[..|a + b| - 1] == a + b[..|b| - 1];
      CharCodeSumAppend(a, b[..|b| - 1]);
    }
  }

  /** The gradient's angle in degrees: the char-code sum modulo 360. */
  function Angle(title: string): (r: nat)
    ensures r < 360
    ensures (r - CharCodeSum(title)) % 360 == 0
  {
    CharCodeSum(title) % 360
  }

  /** The gradient's colours: those of the first table key in the category, else `cs.AI`'s. */
  function GradientColors(category: string): (string, string) {
    var key := FirstKeyIn(Keys(CategoryColors), category);
    var found := Lookup(CategoryColors, key);
    if found.Some? then found.value else FallbackColors
  }

  /** The table always has the chosen key, so the fallback colours are never used. */
  lemma GradientColorsFromTable(category: string)
    ensures (FirstKeyIn(Keys(CategoryColors), category), GradientColors(category)) in CategoryColors
  {
    var key := FirstKeyIn(Keys(CategoryColors), category);
    assert Keys(CategoryColors)[0] == "cs.AI";
  }

  /** `linear-gradient(<angle>deg, <start>, <end>)` */
  function Gradient(category: string, title: string): string {
    var (start, end) := GradientColors(category);
    "linear-gradient(" + Decimal(Angle(title)) + "deg, " + start + ", " + end + ")"
  }

  /** What a card visual shows. */
  datatype Visual = Thumbnail(src: string) | GradientFill(css: string) | CategoryPicture(src: string)

  /** A thumbnail is present and not empty (JavaScript truthiness). */
  predicate HasThumbnail(thumbnail: Option<string>) {
    thumbnail.Some? && thumbnail.value != ""
  }

  /** The gradient card: the thumbnail when there is one, else the gradient. */
  function GradientCard(thumbnail: Option<string>, category: string, title: string): (r: Visual)
    ensures r.Thumbnail? <==> HasThumbnail(thumbnail)
    ensures r.Thumbnail? ==> r.src == thumbnail.value
    ensures r.GradientFill? ==> r.css == Gradient(category, title)
  {
    if HasThumbnail(thumbnail) then Thumbnail(thumbnail.value) else GradientFill(Gradient(category, title))
  }

  /** Two titles with the same characters in another order get the same angle. */
  lemma AngleOfSwap(a: string, b: string)
    ensures Angle(a + b) == Angle(b + a)
  {
    CharCodeSumAppend(a, b);
    CharCodeSumAppend(b, a);
  }

  /** `CATEGORY_IMAGES` */
  const CategoryImages: seq<(string, string)> := [
    ("cs.AI", "/categories/ai.png"),
    ("cs.LG", "/categories/ml.png"),
    ("cs.CL", "/categories/cl.png"),
    ("cs.CV", "/categories/cv.png"),
    ("cs.RO", "/categories/ro.png"),
    ("physics", "/categories/physics.png"),
    ("math", "/categories/math.png")
  ]

  /** The picture of a category: that of the first table key in it, else `/categories/ai.png`. */
  function CategoryImage(category: string): string {
    var found := Lookup(CategoryImages, FirstKeyIn(Keys(CategoryImages), category));
    if found.Some? then found.value else "/categories/ai.png"
  }

  /** The picture always comes from the table; a category with no key gets `cs.AI`'s. */
  lemma CategoryImageFromTable(category: string)
    ensures (FirstKeyIn(Keys(CategoryImages), category), CategoryImage(category)) in CategoryImages
    ensures (forall k :: k in Keys(CategoryImages) ==> !Includes(category, k)) ==>
      CategoryImage(category) == "/categories/ai.png"
  {
    assert Keys(CategoryImages)[0] == "cs.AI";
  }

  /** The picture card's one piece of state: whether the thumbnail failed to load. */
  class PictureCard {
    const thumbnail: Option<string>
    const category: string
    var imageError: bool

    constructor(thumbnail: Option<string>, category: string)
      ensures this.thumbnail == thumbnail && this.category == category && !imageError
    {
      this.thumbnail := thumbnail;
      this.category := category;
      imageError := false;
    }

    /** The thumbnail while it is present and has not failed, else the category picture. */
    function Shown(): (r: Visual)
      reads this
      ensures r.Thumbnail? <==> HasThumbnail(thumbnail) && !imageError
      ensures !r.Thumbnail? ==> r == CategoryPicture(CategoryImage(category))
    {
      if HasThumbnail(thumbnail) && !imageError then Thumbnail(thumbnail.value)
      else CategoryPicture(CategoryImage(category))
    }

    /** `onError`: the thumbnail failed, and the category picture is shown from now on. */
    method OnError()
      modifies this
      ensures imageError
      ensures Shown() == CategoryPicture(CategoryImage(category))
    {
      imageError := true;
    }
  }
}
