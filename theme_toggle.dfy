/**
 * The theme picker (components/ThemeToggle.tsx): the twenty colour themes, the hex colour
 * adjustment used for hover and secondary backgrounds, and the picker's state.
 *
 * `adjustBrightness` is modelled on integers: its `percent` argument becomes the integer
 * `amt` that `Math.round(2.55 * percent)` gives. Browser storage is the `storage` field
 * and the CSS custom properties set on the root element are the `style` map.
 */
module ThemeToggle {
  import opened Wrappers
  import opened Strings
  import opened Numerals

  /** `ToInt32`: the integer modulo 2^32, read as a signed 32-bit number. */
  function Int32(n: int): (r: int)
    ensures -0x8000_0000 <= r < 0x8000_0000
    ensures (n - r) % 0x1_0000_0000 == 0
    ensures 0 <= n < 0x8000_0000 ==> r == n
  {
    var m := n % 0x1_0000_0000;
    if m >= 0x8000_0000 then m - 0x1_0000_0000 else m
  }

  /** `s.replace('#', '')`: the first `#` removed. */
  function WithoutFirstHash(s: string): string {
    match IndexOf(s, "#")
    case None => s
    case Some(i) => s[..i] + s[i + 1..]
  }

  /**
   * `parseInt(hex.replace('#', ''), 16)` as the bit operators see it: `NaN` reads as 0,
   * anything else modulo 2^32. `ParseInt` covers text that starts with a digit or with
   * `-` and a digit; leading whitespace, a `+` sign and a `0x` prefix, which `parseInt`
   * also accepts, are outside it. The theme colours are all `#` and six hex digits.
   */
  function ColorNumber(hex: string): int {
    var parsed := ParseInt(WithoutFirstHash(hex), 16);
    if parsed.None? then 0 else Int32(parsed.value)
  }

  /** `num >> 16` */
  function Red(num: int): int {
    num / 0x1_0000
  }

  /** `(num >> 8) & 0xFF` */
  function Green(num: int): int {
    (num / 0x100) % 0x100
  }

  /** `num & 0xFF` */
  function Blue(num: int): int {
    num % 0x100
  }

  /** `Math.max(0, Math.min(255, x))` */
  function Clamp(x: int): (r: nat)
    ensures r <= 255
    ensures 0 <= x <= 255 ==> r == x
  {
    if x < 0 then 0 else if x > 255 then 255 else x
  }

  /** The adjusted colour as one number, `R * 0x10000 + G * 0x100 + B`. */
  function AdjustedRgb(hex: string, amt: int): (r: nat)
    ensures r < 0x100_0000
  {
    var num := ColorNumber(hex);
    Clamp(Red(num) + amt) * 0x1_0000 + Clamp(Green(num) + amt) * 0x100 + Clamp(Blue(num) + amt)
  }

  lemma PowSix()
    ensures Pow(16, 6) == 0x100_0000
  {
    assert Pow(16, 1) == 16;
    assert Pow(16, 2) == 0x100;
    assert Pow(16, 3) == 0x1000;
    assert Pow(16, 4) == 0x1_0000;
    assert Pow(16, 5) == 0x10_0000;
  }

  /**
   * `adjustBrightness(hex, percent)`: every channel moved by `amt` and clamped to
   * 0..255, then written as `#` and the hex digits of `0x1000000 + rgb` after the
   * leading `1`.
   */
  function AdjustBrightness(hex: string, amt: int): (r: string)
    ensures r == "#" + Fixed(AdjustedRgb(hex, amt), 6, 16)
  {
    var rgb := AdjustedRgb(hex, amt);
    PowSix();
    HexLeadingOne(0x100_0000 + rgb, rgb, 6);
    "#" + ToRadix(0x100_0000 + rgb, 16)[1..]
  }

  /** The output is `#` and six lower-case hex digits, zero-padded. */
  lemma AdjustShape(hex: string, amt: int)
    ensures var r := AdjustBrightness(hex, amt);
      |r| == 7 && r[0] == '#' && IsCanonicalDigits(r[1..], 16) && IsDigits(r[1..], 16)
  {
    var r := AdjustBrightness(hex, amt);
    PowSix();
    ValueOfFixed(AdjustedRgb(hex, amt), 6, 16);
    assert r[1..] == Fixed(AdjustedRgb(hex, amt), 6, 16);
  }

  /** Reading the output back, each channel is the input channel moved by `amt` and clamped. */
  lemma AdjustChannels(hex: string, amt: int)
    ensures var r := AdjustBrightness(hex, amt);
      IsDigits(r[1..], 16) &&
      var v := ValueOf(r[1..], 16);
      var num := ColorNumber(hex);
      Red(v) == Clamp(Red(num) + amt) && Green(v) == Clamp(Green(num) + amt) &&
      Blue(v) == Clamp(Blue(num) + amt)
  {
    var r := AdjustBrightness(hex, amt);
    var rgb := AdjustedRgb(hex, amt);
    PowSix();
    ValueOfFixed(rgb, 6, 16);
    assert r[1..] == Fixed(rgb, 6, 16);
    var num := ColorNumber(hex);
    var R, G, B := Clamp(Red(num) + amt), Clamp(Green(num) + amt), Clamp(Blue(num) + amt);
    SplitChannels(rgb, R, G, B);
  }

  /** The three channels of `R * 0x10000 + G * 0x100 + B`, for bytes `G` and `B`. */
  lemma SplitChannels(v: nat, R: nat, G: nat, B: nat)
    requires G < 0x100 && B < 0x100 && v == R * 0x1_0000 + G * 0x100 + B
    ensures Red(v) == R && Green(v) == G && Blue(v) == B
  {
    DivModUnique(v, 0x1_0000, R, G * 0x100 + B);
    DivModUnique(v, 0x100, R * 0x100 + G, B);
    DivModUnique(R * 0x100 + G, 0x100, R, G);
  }

  /** A larger `amt` never darkens any channel. */
  lemma AdjustMonotone(hex: string, a1: int, a2: int)
    requires a1 <= a2
    ensures IsDigits(AdjustBrightness(hex, a1)[1..], 16) && IsDigits(AdjustBrightness(hex, a2)[1..], 16)
    ensures var v1 := ValueOf(AdjustBrightness(hex, a1)[1..], 16);
      var v2 := ValueOf(AdjustBrightness(hex, a2)[1..], 16);
      Red(v1) <= Red(v2) && Green(v1) <= Green(v2) && Blue(v1) <= Blue(v2)
  {
    AdjustChannels(hex, a1);
    AdjustChannels(hex, a2);
  }

  /** Six hex digits are below 16^6. */
  lemma {:induction false} ValueOfBound(s: string)
    requires IsDigits(s, 16)
    ensures ValueOf(s, 16) < Pow(16, |s|)
    decreases |s|
  {
    if s != [] {
      var init := s[..|s| - 1];
      assert IsDigits(init, 16) by {
        forall k | 0 <= k < |init| ensures DigitValue(init[k], 16).Some? {
          assert init[k] == s[k];
        }
      }
      ValueOfBound(init);
    }
  }

  /** With `amt = 0`, a colour written `#` and six lower-case hex digits comes back unchanged. */
  lemma AdjustIdentity(digits: string)
    requires |digits| == 6 && IsCanonicalDigits(digits, 16)
    ensures AdjustBrightness("#" + digits, 0) == "#" + digits
  {
    CanonicalIsDigits(digits, 16);
    ColorOfDigits(digits);
    UnchangedRgb("#" + digits, ValueOf(digits, 16));
    FixedValueOf(digits, 16);
  }

  /** `#` and six hex digits read as the value of the digits. */
  lemma ColorOfDigits(digits: string)
    requires |digits| == 6 && IsDigits(digits, 16)
    ensures ColorNumber("#" + digits) == ValueOf(digits, 16) < 0x100_0000
  {
    var hex := "#" + digits;
    ValueOfBound(digits);
    PowSix();
    FirstOfChar([], '#', digits);
    assert [] + ['#'] + digits == hex;
    assert hex[1..] == digits;
    assert WithoutFirstHash(hex) == digits;
    assert DigitValue(digits[0], 16).Some?;
    LeadingAllDigits(digits, 16);
  }

  /** A colour number of three bytes is rebuilt unchanged when `amt` is 0. */
  lemma UnchangedRgb(hex: string, v: nat)
    requires ColorNumber(hex) == v < 0x100_0000
    ensures AdjustedRgb(hex, 0) == v
  {
    DivBound(v, 0x1_0000, 0x100);
    DivModRecompose(v, 0x1_0000);
    DivModRecompose(v % 0x1_0000, 0x100);
    DivModUnique(v, 0x100, (v / 0x1_0000) * 0x100 + (v % 0x1_0000) / 0x100, (v % 0x1_0000) % 0x100);
    DivModUnique(v / 0x100, 0x100, v / 0x1_0000, (v % 0x1_0000) / 0x100);
  }

  /** A colour theme: an accent colour and a background colour. */
  datatype Theme = Theme(id: string, name: string, accent: string, bg: string)

  /** `THEMES`, in declaration order. */
  const Themes: seq<Theme> := [
    Theme("twitter-blue", "Twitter Blue", "#1d9bf0", "#000000"),
    Theme("cyan", "Cyan", "#06b6d4", "#000000"),
    Theme("emerald", "Emerald", "#10b981", "#000000"),
    Theme("lime", "Lime", "#84cc16", "#000000"),
    Theme("violet", "Violet", "#8b5cf6", "#000000"),
    Theme("magenta", "Magenta", "#e879f9", "#000000"),
    Theme("pink", "Pink", "#ec4899", "#000000"),
    Theme("coral", "Coral", "#fb7185", "#000000"),
    Theme("amber", "Amber", "#f59e0b", "#000000"),
    Theme("gold", "Gold", "#eab308", "#000000"),
    Theme("silver", "Silver", "#94a3b8", "#000000"),
    Theme("white", "White", "#e2e8f0", "#000000"),
    Theme("midnight", "Midnight", "#818cf8", "#0f0f23"),
    Theme("ocean", "Ocean", "#22d3ee", "#0c1222"),
    Theme("forest", "Forest", "#4ade80", "#0a1410"),
    Theme("grape", "Grape", "#c084fc", "#1a0a20"),
    Theme("sunset", "Sunset", "#fb923c", "#1c1210"),
    Theme("mint", "Mint", "#2dd4bf", "#0a1412"),
    Theme("berry", "Berry", "#f472b6", "#1a0a14"),
    Theme("electric", "Electric", "#38bdf8", "#0c1525")
  ]

  const DefaultTheme: string := "twitter-blue"

  /** `Math.round(2.55 * -15)`: the hover shade is darker. */
  const HoverShift: int := -38
  /** `Math.round(2.55 * 10)`: the secondary background is lighter. */
  const SecondaryShift: int := 26

  /** `THEMES.find(t => t.id === id)` over a list of themes. */
  function FindTheme(themes: seq<Theme>, id: string): (r: Option<Theme>)
    ensures r.Some? ==> r.value in themes && r.value.id == id
    ensures r.None? <==> forall t :: t in themes ==> t.id != id
  {
    if themes == [] then None
    else if themes[0].id == id then Some(themes[0])
    else FindTheme(themes[1..], id)
  }

  /** The custom properties a theme sets on the root element. */
  function ThemeStyle(style: map<string, string>, t: Theme): map<string, string> {
    style["--color-accent" := t.accent]
         ["--color-accent-hover" := AdjustBrightness(t.accent, HoverShift)]
         ["--color-bg" := t.bg]
         ["--color-bg-secondary" := AdjustBrightness(t.bg, SecondaryShift)]
  }

  class ThemePicker {
    /** The themes on offer: `THEMES`. */
    const themes: seq<Theme>
    var isOpen: bool
    var currentTheme: string
    var mounted: bool
    /** The `theme` entry of `localStorage`; `None` when absent. */
    var storage: Option<string>
    /** The custom properties set on the root element. */
    var style: map<string, string>

    /** The first render: closed, the default theme, not mounted. */
    constructor(stored: Option<string>)
      ensures themes == Themes
      ensures !isOpen && currentTheme == DefaultTheme && !mounted && storage == stored && style == map[]
    {
      themes := Themes;
      isOpen := false;
      currentTheme := DefaultTheme;
      mounted := false;
      storage := stored;
      style := map[];
    }

    /** `applyTheme`: the theme's properties are set; an unknown id changes nothing. */
    method ApplyTheme(themeId: string)
      modifies this
      ensures var theme := FindTheme(themes, themeId);
        style == if theme.Some? then ThemeStyle(old(style), theme.value) else old(style)
      ensures isOpen == old(isOpen) && currentTheme == old(currentTheme) && mounted == old(mounted)
      ensures storage == old(storage)
    {
      var theme := FindTheme(themes, themeId);
      if theme.Some? {
        style := ThemeStyle(style, theme.value);
      }
    }

    /** The mount effect: a stored theme is applied only when `THEMES` has it. */
    method Mount()
      modifies this
      ensures mounted && storage == old(storage) && isOpen == old(isOpen)
      ensures var saved := old(storage);
        if saved.Some? && saved.value != "" && FindTheme(themes, saved.value).Some? then
          currentTheme == saved.value && style == ThemeStyle(old(style), FindTheme(themes, saved.value).value)
        else
          currentTheme == old(currentTheme) && style == old(style)
    {
      mounted := true;
      var saved := storage;
      if saved.Some? && saved.value != "" && FindTheme(themes, saved.value).Some? {
        currentTheme := saved.value;
        ApplyTheme(saved.value);
      }
    }

    /** `handleThemeChange`: the theme becomes current, is stored, and is applied. */
    method HandleThemeChange(themeId: string)
      requires FindTheme(themes, themeId).Some?
      modifies this
      ensures currentTheme == themeId && storage == Some(themeId)
      ensures style == ThemeStyle(old(style), FindTheme(themes, themeId).value)
      ensures isOpen == old(isOpen) && mounted == old(mounted)
    {
      currentTheme := themeId;
      storage := Some(themeId);
      ApplyTheme(themeId);
    }

    /** The toggle button opens a closed picker and closes an open one. */
    method ToggleOpen()
      modifies this
      ensures isOpen == !old(isOpen)
      ensures currentTheme == old(currentTheme) && storage == old(storage) && style == old(style) &&
        mounted == old(mounted)
    {
      isOpen := !isOpen;
    }
  }

  /** A theme chosen in one visit is the current theme after the next mount. */
  method ChoiceSurvivesReload(picker: ThemePicker, themeId: string) returns (next: ThemePicker)
    requires picker.themes == Themes && FindTheme(Themes, themeId).Some? && themeId != ""
    modifies picker
    ensures next.currentTheme == themeId
  {
    picker.HandleThemeChange(themeId);
    next := new ThemePicker(picker.storage);
    next.Mount();
  }

  /** A stored id that no theme has leaves the default theme in place. */
  method UnknownStoredTheme(stored: string) returns (picker: ThemePicker)
    requires FindTheme(Themes, stored).None?
    ensures picker.currentTheme == DefaultTheme && picker.style == map[]
  {
    picker := new ThemePicker(Some(stored));
    picker.Mount();
  }
}
