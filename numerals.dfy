/**
 * Non-negative integers written in a radix between 2 and 16, as JavaScript writes them
 * (`String(n)`, `n.toString(16)`) and reads them back (`parseInt(s, radix)` on text that
 * starts with digits).
 */
module Numerals {
  import opened Wrappers

  /** `b` to the power `e`. */
  function Pow(b: nat, e: nat): (r: nat)
    ensures b >= 1 ==> r >= 1
  {
    if e == 0 then 1 else b * Pow(b, e - 1)
  }

  /** The character `toString` writes for digit `d`: `0`-`9`, then lower-case `a`-`f`. */
  function DigitChar(d: nat): char
    requires d < 16
  {
    if d < 10 then ('0' as int + d) as char else ('a' as int + d - 10) as char
  }

  /** The value of `c` as a digit in `radix`, either case, as `parseInt` reads it. */
  function DigitValue(c: char, radix: nat): (r: Option<nat>)
    ensures r.Some? ==> r.value < radix
  {
    var v :=
      if '0' <= c <= '9' then c as int - '0' as int
      else if 'a' <= c <= 'z' then c as int - 'a' as int + 10
      else if 'A' <= c <= 'Z' then c as int - 'A' as int + 10
      else 36;
    if v < radix then Some(v) else None
  }

  lemma DigitRoundTrip(d: nat, radix: nat)
    requires d < radix <= 16
    ensures DigitValue(DigitChar(d), radix) == Some(d)
  {
  }

  /** Every character of `s` is a digit in `radix`. */
  predicate IsDigits(s: string, radix: nat) {
    forall k :: 0 <= k < |s| ==> DigitValue(s[k], radix).Some?
  }

  /** Every character of `s` is a digit in `radix` written the way `toString` writes it. */
  predicate IsCanonicalDigits(s: string, radix: nat)
    requires radix <= 16
  {
    forall k :: 0 <= k < |s| ==>
      DigitValue(s[k], radix).Some? && DigitChar(DigitValue(s[k], radix).value) == s[k]
  }

  /** `n.toString(radix)`: most significant digit first, no leading zero. */
  function ToRadix(n: nat, radix: nat): string
    requires 2 <= radix <= 16
    decreases n
  {
    if n < radix then [DigitChar(n)] else ToRadix(n / radix, radix) + [DigitChar(n % radix)]
  }

  /** `String(n)` for a non-negative integer. */
  function Decimal(n: nat): string {
    ToRadix(n, 10)
  }

  /** The value of a string of digits, most significant first. */
  function ValueOf(s: string, radix: nat): nat
    requires IsDigits(s, radix)
  {
    if s == [] then 0
    else ValueOf(s[..|s| - 1], radix) * radix + DigitValue(s[|s| - 1], radix).value
  }

  /** The last `width` digits of `n`, padded with leading zeros. */
  function Fixed(n: nat, width: nat, radix: nat): (r: string)
    requires 2 <= radix <= 16
    ensures |r| == width
  {
    if width == 0 then [] else Fixed(n / radix, width - 1, radix) + [DigitChar(n % radix)]
  }

  /** The longest prefix of `s` made of digits in `radix`. */
  function LeadingDigits(s: string, radix: nat): (r: string)
    ensures StartsWithDigits(s, r, radix)
  {
    if s == [] || DigitValue(s[0], radix).None? then []
    else [s[0]] + LeadingDigits(s[1..], radix)
  }

  /** `d` is a prefix of `s`, made of digits, and no digit follows it in `s`. */
  predicate StartsWithDigits(s: string, d: string, radix: nat) {
    |d| <= |s| && s[..|d|] == d && IsDigits(d, radix) &&
    (|d| < |s| ==> DigitValue(s[|d|], radix).None?)
  }

  /**
   * `parseInt(s, radix)` on text that starts with a digit or with `-` and a digit;
   * `None` stands for `NaN`.
   */
  function ParseInt(s: string, radix: nat): (r: Option<int>)
  {
    if |s| > 0 && s[0] == '-' then
      var d := LeadingDigits(s[1..], radix);
      if d == [] then None else Some(0 - ValueOf(d, radix))
    else
      var d := LeadingDigits(s, radix);
      if d == [] then None else Some(ValueOf(d, radix))
  }

  /** A digit string without a leading zero (unless it is `0` itself). */
  predicate NoLeadingZero(s: string) {
    |s| > 0 && (|s| > 1 ==> s[0] != '0')
  }

  /** `toString` writes canonical digits and no leading zero. */
  lemma ToRadixShape(n: nat, radix: nat)
    requires 2 <= radix <= 16
    ensures IsCanonicalDigits(ToRadix(n, radix), radix)
    ensures NoLeadingZero(ToRadix(n, radix))
  {
    ToRadixCanonical(n, radix);
    ToRadixNoLeadingZero(n, radix);
  }

  lemma CanonicalAppend(p: string, d: nat, radix: nat)
    requires d < radix <= 16 && IsCanonicalDigits(p, radix)
    ensures IsCanonicalDigits(p + [DigitChar(d)], radix)
  {
    DigitRoundTrip(d, radix);
  }

  lemma {:induction false} ToRadixCanonical(n: nat, radix: nat)
    requires 2 <= radix <= 16
    ensures IsCanonicalDigits(ToRadix(n, radix), radix)
    decreases n
  {
    if n >= radix {
      ToRadixCanonical(n / radix, radix);
      CanonicalAppend(ToRadix(n / radix, radix), n % radix, radix);
    } else {
      CanonicalAppend([], n, radix);
      assert [] + [DigitChar(n)] == [DigitChar(n)];
    }
  }

  lemma {:induction false} ToRadixNoLeadingZero(n: nat, radix: nat)
    requires 2 <= radix <= 16
    ensures NoLeadingZero(ToRadix(n, radix))
    decreases n
  {
    if n >= radix {
      DivModRecompose(n, radix);
      ToRadixNoLeadingZero(n / radix, radix);
      NoLeadingZeroStep(n, radix);
    }
  }

  lemma NoLeadingZeroStep(n: nat, radix: nat)
    requires 2 <= radix <= n && radix <= 16 && n / radix >= 1
    requires NoLeadingZero(ToRadix(n / radix, radix))
    ensures NoLeadingZero(ToRadix(n, radix))
  {
    var m := n / radix;
    var p := ToRadix(m, radix);
    assert ToRadix(n, radix) == p + [DigitChar(n % radix)];
    if m < radix {
      assert p == [DigitChar(m)];
    }
  }

  /** Canonical digits are digits. */
  lemma CanonicalIsDigits(s: string, radix: nat)
    requires radix <= 16 && IsCanonicalDigits(s, radix)
    ensures IsDigits(s, radix)
  {
  }

  /** The value of digits followed by one more digit. */
  lemma ValueOfSnoc(p: string, d: nat, radix: nat)
    requires 2 <= radix <= 16 && d < radix && IsDigits(p, radix)
    ensures IsDigits(p + [DigitChar(d)], radix)
    ensures ValueOf(p + [DigitChar(d)], radix) == ValueOf(p, radix) * radix + d
  {
    DigitRoundTrip(d, radix);
    var s := p + [DigitChar(d)];
    assert s[..|s| - 1] == p;
  }

  /** Reading back what `toString` wrote gives the number. */
  lemma {:induction false} ValueOfToRadix(n: nat, radix: nat)
    requires 2 <= radix <= 16
    ensures IsDigits(ToRadix(n, radix), radix)
    ensures ValueOf(ToRadix(n, radix), radix) == n
    decreases n
  {
    if n < radix {
      ValueOfSnoc([], n, radix);
      assert [] + [DigitChar(n)] == ToRadix(n, radix);
    } else {
      ValueOfToRadix(n / radix, radix);
      ValueOfToRadixStep(n, radix);
    }
  }

  /** One step of `ValueOfToRadix`: the last digit and the digits before it. */
  lemma ValueOfToRadixStep(n: nat, radix: nat)
    requires 2 <= radix <= n && radix <= 16
    requires IsDigits(ToRadix(n / radix, radix), radix)
    requires ValueOf(ToRadix(n / radix, radix), radix) == n / radix
    ensures IsDigits(ToRadix(n, radix), radix)
    ensures ValueOf(ToRadix(n, radix), radix) == n
  {
    var q, d := n / radix, n % radix;
    var p := ToRadix(q, radix);
    assert ToRadix(n, radix) == p + [DigitChar(d)];
    ValueOfSnoc(p, d, radix);
    DivModRecompose(n, radix);
  }

  /** Different numbers are written differently. */
  lemma ToRadixInjective(m: nat, n: nat, radix: nat)
    requires 2 <= radix <= 16
    ensures ToRadix(m, radix) == ToRadix(n, radix) <==> m == n
  {
    ValueOfToRadix(m, radix);
    ValueOfToRadix(n, radix);
  }

  /** `String(n)` is made of decimal digits only (in particular it holds no `-`). */
  lemma DecimalDigits(n: nat)
    ensures |Decimal(n)| > 0
    ensures forall k :: 0 <= k < |Decimal(n)| ==> '0' <= Decimal(n)[k] <= '9'
  {
    ToRadixShape(n, 10);
    var s := Decimal(n);
    forall k | 0 <= k < |s| ensures '0' <= s[k] <= '9' {
      assert DigitValue(s[k], 10).Some?;
    }
  }

  /** Reading a decimal back with `parseInt` gives the number. */
  lemma ParseDecimal(n: nat)
    ensures ParseInt(Decimal(n), 10) == Some(n)
  {
    var s := Decimal(n);
    ValueOfToRadix(n, 10);
    DecimalDigits(n);
    LeadingAllDigits(s, 10);
  }

  /** A string made entirely of digits is its own longest digit prefix. */
  lemma {:induction false} LeadingAllDigits(s: string, radix: nat)
    requires IsDigits(s, radix)
    ensures LeadingDigits(s, radix) == s
  {
    if s != [] {
      LeadingAllDigits(s[1..], radix);
    }
  }

  /** Quotient and remainder put back together give the number. */
  lemma DivModRecompose(n: nat, b: nat)
    requires b > 0
    ensures (n / b) * b + n % b == n
  {
  }

  /** A product of naturals is a natural. */
  lemma MulNonNegative(a: nat, b: nat)
    ensures a * b >= 0
  {
  }

  /** Division by a positive `b` is determined by any quotient-remainder decomposition. */
  lemma DivModUnique(n: nat, b: nat, q: nat, d: nat)
    requires 0 <= d < b && n == q * b + d
    ensures n / b == q && n % b == d
  {
    var q', d' := n / b, n % b;
    assert n == q' * b + d';
    if q' < q {
      var k := q - q';
      assert k * b == d' - d;
      MulNonNegative(k - 1, b);
    } else if q' > q {
      var k := q' - q;
      assert k * b == d - d';
      MulNonNegative(k - 1, b);
    }
  }

  /** Reading back `width` padded digits gives the number, when it fits. */
  lemma {:induction false} ValueOfFixed(n: nat, width: nat, radix: nat)
    requires 2 <= radix <= 16 && n < Pow(radix, width)
    ensures IsCanonicalDigits(Fixed(n, width, radix), radix)
    ensures IsDigits(Fixed(n, width, radix), radix)
    ensures ValueOf(Fixed(n, width, radix), radix) == n
    decreases width
  {
    if width == 0 {
      assert Fixed(n, width, radix) == [];
    } else {
      DivBound(n, radix, Pow(radix, width - 1));
      ValueOfFixed(n / radix, width - 1, radix);
      ValueOfFixedStep(n, width, radix);
    }
  }

  lemma ValueOfFixedStep(n: nat, width: nat, radix: nat)
    requires 2 <= radix <= 16 && width >= 1
    requires IsCanonicalDigits(Fixed(n / radix, width - 1, radix), radix)
    requires ValueOf(Fixed(n / radix, width - 1, radix), radix) == n / radix
    ensures IsCanonicalDigits(Fixed(n, width, radix), radix)
    ensures IsDigits(Fixed(n, width, radix), radix)
    ensures ValueOf(Fixed(n, width, radix), radix) == n
  {
    var p := Fixed(n / radix, width - 1, radix);
    assert Fixed(n, width, radix) == p + [DigitChar(n % radix)];
    CanonicalIsDigits(p, radix);
    CanonicalAppend(p, n % radix, radix);
    CanonicalIsDigits(p + [DigitChar(n % radix)], radix);
    ValueOfSnoc(p, n % radix, radix);
    DivModRecompose(n, radix);
  }

  /** `n < b * m` means `n / b < m`. */
  lemma DivBound(n: nat, b: nat, m: nat)
    requires b > 0 && n < b * m
    ensures n / b < m
  {
    var q := n / b;
    assert q * b + n % b == n;
    if q >= m {
      MulNonNegative(q - m, b);
    }
  }

  /** Writing canonical digits, padded to their own length, from their value gives them back. */
  lemma {:induction false} FixedValueOf(s: string, radix: nat)
    requires 2 <= radix <= 16 && IsCanonicalDigits(s, radix)
    ensures IsDigits(s, radix)
    ensures Fixed(ValueOf(s, radix), |s|, radix) == s
  {
    CanonicalIsDigits(s, radix);
    if s != [] {
      var init := s[..|s| - 1];
      assert IsCanonicalDigits(init, radix) by {
        forall k | 0 <= k < |init| ensures DigitValue(init[k], radix).Some? &&
          DigitChar(DigitValue(init[k], radix).value) == init[k] {
          assert init[k] == s[k];
        }
      }
      FixedValueOf(init, radix);
      FixedValueOfStep(s, radix);
    }
  }

  lemma FixedValueOfStep(s: string, radix: nat)
    requires 2 <= radix <= 16 && IsCanonicalDigits(s, radix) && s != []
    requires IsDigits(s[..|s| - 1], radix)
    requires Fixed(ValueOf(s[..|s| - 1], radix), |s| - 1, radix) == s[..|s| - 1]
    ensures IsDigits(s, radix)
    ensures Fixed(ValueOf(s, radix), |s|, radix) == s
  {
    CanonicalIsDigits(s, radix);
    var init, d := s[..|s| - 1], DigitValue(s[|s| - 1], radix).value;
    var v := ValueOf(s, radix);
    assert v == ValueOf(init, radix) * radix + d;
    DivModUnique(v, radix, ValueOf(init, radix), d);
    assert s == init + [s[|s| - 1]];
  }

  /** The arithmetic behind `HexLeadingOne`: peeling the last hex digit off `16^width + r`. */
  lemma HexPeel(n: nat, r: nat, width: nat)
    requires width >= 1 && r < Pow(16, width) && n == Pow(16, width) + r
    ensures n / 16 == Pow(16, width - 1) + r / 16
    ensures n % 16 == r % 16
    ensures n >= 16
    ensures r / 16 < Pow(16, width - 1)
  {
  }

  /**
   * `n = 16^width + r`, for `r` below `16^width`, is written in hex as `1` followed by `r`
   * padded to `width` digits.
   */
  lemma {:induction false} HexLeadingOne(n: nat, r: nat, width: nat)
    requires r < Pow(16, width) && n == Pow(16, width) + r
    ensures ToRadix(n, 16) == "1" + Fixed(r, width, 16)
    decreases width
  {
    if width == 0 {
      assert n == 1;
    } else {
      HexPeel(n, r, width);
      HexLeadingOne(n / 16, r / 16, width - 1);
      LeadingOneStep(n, r, width, 16);
    }
  }

  lemma LeadingOneStep(n: nat, r: nat, width: nat, radix: nat)
    requires 2 <= radix <= 16 && width >= 1 && n >= radix
    requires ToRadix(n / radix, radix) == "1" + Fixed(r / radix, width - 1, radix)
    requires n % radix == r % radix
    ensures ToRadix(n, radix) == "1" + Fixed(r, width, radix)
  {
    assert ToRadix(n, radix) == ToRadix(n / radix, radix) + [DigitChar(n % radix)];
  }
}
