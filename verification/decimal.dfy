/** Exact decimal numbers for the price strings of the metal-rate pipeline.
    A numeral such as "6531.70" denotes units / 10^scale = 653170 / 10^2.
    Binary floating point is replaced by exact values; Python's `round(x, 2)`
    becomes exact round-half-to-even to whole hundredths, and `str(float)` of
    a two-decimal value becomes `FormatCents`. */
module Decimal {
  import opened Strings

  /** A non-negative decimal value units / 10^scale. */
  datatype Dec = Dec(units: nat, scale: nat)

  /** Position of the first '.' in `s`, or |s| when there is none. */
  function DotIndex(s: string): (p: nat)
    ensures p <= |s|
    ensures forall k :: 0 <= k < p ==> s[k] != '.'
    ensures p < |s| ==> s[p] == '.'
  {
    if s == [] then 0
    else if s[0] == '.' then 0
    else 1 + DotIndex(s[1..])
  }

  /** A string Python's `float()` reads as a plain decimal and that the
      price regex can produce: digits, optionally followed by '.' and at
      least one digit, and not empty ("12", "12.5", ".5"). */
  predicate IsNumeral(s: string) {
    var p := DotIndex(s);
    |s| >= 1
    && AllDigits(s[..p])
    && (p == |s| || (p + 1 < |s| && AllDigits(s[p + 1..])))
  }

  /** The exact value `float(s)` approximates. */
  function NumeralValue(s: string): (v: Dec)
    requires IsNumeral(s)
    ensures DotIndex(s) == |s| ==> v == Dec(DigitsValue(s), 0)
    ensures DotIndex(s) < |s| ==>
      v.scale == |s| - DotIndex(s) - 1
      && v.units == DigitsValue(s[..DotIndex(s)]) * Pow10(v.scale) + DigitsValue(s[DotIndex(s) + 1..])
  {
    var p := DotIndex(s);
    if p == |s| then
      assert s[..p] == s;
      Dec(DigitsValue(s), 0)
    else
      DigitsValueAppend(s[..p], s[p + 1..]);
      Dec(DigitsValue(s[..p] + s[p + 1..]), |s| - p - 1)
  }

  /** Rounds n / d to the nearest whole number, ties to the even one. */
  function RoundHalfEven(n: nat, d: nat): (q: nat)
    requires d > 0
    ensures 2 * (n - q * d) <= d && 2 * (q * d - n) <= d
    ensures 2 * (n - q * d) == d || 2 * (q * d - n) == d ==> q % 2 == 0
  {
    var q, r := n / d, n % d;
    DivMod(n, d, q, r);
    if 2 * r < d then q
    else if 2 * r > d then q + 1
    else if q % 2 == 0 then q
    else q + 1
  }

  lemma {:induction false} DivMod(n: nat, d: nat, q: nat, r: nat)
    requires d > 0 && q == n / d && r == n % d
    ensures n - q * d == r && (q + 1) * d - n == d - r && 0 <= r < d
  {
  }

  /** `round(v * factor, 2)` as a whole number of hundredths: the nearest
      one to v * factor * 100, an exact tie going to the even one. */
  function ScaledCents(v: Dec, factor: nat): (c: nat)
    ensures 2 * (v.units * factor * 100 - c * Pow10(v.scale)) <= Pow10(v.scale)
    ensures 2 * (c * Pow10(v.scale) - v.units * factor * 100) <= Pow10(v.scale)
    ensures (|| 2 * (v.units * factor * 100 - c * Pow10(v.scale)) == Pow10(v.scale)
             || 2 * (c * Pow10(v.scale) - v.units * factor * 100) == Pow10(v.scale)) ==> c % 2 == 0
  {
    RoundHalfEven(v.units * factor * 100, Pow10(v.scale))
  }

  /** The least int Python cannot turn into a float: 2^1024 - 2^970, the
      first value that rounds (half to even, to 53 bits) up to 2^1024 and so
      past the largest double. `float / int` raises OverflowError for an
      int from here on. */
  const FloatIntLimit: nat := 0xFFFFFFFFFFFFFC00_0000000000000000_0000000000000000_0000000000000000_0000000000000000_0000000000000000_0000000000000000_0000000000000000_0000000000000000_0000000000000000_0000000000000000_0000000000000000_0000000000000000_0000000000000000_0000000000000000_0000000000000000

  /** `round(v / divisor, 2)` as a whole number of hundredths: the nearest
      one to v * 100 / divisor, an exact tie going to the even one. */
  function DividedCents(v: Dec, divisor: nat): (c: nat)
    requires divisor > 0
    ensures 2 * (v.units * 100 - c * (Pow10(v.scale) * divisor)) <= Pow10(v.scale) * divisor
    ensures 2 * (c * (Pow10(v.scale) * divisor) - v.units * 100) <= Pow10(v.scale) * divisor
    ensures (|| 2 * (v.units * 100 - c * (Pow10(v.scale) * divisor)) == Pow10(v.scale) * divisor
             || 2 * (c * (Pow10(v.scale) * divisor) - v.units * 100) == Pow10(v.scale) * divisor) ==> c % 2 == 0
  {
    RoundHalfEven(v.units * 100, Pow10(v.scale) * divisor)
  }

  /** Python's `str()` of a float holding `c` hundredths: the integer part,
      a '.', and one or two fraction digits with a trailing zero dropped
      ("6531.7", "6531.0", "0.05"). */
  function FormatCents(c: nat): (s: string)
    ensures IsNumeral(s)
    ensures NumeralValue(s).units * 100 == c * Pow10(NumeralValue(s).scale)
  {
    var w := NatToDigits(c / 100);
    var f := if c % 100 == 0 then "0"
             else if c % 10 == 0 then [DigitChar(c / 10 % 10)]
             else PadDigits(c % 100, 2);
    var s := w + "." + f;
    FormatCentsValue(c, w, f, s);
    s
  }

  lemma {:induction false} FormatCentsValue(c: nat, w: string, f: string, s: string)
    requires w == NatToDigits(c / 100)
    requires f == if c % 100 == 0 then "0"
                 else if c % 10 == 0 then [DigitChar(c / 10 % 10)]
                 else PadDigits(c % 100, 2)
    requires s == w + "." + f
    ensures IsNumeral(s)
    ensures NumeralValue(s).units * 100 == c * Pow10(NumeralValue(s).scale)
  {
    assert AllDigits(f) && |f| >= 1;
    NumeralOfParts(w, f);
    if c % 100 == 0 {
      assert DigitsValue(f) == 0;
      CentsOneDigit(c, 0);
    } else if c % 10 == 0 {
      assert DigitsValue(f) == c / 10 % 10 by {
        assert f[..0] == [];
      }
      CentsOneDigit(c, c / 10 % 10);
    } else {
      CentsTwoDigits(c);
    }
  }

  /** Digits, a '.', and digits: a numeral whose value has as many decimal
      places as there are fraction digits. */
  lemma {:induction false} NumeralOfParts(w: string, f: string)
    requires |w| >= 1 && AllDigits(w) && |f| >= 1 && AllDigits(f)
    ensures IsNumeral(w + "." + f)
    ensures NumeralValue(w + "." + f) == Dec(DigitsValue(w) * Pow10(|f|) + DigitsValue(f), |f|)
  {
    var s := w + "." + f;
    DotAfterDigits(w, f);
    assert s[..|w|] == w;
    assert s[|w| + 1..] == f;
  }

  lemma {:induction false} DotAfterDigits(w: string, f: string)
    requires AllDigits(w)
    ensures DotIndex(w + "." + f) == |w|
  {
    if w != [] {
      assert (w + "." + f)[1..] == w[1..] + "." + f;
      DotAfterDigits(w[1..], f);
    }
  }

  lemma {:induction false} CentsOneDigit(c: nat, d: nat)
    requires c % 10 == 0 && d == c / 10 % 10
    ensures (c / 100 * 10 + d) * 100 == c * 10
  {
  }

  lemma {:induction false} CentsTwoDigits(c: nat)
    ensures (c / 100 * 100 + c % 100) * 100 == c * 100
  {
  }
}
