/**
 * Decimal text of segment numbers: Python's `str(n)`, the zero padding of
 * `'{:0{}d}'.format(n, width)`, and the order in which Python's `sort()`
 * puts strings (code point by code point, a proper prefix first).
 */
module Numbering {

  function Pow10(e: nat): (r: nat)
    ensures r >= 1
  {
    if e == 0 then 1 else 10 * Pow10(e - 1)
  }

  /** The character of a decimal digit. */
  function DigitChar(d: nat): char
    requires d < 10
  {
    (48 + d) as char
  }

  /** `str(n)` for a non-negative integer. */
  function Str(n: nat): (r: string)
    ensures |r| >= 1
  {
    if n < 10 then [DigitChar(n)] else Str(n / 10) + [DigitChar(n % 10)]
  }

  function Zeros(z: nat): (r: string)
    ensures |r| == z
  {
    seq(z, _ => '0')
  }

  /** `'{:0{}d}'.format(n, width)`: left-padded with zeros, never truncated. */
  function Pad(n: nat, width: nat): string
  {
    var s := Str(n);
    (if |s| < width then Zeros(width - |s|) else "") + s
  }

  /** The last `width` decimal digits of `n`, most significant first. */
  function Fixed(n: nat, width: nat): (r: string)
    ensures |r| == width
  {
    if width == 0 then [] else Fixed(n / 10, width - 1) + [DigitChar(n % 10)]
  }

  /** Python's `a < b` on strings. */
  predicate LexLess(a: string, b: string)
    decreases |a|
  {
    |b| > 0 && (|a| == 0 || a[0] < b[0] || (a[0] == b[0] && LexLess(a[1..], b[1..])))
  }

  /** `str(n)` is exactly as long as it must be to hold `n`. */
  lemma {:induction false} StrIsFixed(n: nat)
    ensures n < Pow10(|Str(n)|)
    ensures Str(n) == Fixed(n, |Str(n)|)
    decreases n
  {
    if n >= 10 {
      StrIsFixed(n / 10);
    }
  }

  /** A number below 10^w takes at most w digits. */
  lemma {:induction false} StrFits(n: nat, w: nat)
    requires 1 <= w && n < Pow10(w)
    ensures |Str(n)| <= w
    decreases n
  {
    if n >= 10 {
      StrFits(n / 10, w - 1);
    }
  }

  /** More does not print shorter. */
  lemma {:induction false} StrMonotone(a: nat, b: nat)
    requires a <= b
    ensures |Str(a)| <= |Str(b)|
    decreases b
  {
    if a >= 10 {
      StrMonotone(a / 10, b / 10);
    }
  }

  /** Leading zeros in front of the digits of a small enough number. */
  lemma {:induction false} FixedWidens(n: nat, d: nat, z: nat)
    requires n < Pow10(d)
    ensures Fixed(n, d + z) == Zeros(z) + Fixed(n, d)
    decreases d + z
  {
    if d == 0 {
      if z > 0 {
        FixedWidens(0, 0, z - 1);
        assert Zeros(z) == Zeros(z - 1) + ['0'];
      }
    } else {
      FixedWidens(n / 10, d - 1, z);
    }
  }

  /** Zero padding to a wide enough width gives the fixed-width digits. */
  lemma PadIsFixed(n: nat, width: nat)
    requires 1 <= width && n < Pow10(width)
    ensures Pad(n, width) == Fixed(n, width)
  {
    StrFits(n, width);
    StrIsFixed(n);
    FixedWidens(n, |Str(n)|, width - |Str(n)|);
  }

  /** Appending keeps a strict difference found inside strings of one length. */
  lemma {:induction false} LexLessAppend(a: string, b: string, s: string, t: string)
    requires |a| == |b| && LexLess(a, b)
    ensures LexLess(a + s, b + t)
    decreases |a|
  {
    assert (a + s)[0] == a[0] && (b + t)[0] == b[0];
    if a[0] == b[0] && !(a[0] < b[0]) {
      assert (a + s)[1..] == a[1..] + s && (b + t)[1..] == b[1..] + t;
      LexLessAppend(a[1..], b[1..], s, t);
    }
  }

  /** A common prefix does not change the order. */
  lemma {:induction false} LexLessPrefix(p: string, a: string, b: string)
    requires LexLess(a, b)
    ensures LexLess(p + a, p + b)
    decreases |p|
  {
    if |p| > 0 {
      assert (p + a)[0] == p[0] == (p + b)[0];
      assert (p + a)[1..] == p[1..] + a && (p + b)[1..] == p[1..] + b;
      LexLessPrefix(p[1..], a, b);
    } else {
      assert p + a == a && p + b == b;
    }
  }

  /** Fixed-width digits sort as the numbers do. */
  lemma {:induction false} FixedOrdered(a: nat, b: nat, w: nat)
    requires a < b < Pow10(w)
    ensures LexLess(Fixed(a, w), Fixed(b, w))
    decreases w
  {
    var x, y := DigitChar(a % 10), DigitChar(b % 10);
    if a / 10 < b / 10 {
      FixedOrdered(a / 10, b / 10, w - 1);
      LexLessAppend(Fixed(a / 10, w - 1), Fixed(b / 10, w - 1), [x], [y]);
    } else {
      assert a % 10 < b % 10;
      assert LexLess([x], [y]);
      LexLessPrefix(Fixed(a / 10, w - 1), [x], [y]);
    }
  }

  /** Zero padding to a width that holds both numbers makes string order agree with number order. */
  lemma PadOrdered(a: nat, b: nat, width: nat)
    requires 1 <= width && a < b < Pow10(width)
    ensures |Pad(a, width)| == |Pad(b, width)| == width
    ensures LexLess(Pad(a, width), Pad(b, width))
  {
    PadIsFixed(a, width);
    PadIsFixed(b, width);
    FixedOrdered(a, b, width);
  }

  /** `len(str(n+1))` differs from `len(str(n))` only when n + 1 is a power of ten. */
  lemma WidthGrowsAtPowerOfTen(n: nat)
    ensures |Str(n + 1)| == |Str(n)| || n + 1 == Pow10(|Str(n)|)
  {
    var l := |Str(n)|;
    StrIsFixed(n);
    if n + 1 < Pow10(l) {
      StrFits(n + 1, l);
      StrMonotone(n, n + 1);
    }
  }

  /** `str(n)` is made of decimal digits only. */
  lemma {:induction false} StrIsDigits(n: nat)
    ensures forall i :: 0 <= i < |Str(n)| ==> '0' <= Str(n)[i] <= '9'
    decreases n
  {
    if n >= 10 {
      StrIsDigits(n / 10);
      var s := Str(n);
      forall i | 0 <= i < |s| ensures '0' <= s[i] <= '9' {
        if i < |s| - 1 { assert s[i] == Str(n / 10)[i]; }
      }
    }
  }

  /** A zero-padded number is made of decimal digits only. */
  lemma PadIsDigits(n: nat, width: nat)
    ensures forall i :: 0 <= i < |Pad(n, width)| ==> '0' <= Pad(n, width)[i] <= '9'
  {
    StrIsDigits(n);
    var z := if |Str(n)| < width then Zeros(width - |Str(n)|) else "";
    assert Pad(n, width) == z + Str(n);
    forall i | 0 <= i < |Pad(n, width)| ensures '0' <= Pad(n, width)[i] <= '9' {
      if i >= |z| { assert Pad(n, width)[i] == Str(n)[i - |z|]; }
    }
  }

  /** A power of ten prints as a one followed by zeros: one digit more than its exponent, led by '1'. */
  lemma {:induction false} PowerOfTenText(d: nat)
    ensures |Str(Pow10(d))| == d + 1 && Str(Pow10(d))[0] == '1'
  {
    if d > 0 {
      PowerOfTenText(d - 1);
      var p := Pow10(d - 1);
      assert Pow10(d) == 10 * p && Pow10(d) / 10 == p && Pow10(d) % 10 == 0;
      assert Str(Pow10(d)) == Str(p) + [DigitChar(0)];
    }
  }

  /** One less than a power of ten (at least 10) prints as nines: led by '9'. */
  lemma {:induction false} NinesText(d: nat)
    requires d >= 1
    ensures Str(Pow10(d) - 1)[0] == '9'
  {
    if d > 1 {
      NinesText(d - 1);
      var p := Pow10(d - 1);
      assert p >= 10 by { assert Pow10(d - 1) == 10 * Pow10(d - 2); }
      var x := Pow10(d) - 1;
      assert x == 10 * (p - 1) + 9;
      assert x / 10 == p - 1 && x % 10 == 9;
      assert Str(x) == Str(p - 1) + [DigitChar(9)];
    }
  }
}
