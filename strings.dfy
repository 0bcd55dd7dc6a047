/**
  Text helpers shared by the model: Python's notion of whitespace (what
  `str.strip()` removes), ASCII decimal digits, and the decimal renderings
  `str(n)` and `f"{n:0Wd}"` together with their reading back.
 */
module Strings {

  /** `c.isspace()` in Python: the characters `str.strip()` removes. */
  predicate IsSpace(c: char) {
    || c == ' '
    || '\t' <= c <= '\r'
    || '\U{1C}' <= c <= '\U{1F}'
    || c == '\U{85}' || c == '\U{A0}' || c == '\U{1680}'
    || '\U{2000}' <= c <= '\U{200A}'
    || c == '\U{2028}' || c == '\U{2029}' || c == '\U{202F}' || c == '\U{205F}' || c == '\U{3000}'
  }

  /** `not s.strip()`: the text is empty once surrounding whitespace is removed. */
  predicate IsBlank(s: string) {
    forall i | 0 <= i < |s| :: IsSpace(s[i])
  }

  predicate IsDigit(c: char) {
    '0' <= c <= '9'
  }

  predicate AllDigits(s: string) {
    forall i | 0 <= i < |s| :: IsDigit(s[i])
  }

  function DigitChar(d: nat): (c: char)
    requires d < 10
    ensures IsDigit(c)
  {
    ('0' as int + d) as char
  }

  function DigitValue(c: char): (d: nat)
    requires IsDigit(c)
    ensures d < 10
  {
    c as int - '0' as int
  }

  function Pow10(k: nat): (p: nat)
    ensures p >= 1
  {
    if k == 0 then 1 else 10 * Pow10(k - 1)
  }

  /** The number a string of decimal digits denotes (leading zeros allowed). */
  function DecimalValue(s: string): (v: nat)
    requires AllDigits(s)
  {
    if s == [] then 0 else DecimalValue(s[..|s| - 1]) * 10 + DigitValue(s[|s| - 1])
  }

  /** `str(n)` for a non-negative integer: its shortest decimal rendering. */
  function Decimal(n: nat): (s: string)
    ensures 1 <= |s| && AllDigits(s)
  {
    if n < 10 then [DigitChar(n)] else Decimal(n / 10) + [DigitChar(n % 10)]
  }

  /** Reading `str(n)` back as a number gives n. */
  lemma {:induction false} DecimalRoundTrip(n: nat)
    ensures DecimalValue(Decimal(n)) == n
  {
    if n >= 10 {
      DecimalRoundTrip(n / 10);
      var s := Decimal(n);
      assert s[..|s| - 1] == Decimal(n / 10);
    }
  }

  function Zeros(k: nat): (z: string)
    ensures |z| == k && AllDigits(z) && DecimalValue(z) == 0
  {
    if k == 0 then []
    else
      var z := Zeros(k - 1) + ['0'];
      assert z[..k - 1] == Zeros(k - 1);
      z
  }

  /** `f"{n:0{width}d}"`: n in decimal, left-padded with just enough zeros to reach `width` characters. */
  function Padded(n: nat, width: nat): (s: string)
    ensures AllDigits(s) && 1 <= |s|
    ensures |s| == if |Decimal(n)| < width then width else |Decimal(n)|
    ensures |Decimal(n)| >= width ==> s == Decimal(n)
  {
    var d := Decimal(n);
    var z := Zeros(if |d| < width then width - |d| else 0);
    assert |d| >= width ==> z + d == d;
    z + d
  }

  /** Reading a padded rendering back as a number gives n. */
  lemma PaddedValue(n: nat, width: nat)
    ensures DecimalValue(Padded(n, width)) == n
  {
    var d := Decimal(n);
    DecimalRoundTrip(n);
    LeadingZeros(if |d| < width then width - |d| else 0, d);
  }

  /** Leading zeros do not change the value a digit string denotes. */
  lemma {:induction false} LeadingZeros(k: nat, d: string)
    requires AllDigits(d)
    ensures AllDigits(Zeros(k) + d)
    ensures DecimalValue(Zeros(k) + d) == DecimalValue(d)
  {
    if d == [] {
      assert Zeros(k) + d == Zeros(k);
    } else {
      var d' := d[..|d| - 1];
      LeadingZeros(k, d');
      assert (Zeros(k) + d)[..|Zeros(k) + d| - 1] == Zeros(k) + d';
    }
  }

  /** A number below 10^k needs at most k digits. */
  lemma {:induction false} DecimalLength(n: nat, k: nat)
    requires 1 <= k && n < Pow10(k)
    ensures |Decimal(n)| <= k
  {
    if n >= 10 {
      assert Pow10(1) == 10;
      assert k >= 2;
      assert n / 10 < Pow10(k - 1);
      DecimalLength(n / 10, k - 1);
    }
  }

  /** A number below 10^width renders in exactly `width` characters once padded. */
  lemma PaddedWidth(n: nat, width: nat)
    requires 1 <= width && n < Pow10(width)
    ensures |Padded(n, width)| == width
  {
    DecimalLength(n, width);
  }

  /** Two-digit fields (months, days, hours) render as exactly two characters. */
  lemma TwoDigitField(n: nat)
    requires n < 100
    ensures |Padded(n, 2)| == 2
  {
    assert Pow10(2) == 100;
    PaddedWidth(n, 2);
  }

  /** A sequence number below 1000 renders as exactly three characters. */
  lemma ThreeDigitField(n: nat)
    requires n < 1000
    ensures |Padded(n, 3)| == 3
  {
    assert Pow10(3) == 1000 by { assert Pow10(2) == 100; }
    PaddedWidth(n, 3);
  }
}
