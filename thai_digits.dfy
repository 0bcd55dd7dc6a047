/**
  The digit normaliser `to_arabic_digits`: every Thai digit glyph
  (U+0E50 THAI DIGIT ZERO … U+0E59 THAI DIGIT NINE) becomes the ASCII digit
  of the same value; every other character is left as it is.
 */
module ThaiDigits {
  import opened Strings

  /** The two translation tables the source builds its `str.maketrans` from. */
  const ThaiDigitChars: string := "๐๑๒๓๔๕๖๗๘๙"
  const ArabicDigitChars: string := "0123456789"

  predicate IsThaiDigit(c: char) {
    '\U{0E50}' <= c <= '\U{0E59}'
  }

  /** The per-character translation: a Thai digit goes to its ASCII digit, anything else stays. */
  function TranslateChar(c: char): (t: char)
    ensures IsThaiDigit(c) ==> IsDigit(t) && DigitValue(t) == c as int - 0x0E50
    ensures !IsThaiDigit(c) ==> t == c
  {
    if IsThaiDigit(c) then DigitChar(c as int - 0x0E50) else c
  }

  /** `to_arabic_digits(text)`, which is `text.translate(trans_table)`. */
  function ToArabicDigits(text: string): (r: string)
    ensures |r| == |text|
    ensures forall i | 0 <= i < |text| :: r[i] == TranslateChar(text[i])
  {
    if text == [] then [] else [TranslateChar(text[0])] + ToArabicDigits(text[1..])
  }

  /** The arithmetic translation agrees with the two tables, position by position. */
  lemma TranslationTable()
    ensures |ThaiDigitChars| == |ArabicDigitChars| == 10
    ensures forall k | 0 <= k < 10 :: TranslateChar(ThaiDigitChars[k]) == ArabicDigitChars[k]
    ensures forall c :: IsThaiDigit(c) <==> c in ThaiDigitChars
  {
    forall c | IsThaiDigit(c) ensures c in ThaiDigitChars {
      var k := c as int - 0x0E50;
      assert ThaiDigitChars[k] == c;
    }
  }

  /** After normalisation no Thai digit is left. */
  lemma NoThaiDigitRemains(text: string)
    ensures forall i | 0 <= i < |text| :: !IsThaiDigit(ToArabicDigits(text)[i])
  {
  }

  /** The transform is idempotent. */
  lemma {:induction false} Idempotent(text: string)
    ensures ToArabicDigits(ToArabicDigits(text)) == ToArabicDigits(text)
  {
    var r := ToArabicDigits(text);
    var rr := ToArabicDigits(r);
    forall i | 0 <= i < |r| ensures rr[i] == r[i] {
      assert !IsThaiDigit(r[i]);
    }
  }

  /** Text is left unchanged exactly when it holds no Thai digit. */
  lemma {:induction false} FixedPoint(text: string)
    ensures ToArabicDigits(text) == text <==> forall i | 0 <= i < |text| :: !IsThaiDigit(text[i])
  {
    var r := ToArabicDigits(text);
    if forall i | 0 <= i < |text| :: !IsThaiDigit(text[i]) {
      assert forall i | 0 <= i < |text| :: r[i] == text[i];
    } else {
      var i :| 0 <= i < |text| && IsThaiDigit(text[i]);
      assert r[i] != text[i];
    }
  }

  /** The transform works character by character, so it distributes over concatenation. */
  lemma {:induction false} OverConcat(a: string, b: string)
    ensures ToArabicDigits(a + b) == ToArabicDigits(a) + ToArabicDigits(b)
  {
    var l := ToArabicDigits(a + b);
    var r := ToArabicDigits(a) + ToArabicDigits(b);
    forall i | 0 <= i < |a + b| ensures l[i] == r[i] {
      if i < |a| { assert (a + b)[i] == a[i]; } else { assert (a + b)[i] == b[i - |a|]; }
    }
  }
}
