/**
  The wall-clock reading `datetime.now()` as a value passed in, and the two
  renderings the source takes of it for the log: `%Y-%m-%d` and `%H:%M:%S`.
 */
module Clock {
  import opened Strings

  datatype Clock = Clock(year: nat, month: nat, day: nat, hour: nat, minute: nat, second: nat)

  /** What a Python `datetime` guarantees of its fields. */
  predicate ValidClock(c: Clock) {
    1 <= c.month <= 12 && 1 <= c.day <= 31
    && c.hour < 24 && c.minute < 60 && c.second < 60
  }

  /** `now.strftime("%Y-%m-%d")`; `%Y` is the year's plain decimal rendering. */
  function DateKey(c: Clock): (key: string)
  {
    Decimal(c.year) + "-" + Padded(c.month, 2) + "-" + Padded(c.day, 2)
  }

  /** `now.strftime("%H:%M:%S")`. */
  function TimeText(c: Clock): (t: string)
  {
    Padded(c.hour, 2) + ":" + Padded(c.minute, 2) + ":" + Padded(c.second, 2)
  }

  /** Two readings on the same calendar day give the same key, and different days give different keys. */
  lemma DateKeyIdentifiesDay(c: Clock, d: Clock)
    requires ValidClock(c) && ValidClock(d)
    ensures DateKey(c) == DateKey(d) <==> (c.year, c.month, c.day) == (d.year, d.month, d.day)
  {
    TwoDigitField(c.month); TwoDigitField(c.day);
    TwoDigitField(d.month); TwoDigitField(d.day);
    var yc, mc, dc := Decimal(c.year), Padded(c.month, 2), Padded(c.day, 2);
    var yd, md, dd := Decimal(d.year), Padded(d.month, 2), Padded(d.day, 2);
    KeyFields(yc, mc, dc);
    KeyFields(yd, md, dd);
    DecimalRoundTrip(c.year); DecimalRoundTrip(d.year);
    PaddedValue(c.month, 2); PaddedValue(c.day, 2);
    PaddedValue(d.month, 2); PaddedValue(d.day, 2);
    if DateKey(c) == DateKey(d) {
      assert |yc| == |yd|;
      assert yc == yd && mc == md && dc == dd;
    }
  }

  /** `%H:%M:%S` is eight characters whose three two-digit fields read back as the hour, minute and second. */
  lemma TimeFields(c: Clock)
    requires ValidClock(c)
    ensures var t := TimeText(c);
      && |t| == 8 && t[2] == ':' && t[5] == ':'
      && AllDigits(t[..2]) && AllDigits(t[3..5]) && AllDigits(t[6..])
      && DecimalValue(t[..2]) == c.hour && DecimalValue(t[3..5]) == c.minute && DecimalValue(t[6..]) == c.second
  {
    var h, m, s := Padded(c.hour, 2), Padded(c.minute, 2), Padded(c.second, 2);
    TwoDigitField(c.hour); TwoDigitField(c.minute); TwoDigitField(c.second);
    PaddedValue(c.hour, 2); PaddedValue(c.minute, 2); PaddedValue(c.second, 2);
    TimeSlices(h, m, s);
  }

  lemma TimeSlices(h: string, m: string, s: string)
    requires |h| == 2 && |m| == 2 && |s| == 2
    ensures var t := h + ":" + m + ":" + s;
      |t| == 8 && t[2] == ':' && t[5] == ':' && t[..2] == h && t[3..5] == m && t[6..] == s
  {
  }

  /** The three fields of a key can be cut back out of it. */
  lemma KeyFields(y: string, m: string, d: string)
    requires |m| == 2 && |d| == 2
    ensures var k := y + "-" + m + "-" + d;
      |k| == |y| + 6 && k[..|y|] == y && k[|y| + 1..|y| + 3] == m && k[|y| + 4..] == d
  {
  }
}
