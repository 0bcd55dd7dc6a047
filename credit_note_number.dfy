/**
  The document-number generator `generate_credit_note_no`:
  `CNT{year+543}{MM}-{seq:03d}` with `seq` one more than the number of
  records already logged under today's date key.  A reading-back function
  shows that the three fields can be recovered from the text.
 */
module CreditNoteNumber {
  import opened Wrappers
  import opened Strings
  import opened Clock
  import opened CreditNoteLog

  /** The fields a document number is made of. */
  datatype NumberParts = NumberParts(buddhistYear: nat, month: nat, sequence: nat)

  /** The text of a document number: `CNT{year}{month:02d}-{sequence:03d}`. */
  function FormatNumber(parts: NumberParts): (no: string)
    ensures |no| >= 10 && no[..3] == "CNT"
  {
    "CNT" + (Decimal(parts.buddhistYear) + Padded(parts.month, 2) + "-" + Padded(parts.sequence, 3))
  }

  /** `generate_credit_note_no()` at clock reading `now` against the in-memory log. */
  function GenerateCreditNoteNo(now: Clock, log: LogMap): (no: string)
  {
    FormatNumber(NumberParts(now.year + 543, now.month, |Bucket(log, DateKey(now))| + 1))
  }

  /** Position of the first '-' in s, or |s| when there is none. */
  function FirstDash(s: string): (i: nat)
    ensures i <= |s|
    ensures i < |s| ==> s[i] == '-'
    ensures forall j | 0 <= j < i :: s[j] != '-'
  {
    if s == [] || s[0] == '-' then 0 else 1 + FirstDash(s[1..])
  }

  /** Reads a document number back into its fields: `CNT`, then the fields `DecodeFields` reads. */
  function DecodeCreditNoteNo(no: string): (r: Option<NumberParts>)
    ensures r.Some? ==> |no| > 3 && no[..3] == "CNT"
  {
    if |no| < 3 || no[..3] != "CNT" then None else DecodeFields(no[3..])
  }

  /** The year digits and two month digits, a '-', then the sequence digits. */
  function DecodeFields(rest: string): (r: Option<NumberParts>)
    ensures r.Some? ==> rest != []
  {
    var i := FirstDash(rest);
    if i == |rest| then None
    else
      var head, tail := rest[..i], rest[i + 1..];
      if |head| < 3 || !AllDigits(head) || tail == [] || !AllDigits(tail) then None
      else
        assert AllDigits(head[..|head| - 2]) && AllDigits(head[|head| - 2..]);
        Some(NumberParts(DecimalValue(head[..|head| - 2]), DecimalValue(head[|head| - 2..]), DecimalValue(tail)))
  }

  lemma DecodeFieldsShape(y: string, m: string, q: string)
    requires 1 <= |y| && AllDigits(y) && |m| == 2 && AllDigits(m) && 1 <= |q| && AllDigits(q)
    ensures DecodeFields(y + m + "-" + q) == Some(NumberParts(DecimalValue(y), DecimalValue(m), DecimalValue(q)))
  {
    var ym := y + m;
    var rest := ym + "-" + q;
    DashAfterDigits(ym, q);
    assert rest[..|ym|] == ym;
    assert rest[|ym| + 1..] == q;
    assert ym[..|ym| - 2] == y;
    assert ym[|ym| - 2..] == m;
  }

  /** The first '-' after a run of digits is the one that ends the run. */
  lemma DashAfterDigits(ds: string, q: string)
    requires AllDigits(ds)
    ensures FirstDash(ds + "-" + q) == |ds|
  {
    var s := ds + "-" + q;
    assert s[|ds|] == '-';
    assert forall j | 0 <= j < |ds| :: s[j] == ds[j] && IsDigit(s[j]);
  }

  /** Reading back any text of the generated shape recovers its three digit fields. */
  lemma DecodeShape(y: string, m: string, q: string)
    requires 1 <= |y| && AllDigits(y) && |m| == 2 && AllDigits(m) && 1 <= |q| && AllDigits(q)
    ensures DecodeCreditNoteNo("CNT" + (y + m + "-" + q))
         == Some(NumberParts(DecimalValue(y), DecimalValue(m), DecimalValue(q)))
  {
    var no := "CNT" + (y + m + "-" + q);
    assert no[..3] == "CNT";
    assert no[3..] == y + m + "-" + q;
    DecodeFieldsShape(y, m, q);
  }

  /** Round trip: reading a formatted number back gives its fields (months have two digits). */
  lemma DecodeFormatted(parts: NumberParts)
    requires parts.month < 100
    ensures DecodeCreditNoteNo(FormatNumber(parts)) == Some(parts)
  {
    TwoDigitField(parts.month);
    DecimalRoundTrip(parts.buddhistYear);
    PaddedValue(parts.month, 2);
    PaddedValue(parts.sequence, 3);
    DecodeShape(Decimal(parts.buddhistYear), Padded(parts.month, 2), Padded(parts.sequence, 3));
  }

  /**
    Up to sequence 999 the number is exactly `CNT`, the year's digits, two
    month digits, '-' and three sequence digits.
   */
  lemma FormattedLayout(parts: NumberParts)
    requires parts.month < 100 && parts.sequence < 1000
    ensures var y, no := Decimal(parts.buddhistYear), FormatNumber(parts);
      && |no| == |y| + 9
      && no[..3] == "CNT"
      && no[3..3 + |y|] == y
      && no[3 + |y|..5 + |y|] == Padded(parts.month, 2)
      && no[5 + |y|] == '-'
      && no[6 + |y|..] == Padded(parts.sequence, 3)
  {
    TwoDigitField(parts.month);
    ThreeDigitField(parts.sequence);
    var y, m, q := Decimal(parts.buddhistYear), Padded(parts.month, 2), Padded(parts.sequence, 3);
    FieldSlices(y, m, q);
  }

  lemma FieldSlices(y: string, m: string, q: string)
    requires |m| == 2 && |q| == 3
    ensures var no := "CNT" + (y + m + "-" + q);
      && |no| == |y| + 9
      && no[..3] == "CNT"
      && no[3..3 + |y|] == y
      && no[3 + |y|..5 + |y|] == m
      && no[5 + |y|] == '-'
      && no[6 + |y|..] == q
      && no[5 + |y|..] == "-" + q
  {
  }

  /** A sequence below 1000 is written as exactly three digits after the '-', and they read back as the sequence. */
  lemma SequenceDigits(parts: NumberParts)
    requires parts.month < 100 && parts.sequence < 1000
    ensures var no := FormatNumber(parts);
      && |no| == |Decimal(parts.buddhistYear)| + 9
      && no[|Decimal(parts.buddhistYear)| + 5..] == "-" + Padded(parts.sequence, 3)
  {
    TwoDigitField(parts.month);
    ThreeDigitField(parts.sequence);
    FieldSlices(Decimal(parts.buddhistYear), Padded(parts.month, 2), Padded(parts.sequence, 3));
  }

  /** Until a day has 999 records, its next number has exactly three sequence digits, which read back as the day's count plus one. */
  lemma GeneratedWidth(now: Clock, log: LogMap)
    requires ValidClock(now) && |Bucket(log, DateKey(now))| < 999
    ensures |GenerateCreditNoteNo(now, log)| == |Decimal(now.year + 543)| + 9
    ensures GenerateCreditNoteNo(now, log)[|Decimal(now.year + 543)| + 5..]
         == "-" + Padded(|Bucket(log, DateKey(now))| + 1, 3)
  {
    GeneratedLayout(now, log);
    SequenceDigits(NumberParts(now.year + 543, now.month, |Bucket(log, DateKey(now))| + 1));
  }

  /** The generated number is the year, month and sequence fields laid out by `FormatNumber`. */
  lemma GeneratedLayout(now: Clock, log: LogMap)
    ensures GenerateCreditNoteNo(now, log)
         == FormatNumber(NumberParts(now.year + 543, now.month, |Bucket(log, DateKey(now))| + 1))
  {
  }

  /** The generated number carries the Buddhist year, the month and the day's count plus one. */
  lemma DecodeGenerated(now: Clock, log: LogMap)
    requires ValidClock(now)
    ensures DecodeCreditNoteNo(GenerateCreditNoteNo(now, log))
         == Some(NumberParts(now.year + 543, now.month, |Bucket(log, DateKey(now))| + 1))
  {
    GeneratedLayout(now, log);
    DecodeFormatted(NumberParts(now.year + 543, now.month, |Bucket(log, DateKey(now))| + 1));
  }

  /** A day with no records yet gets sequence 1. */
  lemma FirstOfTheDay(now: Clock, log: LogMap)
    requires ValidClock(now) && DateKey(now) !in log
    ensures DecodeCreditNoteNo(GenerateCreditNoteNo(now, log)) == Some(NumberParts(now.year + 543, now.month, 1))
  {
    DecodeGenerated(now, log);
  }

  /** Sequence 1 is written as the three digits `001`, so such a number ends in `-001`. */
  lemma FirstNumberEnding(year: nat, month: nat)
    ensures var no := FormatNumber(NumberParts(year, month, 1));
      no[|no| - 4..] == "-001"
  {
    SequenceOnePadded();
    EndsWithSequence(Decimal(year) + Padded(month, 2), "001");
  }

  lemma SequenceOnePadded()
    ensures Padded(1, 3) == "001"
  {
    OneDigit();
    TwoZeros();
    assert Padded(1, 3) == Zeros(2) + Decimal(1);
  }

  lemma OneDigit()
    ensures Decimal(1) == "1"
  {
  }

  lemma TwoZeros()
    ensures Zeros(2) == "00"
  {
    assert Zeros(1) == "0";
  }

  lemma EndsWithSequence(t: string, q: string)
    ensures ("CNT" + (t + "-" + q))[|"CNT" + (t + "-" + q)| - |q| - 1..] == "-" + q
  {
    var no := "CNT" + (t + "-" + q);
    forall j | 0 <= j < |q| + 1 ensures no[|no| - |q| - 1 + j] == ("-" + q)[j] {
      assert no[|no| - |q| - 1 + j] == (t + "-" + q)[|t| + j];
    }
  }

  /** Appending a record dated today makes the next sequence exactly one larger, so the next number differs. */
  lemma NextAfterAppendToday(now: Clock, log: LogMap, entry: LogEntry)
    requires ValidClock(now) && entry.date == DateKey(now)
    ensures DecodeCreditNoteNo(GenerateCreditNoteNo(now, log)).Some?
    ensures DecodeCreditNoteNo(GenerateCreditNoteNo(now, Appended(log, entry))).Some?
    ensures DecodeCreditNoteNo(GenerateCreditNoteNo(now, Appended(log, entry))).value.sequence
         == DecodeCreditNoteNo(GenerateCreditNoteNo(now, log)).value.sequence + 1
    ensures GenerateCreditNoteNo(now, Appended(log, entry)) != GenerateCreditNoteNo(now, log)
  {
    var n := |Bucket(log, DateKey(now))|;
    assert |Bucket(Appended(log, entry), DateKey(now))| == n + 1;
    DecodeGenerated(now, log);
    DecodeGenerated(now, Appended(log, entry));
    var before := NumberParts(now.year + 543, now.month, n + 1);
    assert DecodeCreditNoteNo(GenerateCreditNoteNo(now, log)) == Some(before);
    assert DecodeCreditNoteNo(GenerateCreditNoteNo(now, Appended(log, entry)))
        == Some(NumberParts(now.year + 543, now.month, n + 2));
  }

  /** The number depends on the clock only through its calendar day. */
  lemma SameDaySameNumber(c: Clock, d: Clock, log: LogMap)
    requires ValidClock(c) && ValidClock(d)
    requires (c.year, c.month, c.day) == (d.year, d.month, d.day)
    ensures GenerateCreditNoteNo(c, log) == GenerateCreditNoteNo(d, log)
  {
    DateKeyIdentifiesDay(c, d);
    SameFieldsSameNumber(c, log, d, log);
  }

  /** Loading a saved log back and generating from it gives the number the saved map gives. */
  lemma ReloadKeepsNextNumber(now: Clock, log: LogMap)
    ensures LoadCreditNoteLog(Stored(log)).Success?
    ensures GenerateCreditNoteNo(now, LoadCreditNoteLog(Stored(log)).value) == GenerateCreditNoteNo(now, log)
  {
    ReloadAfterSave(log);
  }

  /** A record dated on another day leaves today's number as it was. */
  lemma OtherDayLeavesNumber(now: Clock, log: LogMap, entry: LogEntry)
    requires entry.date != DateKey(now)
    ensures GenerateCreditNoteNo(now, Appended(log, entry)) == GenerateCreditNoteNo(now, log)
  {
  }

  /**
    The sequence is counted per day but the number holds only the year and
    month: once the first note of one day is logged, the first note of
    another day in the same month gets the very same number.
   */
  lemma NumberRepeatsOnAnotherDay(c: Clock, d: Clock, log: LogMap, first: LogEntry)
    requires ValidClock(c) && ValidClock(d)
    requires c.year == d.year && c.month == d.month && c.day != d.day
    requires DateKey(c) !in log && DateKey(d) !in log
    requires first.date == DateKey(c) && first.creditNoteNo == GenerateCreditNoteNo(c, log)
    ensures GenerateCreditNoteNo(d, Appended(log, first)) == first.creditNoteNo
  {
    DateKeyIdentifiesDay(c, d);
    var later := Appended(log, first);
    KeyStaysAbsent(log, first, DateKey(d));
    SameFieldsSameNumber(c, log, d, later);
  }

  /** Equal year, month and day count give equal numbers. */
  lemma SameFieldsSameNumber(c: Clock, a: LogMap, d: Clock, b: LogMap)
    requires c.year == d.year && c.month == d.month
    requires |Bucket(a, DateKey(c))| == |Bucket(b, DateKey(d))|
    ensures GenerateCreditNoteNo(c, a) == GenerateCreditNoteNo(d, b)
  {
    GeneratedLayout(c, a);
    GeneratedLayout(d, b);
  }
}
