# credit_note in Dafny

A model of the core of the credit-note desktop application
(`credit_note/credit_note.py`). The model covers these parts:

- **ThaiDigits**: the digit normaliser `to_arabic_digits`.
- **CreditNoteLog**: the sequence log. It maps a `YYYY-MM-DD` date key to
  the records issued that day, in issue order. It covers loading the log
  and the in-memory effect of saving a record.
- **CreditNoteNumber**: the number generator `generate_credit_note_no`.
  It produces `CNT{year+543}{MM}-{seq:03d}`, where `seq` is one more than
  the number of records already logged under today's key. A reading-back
  function serves as the generator's inverse.
- **Amounts**: the line-item calculator `update_amounts`. Its row loop is a
  method proved against the function `Recompute`, and the calculator's
  rules are proved as lemmas about that function.
- **ExportRows**: the item-table loop of `export_to_excel`. It skips
  all-blank rows and writes the other rows contiguously from sheet row 16,
  converting each number cell with `float(text or 0.0)`.
- **Window**: the window class `CreditNoteWindow`, which holds the
  in-memory log, the log file and the number on display. It covers start-up,
  `save_credit_note_log` and `export_to_excel`.
- **Clock**: the clock reading and its two `strftime` renderings.
- **Strings**: Python whitespace, decimal digits, `str(n)` and `{n:0Wd}`.

These are passed in as parameters:
- Python's `float()` on a text is a function `Parser` that returns `None`
  where float() raises ValueError.
- `bahttext` is a function `BahtText` that returns `None` where it raises.
- Each `datetime.now()` reading is a `Clock` value.
- The template file, the workbook library and the JSON write are
  represented by their outcomes: whether the template exists, whether it
  loads, which sheets it has, whether the save succeeds and whether the log
  write succeeds.

Three consequences of the code as written are proved:

- Numbers repeat across days of one month
  (`CreditNoteNumber.NumberRepeatsOnAnotherDay`). The number holds only the
  year and month, but the sequence counts one day's records. So the first
  note of the 2nd of a month gets the same number as the first note of the
  1st. Its output file `output/<number>.xlsx` then has the same path too.
- A failed log write leaves the record in memory only. The in-memory log
  is appended before the JSON write. When that write raises, the handler of
  `export_to_excel` reports the failure and does not regenerate the number,
  but the record stays in memory. The log on disk and the log in memory
  then differ. `Window.CreditNoteWindow.Synced` says the file holds exactly
  the in-memory log. The constructor establishes it. If it held before an
  export, it holds afterwards exactly when the outcome is not
  `LogWriteFailed` (`Window.CreditNoteWindow.ExportToExcel`).
- The calculator and the export read number cells differently. The
  calculator treats whitespace-only text as 0 (`text.strip()` is tested
  before `float()`). The export runs `float(text or 0.0)`, so only the empty
  text reads as 0. Python's float() raises on whitespace-only text. Given
  that, a described row whose quantity cell holds only spaces counts as 0
  in the totals but makes the export fail (`ExportRows.SpaceOnlyQuantity`).

Other behaviours of the code that the model keeps:

- The month in a number always has two digits (`%m`).
- When quantity or price fails to parse, both fall back to 0. It is not
  only the failing field that becomes 0 (lines 165-170).
- A row's amount is the exact product of quantity and price. The amount is
  not rounded before summing.
- Saving the log is not atomic. The in-memory append happens first and the
  file is rewritten after it.
- A log file that does not parse makes start-up raise. No window is built
  (`Window.OpenWindow`).

## Model

| member | source | states |
|---|---|---|
| ThaiDigits.TranslateChar | credit_note/credit_note.py:17-19 | a Thai digit U+0E50+k becomes an ASCII digit of value k; every other character is unchanged |
| ThaiDigits.ToArabicDigits | credit_note/credit_note.py:21-22 | the result has the input's length, and each position is the translation of the input character there |
| ThaiDigits.TranslationTable | credit_note/credit_note.py:17-19 | the two ten-character tables line up: the k-th Thai digit translates to the k-th ASCII digit, and the Thai digits are exactly the characters in the first table |
| ThaiDigits.NoThaiDigitRemains | credit_note/credit_note.py:21-22 | no Thai digit is left after normalisation |
| ThaiDigits.Idempotent | credit_note/credit_note.py:21-22 | normalising twice gives the same text as normalising once |
| ThaiDigits.FixedPoint | credit_note/credit_note.py:21-22 | a text is unchanged by normalisation if and only if it holds no Thai digit |
| ThaiDigits.OverConcat | credit_note/credit_note.py:21-22 | normalising a concatenation gives the concatenation of the normalised parts |
| Strings.Decimal | credit_note/credit_note.py:61-62 | `str(n)` is a non-empty string of decimal digits |
| Strings.DecimalRoundTrip | credit_note/credit_note.py:61-62 | reading `str(n)` back as a decimal number gives n |
| Strings.Padded | credit_note/credit_note.py:67 | `{n:03d}` is a digit string whose length is the width when `str(n)` is shorter, and otherwise is `str(n)` itself, so only the zeros needed are added |
| Strings.PaddedValue | credit_note/credit_note.py:67 | reading a zero-padded rendering back as a decimal number gives n |
| Strings.PaddedWidth | credit_note/credit_note.py:67 | a number below 10 to the width renders in exactly the width's number of characters |
| Strings.ThreeDigitField | credit_note/credit_note.py:66-67 | a sequence below 1000 renders as exactly three characters |
| Strings.TwoDigitField | credit_note/credit_note.py:62-63 | a field below 100 padded to width 2, like `%m` and `%d`, is exactly two characters |
| Clock.DateKey | credit_note/credit_note.py:63 | `%Y-%m-%d` of a clock reading; characterised by Clock.DateKeyIdentifiesDay |
| Clock.TimeText | credit_note/credit_note.py:292 | `%H:%M:%S` of a clock reading; characterised by Clock.TimeFields |
| Clock.TimeFields | credit_note/credit_note.py:292 | for a valid reading the time text has eight characters, with `:` at positions 2 and 5, and its three two-digit fields read back as the hour, minute and second |
| Clock.DateKeyIdentifiesDay | credit_note/credit_note.py:63 | two clock readings give the same `%Y-%m-%d` key if and only if they fall on the same year, month and day |
| CreditNoteLog.Bucket | credit_note/credit_note.py:65 | `log.get(key, [])` is the key's list when the key is present, and empty otherwise |
| CreditNoteLog.LoadCreditNoteLog | credit_note/credit_note.py:43-48 | a missing file gives the empty map, a stored map is returned as it is, and a file that does not parse is the only failure |
| CreditNoteLog.Appended | credit_note/credit_note.py:50-54 | the record's date key is present and its list is the old list (empty if the key was absent) plus the record; the key set grows by that key only; every other key keeps its list; the new log always differs from the old |
| CreditNoteLog.AppendKeepsDatesConsistent | credit_note/credit_note.py:50-54 | if every record is filed under its own date before the append, that still holds after it |
| CreditNoteLog.AppendOnly | credit_note/credit_note.py:50-54 | every earlier list is a prefix of its new list, and the record's day grows by exactly one |
| CreditNoteLog.KeyStaysAbsent | credit_note/credit_note.py:50-54 | appending a record dated on another day does not create an absent key |
| CreditNoteLog.ReloadAfterSave | credit_note/credit_note.py:43-57 | loading a saved map back gives that map; this follows from representing the file by the map it holds, not from anything proved about JSON |
| CreditNoteNumber.GenerateCreditNoteNo | credit_note/credit_note.py:59-68 | `generate_credit_note_no`; characterised by DecodeGenerated, GeneratedWidth, SameDaySameNumber, NextAfterAppendToday and OtherDayLeavesNumber |
| CreditNoteNumber.FormatNumber | credit_note/credit_note.py:68 | a formatted number starts with `CNT` and has at least ten characters |
| CreditNoteNumber.FormattedLayout | credit_note/credit_note.py:61-68 | for a month below 100 and a sequence below 1000, the number is exactly `CNT`, the year's digits, two month digits, `-` and three sequence digits, nine characters more than the year |
| CreditNoteNumber.SequenceDigits | credit_note/credit_note.py:66-68 | for a sequence below 1000, the number ends in `-` and the three-digit padded sequence, right after the year and month |
| CreditNoteNumber.GeneratedWidth | credit_note/credit_note.py:59-68 | while today has fewer than 999 records, the generated number is nine characters longer than the Buddhist year's digits and ends in `-` and the three-digit sequence |
| CreditNoteNumber.DecodeFormatted | credit_note/credit_note.py:61-68 | reading back a formatted number recovers its year, month and sequence fields |
| CreditNoteNumber.DecodeGenerated | credit_note/credit_note.py:59-68 | the generated number carries the year plus 543, the month, and the count of records under today's key plus one |
| CreditNoteNumber.FirstOfTheDay | credit_note/credit_note.py:65-67 | when today's key is absent, the generated number's sequence is 1 |
| CreditNoteNumber.FirstNumberEnding | credit_note/credit_note.py:67-68 | a number with sequence 1 ends in `-001` |
| CreditNoteNumber.SameDaySameNumber | credit_note/credit_note.py:60-68 | two clock readings on the same calendar day generate the same number from the same log |
| CreditNoteNumber.NextAfterAppendToday | credit_note/credit_note.py:59-68 | after a record dated today is appended, the next number's sequence is larger by exactly one, so the number differs |
| CreditNoteNumber.OtherDayLeavesNumber | credit_note/credit_note.py:63-66 | appending a record dated on another day leaves today's number unchanged |
| CreditNoteNumber.NumberRepeatsOnAnotherDay | credit_note/credit_note.py:61-66 | once the first note of one day is logged, the first note of another day in the same month gets the same number |
| CreditNoteNumber.ReloadKeepsNextNumber | credit_note/credit_note.py:43-68 | generating from a log reloaded from its saved file gives the number the in-memory log gives; like ReloadAfterSave, it rests on the file being represented by its map |
| Amounts.CellNumber | credit_note/credit_note.py:166-167 | a quantity or price text: blank after stripping reads as 0 without float(), any other text goes to float(); characterised by NumberFallbacks and ExportRows.SpaceOnlyQuantity |
| Amounts.QtyAndPrice | credit_note/credit_note.py:165-170 | the try block: both values, or 0 for both when either float() raises; characterised by NumberFallbacks |
| Amounts.RowAmount | credit_note/credit_note.py:172-177 | the amount cell: empty for a blank description, otherwise quantity times price; characterised by NumberFallbacks and BlankDescriptionContributesNothing |
| Amounts.Subtotal | credit_note/credit_note.py:156-177 | the running total over the rows in table order; characterised by SubtotalOverDescribedRows and BlankDescriptionContributesNothing |
| Amounts.InvoiceAmount | credit_note/credit_note.py:185-188 | the reference invoice amount, 0 where float() raises; characterised by BadInvoiceAmountIsZero |
| Amounts.Recompute | credit_note/credit_note.py:154-203 | every field `update_amounts` derives; characterised by UpdateAmounts, SubtotalOverDescribedRows, BadInvoiceAmountIsZero, VatRule and the two worked examples |
| Amounts.ApplyVat | credit_note/credit_note.py:191-193 | the VAT is never negative and is positive exactly when the residual is; the total is the residual plus the VAT |
| Amounts.VatRule | credit_note/credit_note.py:191-193 | a positive residual gets 7% VAT and a total of 107% of itself; otherwise the VAT is 0 and the total is the residual |
| Amounts.TotalWithVatMonotone | credit_note/credit_note.py:191-193 | the total with VAT never falls as the residual grows |
| Amounts.UpdateAmounts | credit_note/credit_note.py:154-203 | the loop fills one amount per row, each equal to the row's specified amount, and the totals equal `Recompute` of the rows and the invoice text |
| Amounts.BlankDescriptionContributesNothing | credit_note/credit_note.py:172-177 | a row with a blank description gets an empty amount, and changing its quantity or price text leaves the subtotal unchanged |
| Amounts.SubtotalOverDescribedRows | credit_note/credit_note.py:156-177 | the subtotal is the sum of quantity times price over exactly the rows with a non-blank description |
| Amounts.NumberFallbacks | credit_note/credit_note.py:165-170 | a blank quantity reads as 0 and a blank price reads as 0, each on its own; a described row with either one blank has amount 0; a float() failure in either field zeroes both |
| Amounts.BadInvoiceAmountIsZero | credit_note/credit_note.py:185-191 | an invoice text float() rejects counts as 0, so the residual is minus the subtotal |
| Amounts.PartialCreditExample | credit_note/credit_note.py:154-193 | rows Widget 2x50, a blank row, and Gadget 1x25 against an invoice of 200 give subtotal 125, residual 75, VAT 5.25, total 80.25 |
| Amounts.OverCreditExample | credit_note/credit_note.py:185-193 | an item worth 300 against an invoice of 200 gives residual -100, no VAT, total -100 |
| ExportRows.SheetNumber | credit_note/credit_note.py:272-280 | `float(text or 0.0)`: only the empty text reads as 0; characterised by FillItemRows and SpaceOnlyQuantity |
| ExportRows.SpaceOnlyQuantity | credit_note/credit_note.py:272 | when float() rejects a whitespace-only quantity, the calculator reads it as 0 but the export's conversion fails, so a table holding that row does not convert |
| ExportRows.NonBlankRows | credit_note/credit_note.py:269-270 | no more rows are written than the table has |
| ExportRows.FillItemRows | credit_note/credit_note.py:257-283 | the fill succeeds if and only if every non-blank row converts; on success the j-th line is the j-th non-blank row's values at sheet row 16+j; on failure it names the first non-blank row whose float() raises |
| ExportRows.WrittenInTableOrder | credit_note/credit_note.py:257-283 | the written rows are exactly the non-blank table rows, each at a position that grows with its index |
| ExportRows.WrittenCount | credit_note/credit_note.py:269-270 | the number of lines written equals the number of table rows that are not entirely blank |
| Window.OutputPath | credit_note/credit_note.py:209 | `output/<number>.xlsx`; used by ExportToExcel's path clause |
| Window.ExportEntry | credit_note/credit_note.py:288-297 | the log entry of an export: the number, the date key and time text of the clock reading after the save, and the form fields; used by ExportToExcel and NextNumberAfterExport |
| Window.FillWorkbook | credit_note/credit_note.py:216-285 | loading, filling and saving the workbook succeeds exactly when the template loads, every written row converts where a sheet takes rows, and the save succeeds; the lines are the written rows in order, none without a sheet; each failure names its own step, and a bad number names the first non-blank row that does not convert |
| Window.CreditNoteWindow.constructor | credit_note/credit_note.py:40-76 | the window holds the loaded log and the file it came from, and shows the number generated from that log; the file and the in-memory log start in sync |
| Window.OpenWindow | credit_note/credit_note.py:25-48 | start-up fails exactly when the log file does not parse; otherwise it returns a new window in the constructor's state |
| Window.CreditNoteWindow.SaveCreditNoteLog | credit_note/credit_note.py:50-57 | the in-memory log becomes the old log with the record appended; the file holds the new map only if the write succeeds; the number shown is unchanged; when file and memory were in sync, they stay in sync exactly when the write succeeds |
| Window.CreditNoteWindow.ExportToExcel | credit_note/credit_note.py:207-306 | a missing template gives TemplateNotFound; the export succeeds if and only if the workbook is saved and the log write succeeds; the record is appended exactly when the workbook is saved; the number is regenerated only on success; the output path is `output/<number>.xlsx`; the written lines are the filled item rows, and none when neither sheet is present; each failure names its own cause: TemplateUnreadable exactly when the template exists but does not load, BadItemNumber exactly when a present sheet meets a row that does not convert, naming the first such non-blank row, SaveFailed exactly when only the save fails, and LogWriteFailed exactly when the workbook is saved but the log write fails; when the file and the in-memory log were in sync before, they are in sync after exactly when the outcome is not LogWriteFailed |
| Window.NextNumberAfterExport | credit_note/credit_note.py:288-303 | when the log step and the next generation fall on the same day, the new number's sequence is one more than the sequence of the number generated before the record was added |

## Left out

- The Qt user interface is not modelled: widgets, layouts, signal blocking, message boxes and the making of the three directories (lines 26-38 and 70-152).
- The header cells of the workbook are not modelled (lines 216-255). These are the number, the two dd/mm/Buddhist-year dates, the customer and invoice fields, the totals, the Thai text and the accounting number format. The float() of the displayed totals at lines 243-252 reads the calculator's own two-decimal text and is taken to succeed.
- Amounts.UpdateAmounts: amounts are exact reals. The `:.2f` rendering of the amount column and of the totals, and the `to_arabic_digits` applied to those texts, are not modelled.
- Amounts.Recompute: the baht text is computed from the exact total. The rounding to two decimals that comes before `bahttext` is not modelled.
- Python's float() and `bahttext` are parameters. No particular parsing of decimal text is modelled, and NaN and infinities are not modelled.
- Each `datetime.now()` reading is a parameter. `ExportToExcel` takes the reading used for the log entry and the one used for the next number separately, because the source reads the clock twice.
- Clock.ValidClock: the `datetime` year range 1..9999 is not stated. No property depends on it.
- Clock.DateKey: `%Y` renders the year as `str(year)`. The zero padding that some platforms add for years below 1000 is not modelled.
- The JSON encoding of the log file is not modelled; the file is represented by the map it holds. A log write that fails is modelled as leaving the file as it was. A `json.dump` that fails after `open(..., "w")` has already emptied the file is not modelled.
- Export failures raised by the workbook library are represented by whether the template loads and whether the save succeeds. Other exceptions from cell writes are not modelled.
- The two sheets receive the same item rows. A single fill stands for each sheet that is present, and when neither sheet is present no row is converted.
- The table's fixed size of twelve rows is not modelled. The rows are any sequence, and a cell the table never created reads as the empty text.
- The sequence is not capped at 999. `{seq:03d}` widens beyond three digits, as the model's `Padded` does; `GeneratedWidth` states the three-digit layout only below that bound.
- The log file's contents are limited to three cases: no file, a map from date keys to lists of records, or text that does not parse. A file that is valid JSON of another shape is not modelled. The source assigns whatever `json.load` returns (line 46). A JSON list then makes number generation raise at `.get` (line 65). A string value under a date key makes `len` count its characters.
