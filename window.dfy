/**
  The state the credit-note window keeps between user actions: the
  in-memory sequence log, the log file on disk, and the document number on
  display.  `export_to_excel` fills the template, saves the workbook, and only
  then logs the note and shows the next number.  The template file, the
  workbook library and the JSON write are modelled by their outcomes.
 */
module Window {
  import opened Wrappers
  import opened Clock
  import opened CreditNoteLog
  import opened CreditNoteNumber
  import opened Amounts
  import opened ExportRows

  /** The two sheets the export fills when the template has them. */
  const OriginalSheet: string := "ต้นฉบับ"
  const CopySheet: string := "สำเนา"

  const OutputDir: string := "output"

  /** What the template and the workbook library do on this export. */
  datatype Workbook = Workbook(templateExists: bool, loads: bool, sheets: set<string>, saves: bool)

  /** The form fields the export reads. */
  datatype ExportForm = ExportForm(
    invoiceRef: string,
    customerId: string,
    customerName: string,
    totalWithVat: string,
    rows: seq<TableRow>)

  datatype ExportFailure = TemplateUnreadable | BadItemNumber(row: nat) | SaveFailed | LogWriteFailed

  datatype ExportOutcome =
    | TemplateNotFound
    | ExportFailed(failure: ExportFailure)
    | Exported(filePath: string, lines: seq<SheetLine>)

  /** `os.path.join(output_dir, f"{credit_note_no}.xlsx")`. */
  function OutputPath(creditNoteNo: string): (path: string) {
    OutputDir + "/" + creditNoteNo + ".xlsx"
  }

  /** The log entry built after a successful save, stamped with the clock reading taken then. */
  function ExportEntry(creditNoteNo: string, form: ExportForm, now: Clock): (entry: LogEntry)
  {
    LogEntry(creditNoteNo, DateKey(now), TimeText(now), form.invoiceRef, form.customerId, form.customerName, form.totalWithVat)
  }

  /** The item rows are converted at all only when one of the two sheets is present. */
  predicate FillsItems(workbook: Workbook) {
    OriginalSheet in workbook.sheets || CopySheet in workbook.sheets
  }

  /** The template loads, the items convert where a sheet takes them, and the save succeeds. */
  predicate WorkbookWritten(form: ExportForm, workbook: Workbook, parse: Parser) {
    && workbook.loads
    && (FillsItems(workbook) ==> AllConvert(form.rows, parse))
    && workbook.saves
  }

  /** Everything before the log step went through: the workbook file is written. */
  predicate WorkbookSaved(form: ExportForm, workbook: Workbook, parse: Parser) {
    workbook.templateExists && WorkbookWritten(form, workbook, parse)
  }

  /**
    The workbook part of `export_to_excel` once the template is found: load
    it, fill the item rows of each present sheet, save it.  The lines
    written, or the step that raised.
   */
  method FillWorkbook(form: ExportForm, workbook: Workbook, parse: Parser)
    returns (res: Result<seq<SheetLine>, ExportFailure>)
    ensures res.Success? <==> WorkbookWritten(form, workbook, parse)
    ensures res.Success? && FillsItems(workbook) ==>
      && |res.value| == |NonBlankRows(form.rows)|
      && forall j | 0 <= j < |res.value| ::
           RowConverts(NonBlankRows(form.rows)[j], parse)
           && res.value[j] == LineOf(NonBlankRows(form.rows)[j], FirstItemRow + j, parse)
    ensures res.Success? && !FillsItems(workbook) ==> res.value == []
    ensures res == Failure(TemplateUnreadable) <==> !workbook.loads
    ensures res.Failure? && res.error.BadItemNumber?
        <==> workbook.loads && FillsItems(workbook) && !AllConvert(form.rows, parse)
    ensures res.Failure? && res.error.BadItemNumber? ==>
      && res.error.row < |form.rows|
      && !RowIsBlank(form.rows[res.error.row])
      && !RowConverts(form.rows[res.error.row], parse)
      && AllConvert(form.rows[..res.error.row], parse)
    ensures res == Failure(SaveFailed) <==> WorkbookWritten(form, workbook.(saves := true), parse) && !workbook.saves
    ensures res != Failure(LogWriteFailed)
  {
    if !workbook.loads {
      return Failure(TemplateUnreadable);
    }
    var lines: seq<SheetLine> := [];
    // Both sheets get the same item rows, so one fill stands for each present sheet.
    if FillsItems(workbook) {
      var filled := FillItemRows(form.rows, parse);
      if filled.BadNumber? {
        return Failure(BadItemNumber(filled.row));
      }
      lines := filled.lines;
    }
    if !workbook.saves {
      return Failure(SaveFailed);
    }
    res := Success(lines);
  }

  class CreditNoteWindow {
    var creditNoteLog: LogMap
    var storedLog: StoredLog
    var creditNoteNo: string

    /** The log file holds exactly the in-memory log. */
    predicate Synced()
      reads this
    {
      LoadCreditNoteLog(storedLog) == Success(creditNoteLog)
    }

    /** Start-up: load the log (a file that does not parse raises, and no window is built), then show the first number. */
    constructor (stored: StoredLog, now: Clock)
      requires LoadCreditNoteLog(stored).Success?
      ensures creditNoteLog == LoadCreditNoteLog(stored).value
      ensures storedLog == stored
      ensures creditNoteNo == GenerateCreditNoteNo(now, creditNoteLog)
      ensures Synced()
    {
      var log := LoadCreditNoteLog(stored).value;
      var no := GenerateCreditNoteNo(now, log);
      creditNoteLog, storedLog, creditNoteNo := log, stored, no;
    }

    /**
      `save_credit_note_log(entry)`: the in-memory map is updated first, then
      the whole map is written out; `writeOk` is whether that write succeeds.
     */
    method SaveCreditNoteLog(entry: LogEntry, writeOk: bool) returns (ok: bool)
      modifies this
      ensures creditNoteLog == Appended(old(creditNoteLog), entry)
      ensures ok == writeOk
      ensures storedLog == if writeOk then Stored(creditNoteLog) else old(storedLog)
      ensures creditNoteNo == old(creditNoteNo)
      ensures old(Synced()) ==> (Synced() <==> writeOk)
    {
      var dateKey := entry.date;
      if dateKey !in creditNoteLog {
        creditNoteLog := creditNoteLog[dateKey := []];
      }
      creditNoteLog := creditNoteLog[dateKey := creditNoteLog[dateKey] + [entry]];
      if writeOk {
        storedLog := Stored(creditNoteLog);
      }
      ok := writeOk;
    }

    /**
      `export_to_excel`.  `now` is the clock reading after the save (stamped
      on the log entry) and `later` the one the next number is generated at.
     */
    method ExportToExcel(form: ExportForm, workbook: Workbook, logWriteOk: bool, parse: Parser, now: Clock, later: Clock)
      returns (outcome: ExportOutcome)
      modifies this
      ensures !workbook.templateExists ==> outcome == TemplateNotFound
      ensures outcome.Exported? <==> WorkbookSaved(form, workbook, parse) && logWriteOk
      ensures creditNoteLog == if WorkbookSaved(form, workbook, parse)
                               then Appended(old(creditNoteLog), ExportEntry(old(creditNoteNo), form, now))
                               else old(creditNoteLog)
      ensures storedLog == if WorkbookSaved(form, workbook, parse) && logWriteOk
                           then Stored(creditNoteLog) else old(storedLog)
      ensures creditNoteNo == if outcome.Exported? then GenerateCreditNoteNo(later, creditNoteLog)
                              else old(creditNoteNo)
      ensures outcome.Exported? ==> outcome.filePath == OutputPath(old(creditNoteNo))
      ensures outcome.Exported? && FillsItems(workbook) ==>
        && |outcome.lines| == |NonBlankRows(form.rows)|
        && forall j | 0 <= j < |outcome.lines| ::
             RowConverts(NonBlankRows(form.rows)[j], parse)
             && outcome.lines[j] == LineOf(NonBlankRows(form.rows)[j], FirstItemRow + j, parse)
      ensures outcome.Exported? && !FillsItems(workbook) ==> outcome.lines == []
      ensures outcome == ExportFailed(TemplateUnreadable) <==> workbook.templateExists && !workbook.loads
      ensures outcome.ExportFailed? && outcome.failure.BadItemNumber?
          <==> workbook.templateExists && workbook.loads && FillsItems(workbook) && !AllConvert(form.rows, parse)
      ensures outcome.ExportFailed? && outcome.failure.BadItemNumber? ==>
        && outcome.failure.row < |form.rows|
        && !RowIsBlank(form.rows[outcome.failure.row])
        && !RowConverts(form.rows[outcome.failure.row], parse)
        && AllConvert(form.rows[..outcome.failure.row], parse)
      ensures outcome == ExportFailed(SaveFailed) <==> WorkbookSaved(form, workbook.(saves := true), parse) && !workbook.saves
      ensures outcome == ExportFailed(LogWriteFailed) <==> WorkbookSaved(form, workbook, parse) && !logWriteOk
      ensures old(Synced()) ==> (Synced() <==> outcome != ExportFailed(LogWriteFailed))
    {
      var no := creditNoteNo;
      var filePath := OutputPath(no);
      if !workbook.templateExists {
        return TemplateNotFound;
      }
      var written := FillWorkbook(form, workbook, parse);
      if written.Failure? {
        return ExportFailed(written.error);
      }
      var entry := ExportEntry(no, form, now);
      var ok := SaveCreditNoteLog(entry, logWriteOk);
      if !ok {
        return ExportFailed(LogWriteFailed);
      }
      creditNoteNo := GenerateCreditNoteNo(later, creditNoteLog);
      outcome := Exported(filePath, written.value);
    }
  }

  /** Building the window: a log file that does not parse makes `__init__` raise, so no window comes up. */
  method OpenWindow(stored: StoredLog, now: Clock) returns (r: Result<CreditNoteWindow, LogError>)
    ensures r.Failure? <==> stored.Unreadable?
    ensures r.Success? ==>
      && fresh(r.value)
      && r.value.creditNoteLog == LoadCreditNoteLog(stored).value
      && r.value.storedLog == stored
      && r.value.creditNoteNo == GenerateCreditNoteNo(now, r.value.creditNoteLog)
  {
    var loaded := LoadCreditNoteLog(stored);
    if loaded.Failure? {
      return Failure(loaded.error);
    }
    var w := new CreditNoteWindow(stored, now);
    r := Success(w);
  }

  /**
    When the export's log step and the next generation fall on the same day,
    the next number shown has a sequence one larger than the number
    generated from the log just before the entry was added.
   */
  lemma NextNumberAfterExport(log: LogMap, creditNoteNo: string, form: ExportForm, now: Clock, later: Clock)
    requires ValidClock(now) && ValidClock(later)
    requires (later.year, later.month, later.day) == (now.year, now.month, now.day)
    ensures DecodeCreditNoteNo(GenerateCreditNoteNo(now, log)).Some?
    ensures DecodeCreditNoteNo(GenerateCreditNoteNo(later, Appended(log, ExportEntry(creditNoteNo, form, now)))).Some?
    ensures DecodeCreditNoteNo(GenerateCreditNoteNo(later, Appended(log, ExportEntry(creditNoteNo, form, now)))).value.sequence
         == DecodeCreditNoteNo(GenerateCreditNoteNo(now, log)).value.sequence + 1
  {
    var entry := ExportEntry(creditNoteNo, form, now);
    SameDaySameNumber(now, later, Appended(log, entry));
    NextAfterAppendToday(now, log, entry);
  }
}
