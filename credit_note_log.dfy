/**
  The sequence log: a map from a date key (`YYYY-MM-DD`) to the records issued
  that day, in issue order.  New records are appended to their own day's list;
  nothing is edited or removed.  The persisted JSON file is modelled by what
  it holds: nothing yet, a map, or text that does not parse.
 */
module CreditNoteLog {
  import opened Wrappers

  /** One log entry, as the export builds it. */
  datatype LogEntry = LogEntry(
    creditNoteNo: string,
    date: string,
    time: string,
    invoiceRef: string,
    customerId: string,
    customerName: string,
    totalWithVat: string)

  type LogMap = map<string, seq<LogEntry>>

  /** The log file on disk. */
  datatype StoredLog = NoFile | Stored(log: LogMap) | Unreadable

  datatype LogError = LogCorrupt

  /** `log.get(key, [])`. */
  function Bucket(log: LogMap, key: string): (b: seq<LogEntry>)
    ensures key !in log ==> b == []
    ensures key in log ==> b == log[key]
  {
    if key in log then log[key] else []
  }

  /** `load_credit_note_log`: no file gives the empty map; a file that does not parse raises. */
  function LoadCreditNoteLog(stored: StoredLog): (r: Result<LogMap, LogError>)
    ensures r.Failure? <==> stored.Unreadable?
    ensures stored.NoFile? ==> r == Success(map[])
    ensures stored.Stored? ==> r == Success(stored.log)
  {
    match stored
    case NoFile => Success(map[])
    case Stored(log) => Success(log)
    case Unreadable => Failure(LogCorrupt)
  }

  /** The in-memory effect of `save_credit_note_log(entry)`: create the day's list if absent, then append. */
  function Appended(log: LogMap, entry: LogEntry): (r: LogMap)
    ensures entry.date in r && r[entry.date] == Bucket(log, entry.date) + [entry]
    ensures r.Keys == log.Keys + {entry.date}
    ensures forall k | k in log && k != entry.date :: r[k] == log[k]
    ensures r != log
  {
    log[entry.date := Bucket(log, entry.date) + [entry]]
  }

  /** Every record sits under the key of its own date. */
  predicate DatesConsistent(log: LogMap) {
    forall k | k in log :: forall i | 0 <= i < |log[k]| :: log[k][i].date == k
  }

  /**
    Appending keeps every record under its own date.  This is a property of
    the log map on its own: a log loaded from a file need not satisfy it, so
    the window does not carry it as an invariant; a log built only by
    appends from an empty or consistent map keeps it.
   */
  lemma AppendKeepsDatesConsistent(log: LogMap, entry: LogEntry)
    requires DatesConsistent(log)
    ensures DatesConsistent(Appended(log, entry))
  {
    var r: LogMap := Appended(log, entry);
    forall k: string | k in r ensures forall i | 0 <= i < |r[k]| :: r[k][i].date == k {
      if k == entry.date {
        forall i: int | 0 <= i < |r[k]| ensures r[k][i].date == k {
          if i < |Bucket(log, k)| { assert r[k][i] == log[k][i]; }
        }
      }
    }
  }

  /** The log only grows: every day's earlier list is a prefix of its new list. */
  lemma AppendOnly(log: LogMap, entry: LogEntry)
    ensures forall k | k in log :: k in Appended(log, entry) && log[k] <= Appended(log, entry)[k]
    ensures |Bucket(Appended(log, entry), entry.date)| == |Bucket(log, entry.date)| + 1
  {
  }

  /** A record filed under another date does not create `key`. */
  lemma KeyStaysAbsent(log: LogMap, entry: LogEntry, key: string)
    requires key !in log && key != entry.date
    ensures key !in Appended(log, entry)
  {
  }

  /** Saving a map and loading it back gives the same map. */
  lemma ReloadAfterSave(log: LogMap)
    ensures LoadCreditNoteLog(Stored(log)) == Success(log)
  {
  }
}
