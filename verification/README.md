# Add2DB_ShuffleDns — a Dafny model of the deduplication pipeline

Add2DB_ShuffleDns runs a subdomain enumeration tool for every domain in a
list. It inserts each discovered host into a SQLite table with a unique
`domain` column. Only the hosts that were not stored before go to a notifier.

This project models the value-level core of that loop:

- **Scheduler** (`scheduler.dfy`): one pass over the domain list. Blank lines
  are skipped and the rest are processed in file order. Each domain gets a
  result file named `<domain>_<timestamp>.txt`. A failed tool run skips that
  domain.
- **Result processor** (`result_processor.dfy`): the insert loop over a result
  file. It is written as a fold over the scanned lines (`Scan`) and as the
  loop the program runs (`ScanResultFile`). A reference definition states,
  line by line, which lines are reported. `ProcessOutputFile` adds the early
  exits and the temporary file for the notifier. That file holds each new
  domain followed by a newline.
- **Deduplication store** (`store.dfy`): the table as a `set<string>`.
  `TryInsert` reports `Inserted`, `Ignored` or `Failed`. `Inserted` means
  exactly that the domain was absent. This is the intended contract of the
  program's `id != 0` test (see Findings).
- **SQLite driver as the program uses it** (`sqlite_driver.dfy`): the same
  loop using the driver's last-insert id. It shows where that test departs
  from the intended contract.
- `sequences.dfy`: subsequence and duplicate-freedom predicates with small
  lemmas.

Inputs the program gets from outside are parameters of the model:

- the clock reading (`datetime`);
- the tool's success and the scanned lines of its result file (`ToolRun`);
- whether the database open, table creation and result-file open succeed
  (`Preflight`);
- which insert statements return an error (`failing`, a set of line
  positions);
- whether the temporary file can be created, written and closed (`tempOk`).

A scanned file is a `seq<string>` of its lines without terminators.

## Model

| member | source | states |
|---|---|---|
| DedupStore.TryInsert | Add2DB_ShuffleDns.go:107-113 | An insert that returns an error changes nothing and is `Failed`. Otherwise the domain ends up stored, and the outcome is `Inserted` exactly when it was absent before and `Ignored` exactly when it was present. |
| DedupStore.InsertTwiceInsertsOnce | Add2DB_ShuffleDns.go:107-113 | Inserting the same domain twice reports a fresh row at most once. After a successful first attempt, a second successful attempt is `Ignored` and leaves the store unchanged. |
| ResultProcessor.Scan | Add2DB_ShuffleDns.go:103-118 | The store only grows. It gains only non-blank lines of the file. Every reported domain is non-blank, was absent from the store before the scan and is stored afterwards. The batch has no duplicates and is a subsequence of the file's lines in scan order. |
| ResultProcessor.ScanMatchesReference | Add2DB_ShuffleDns.go:104-115 | After the scan the store is the old store plus every non-blank line whose insert did not fail. The batch is exactly the lines that are non-blank, did not fail, were not stored before and had no earlier successful insert of the same domain, in scan order. |
| ResultProcessor.RescanReportsOnlyFailed | Add2DB_ShuffleDns.go:107-113 | Scanning the same lines again against the store the first scan left reports a domain only if every line carrying it failed to insert in the first scan. |
| ResultProcessor.RescanIsIdempotent | Add2DB_ShuffleDns.go:107-113 | If no insert failed in the first scan, a second scan of the same lines reports nothing and leaves the store unchanged, whatever fails in the second scan. |
| ResultProcessor.NothingReportedWhenAllStored | Add2DB_ShuffleDns.go:107-113 | When every non-blank line of the file is already stored, the scan reports nothing, whatever inserts fail. |
| ResultProcessor.ScanResultFile | Add2DB_ShuffleDns.go:95-118 | The program's single loop over the lines computes what `Scan` and the reference definition describe: the same final store and the same batch. |
| ResultProcessor.Render | Add2DB_ShuffleDns.go:133 | The temporary file is empty exactly when the batch is empty. A non-empty file ends with a newline and starts with the first domain followed by a newline. |
| ResultProcessor.RenderAppend | Add2DB_ShuffleDns.go:132-136 | Writing one more domain appends exactly that domain and a newline to the file. |
| ResultProcessor.WriteTempFile | Add2DB_ShuffleDns.go:132-137 | The write loop leaves the file holding every domain of the batch, each followed by a newline, in batch order. When no domain contains a newline, splitting the file at newlines gives back the batch. |
| ResultProcessor.RenderRoundTrip | Add2DB_ShuffleDns.go:132-137 | A reader that splits the temporary file at newlines gets back exactly the batch that was written, in order, provided no domain contains a newline. |
| ResultProcessor.ProcessOutputFile | Add2DB_ShuffleDns.go:81-155 | A failed database open, table creation or result-file open changes nothing and reports nothing. Otherwise the store becomes the old store plus every non-blank line whose insert did not fail, and the batch is exactly the reference batch of the scan. The notifier runs exactly when the batch is non-empty and the temporary file was written, and it gets the rendered batch. "Nothing new" is logged exactly when the batch is empty. A temporary-file failure is recorded exactly when the batch is non-empty and the file could not be written. When no scanned line contains a newline, which holds for every line a line scanner produces, the notifier reads back exactly the batch from the file. |
| ResultProcessor.ReprocessNotifiesNothing | Add2DB_ShuffleDns.go:124-155 | Processing the same result file again, after a first pass with no failed insert, finds nothing new. The notifier does not run and the store is unchanged. |
| Scheduler.Targets | Add2DB_ShuffleDns.go:50-57 | The domains processed from the list contain no blank line and are a subsequence of the list in file order. Every non-blank domain occurs as often as it occurs in the list. |
| Scheduler.ParseOutputFileName | Add2DB_ShuffleDns.go:65-66 | A name that parses has a formatted timestamp and is exactly `domain + "_" + datetime + ".txt"` for the parsed parts. |
| Scheduler.OutputFileNameRoundTrip | Add2DB_ShuffleDns.go:65-66 | The domain and a `20060102_150405`-formatted timestamp can be recovered from the result file name. |
| Scheduler.OutputFileNameInjective | Add2DB_ShuffleDns.go:65-66 | Two result files get the same name only for the same domain at the same formatted time. |
| Scheduler.OutputFileName | Add2DB_ShuffleDns.go:66 | The result file name is the domain, an underscore, the timestamp and `.txt`, in that order and nothing else. |
| Scheduler.ProcessDomain | Add2DB_ShuffleDns.go:64-79 | The result file is named after the domain and timestamp, and its name determines both. A failed tool run skips the result file, so nothing is stored, reported or notified. A successful run gives exactly the processing of the tool's result file against the current store. In every case the store only grows and the batch holds distinct domains that were absent before. A notification happens only after a successful tool run with a non-empty batch. |
| Scheduler.RunDomains | Add2DB_ShuffleDns.go:51-57 | There is one run per target, and the runs handle the targets in order. Across the whole pass no domain is reported twice. Every reported domain was absent before the pass and is stored after it. |
| Scheduler.RunDomainsChained | Add2DB_ShuffleDns.go:51-57 | The pass threads the store through the calls: each run is the per-domain step for its target and environment against the store the previous run left, starting from the initial store. The pass ends with the store the last run left. |
| Scheduler.ChainedRun | Add2DB_ShuffleDns.go:51-57 | In a pass, run `i` is the per-domain step for target `i` and environment `i`, against the store run `i - 1` left (the initial store for `i = 0`). |
| Scheduler.RunTasks | Add2DB_ShuffleDns.go:42-62 | An unreadable domain list is a pass that processes nothing. Otherwise the list's targets are processed in order, each by the per-domain step against the store the previous one left, and the pass ends with the last run's store. The pass-level guarantees of `RunDomains` hold. |
| Scheduler.EachListedDomainProcessedOnce | Add2DB_ShuffleDns.go:51-56 | The domains handed to the per-domain step contain no blank line and are a subsequence of the list. Each non-blank line is processed exactly as many times as it occurs. |
| Scheduler.LaterCycleNeverRepeats | Add2DB_ShuffleDns.go:28-31 | A later pass, starting from the store an earlier pass left, never reports a domain the earlier pass reported. |
| Scheduler.TwoDomainExample | Add2DB_ShuffleDns.go:51-56 | For the list `a.com`, blank, `b.com`: the blank line is not processed. `a.com`'s two new hosts are notified once as `x.a.com\ny.a.com\n`. `b.com`'s already-stored host gives no notification. |
| SqliteDriver.InsertOrIgnore | Add2DB_ShuffleDns.go:107-111 | A new row gets a rowid above every earlier one, and that rowid becomes the last-insert id. An ignored row changes nothing, and the previous last-insert id is reported again. |
| SqliteDriver.LooksNewWhenInsertedOrStale | Add2DB_ShuffleDns.go:107-112 | The program's `id != 0` test passes exactly when the insert did not fail and either created a row or ran on a connection that had already inserted one. On a connection with no earlier insert the test is exact. |
| SqliteDriver.ScanAsWritten | Add2DB_ShuffleDns.go:103-118 | The program's loop with the `id != 0` test leaves the table as the intended scan does. It reports every domain the intended scan reports, in the same order. |
| SqliteDriver.AsWrittenReportsKnownDomain | Add2DB_ShuffleDns.go:111-113 | With `old.example.com` already stored and a result file listing `new.example.com` then `old.example.com`, the program reports both. The intended scan reports only the new one. |
| SqliteDriver.AsWrittenReportsTwice | Add2DB_ShuffleDns.go:111-113 | A result file listing one new domain twice is reported with that domain twice. |

## Left out

- The enumeration tool and notifier subprocesses (lines 68-75 and 144-152) are not modelled. The tool's outcome is the `ToolRun` parameter. The notifier's exit status is only logged, so it is not modelled.
- The fixed command-line arguments of both subprocesses are left out. They do not change any value the core computes.
- Logging, the log file and the fatal exit when it cannot be opened (lines 34-40) are left out as I/O.
- The endless loop and the four-hour sleep (lines 28-31) are left out. One pass is `RunTasks`, and passes chain through the store, as `LaterCycleNeverRepeats` shows.
- Reading the clock is left out. The timestamp is the `datetime` parameter. `IsTimestamp` assumes four-digit years.
- Opening, scanning and closing files is left out. A scanned file is its sequence of lines. A read error that stops the scanner early (lines 59-61 and 120-122) gives a shorter sequence, and processing continues with it, as in the program.
- Removing the temporary file (line 130) is left out. Its removal is an operating-system side effect with no value-level content.
- The SQLite database file and its persistence across restarts are left out. The store is a parameter, and its value after one call is passed to the next.
- `handlePauseResume` and `setupSignalHandling` (lines 158-176) are left out: they are goroutines, channels and OS signals. The pause channel has no reader, and its send at line 163 blocks once the one-slot buffer is full rather than dropping the signal.
- The driver's failures are modelled only as "the statement returned an error, nothing changed". The causes (locking, disk errors) are not modelled.

## Findings

| source | as written | input that shows it | evidently intended | confidence | as-written member | corrected member |
|---|---|---|---|---|---|---|
| Add2DB_ShuffleDns.go:111-113 | A line counts as new when `LastInsertId()` of its `INSERT OR IGNORE` is non-zero. The driver reports the connection's last inserted rowid, and an ignored insert does not reset it. So after one genuine insert, every later already-stored line on the same connection also counts as new. | `old.example.com` already stored; result file `new.example.com`, `old.example.com` | Report a line only when its insert created a row (for instance `RowsAffected() == 1`), i.e. only when the domain was absent | medium, not executed; depends on the driver returning SQLite's `last_insert_rowid` after an ignored insert and on the connection pool handing the same idle connection to consecutive statements | SqliteDriver.AsWrittenReportsKnownDomain | ResultProcessor.Scan |

The rest of the model uses the intended behaviour: `DedupStore.TryInsert` and
`ResultProcessor.Scan`. `SqliteDriver.ScanAsWritten` shows that the program's
version leaves the same store and reports a superset of the intended batch,
in the same order. `SqliteDriver.AsWrittenReportsTwice` shows that the
program's version can also report one domain twice from one file.

A failed insert is skipped without aborting the batch. So a domain whose
first insert failed is reported at its next successful insert, and a second
pass over a file is guaranteed to report nothing only when no insert failed
in the first pass (`RescanIsIdempotent`, `RescanReportsOnlyFailed`).
