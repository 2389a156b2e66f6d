# movix-notification-etl: the resumable scan, upsert and pass loop

This project models, in Dafny, the core of the ETL worker that copies changed
rows of the `user` table from the `users` schema of the authentication
database into the `notifications` schema. The model covers three parts.

- **Scanner** (`src/auth_to_notification/producers.py`). `PostgresProducer.scan_table`
  reads the table's watermark under the hard-coded key
  `users_auth_2_notif_etl:<table>` and issues the keyset query
  `updated_at >= modified and id >= id order by updated_at asc, id asc`.
  It walks the result in pages of `pack_size` rows and refuses to yield while
  the table has an unacknowledged ("in-flight") batch. Before yielding a page,
  it records the page's last row as the table's in-flight marker.
  `Producer.set_state` commits a marker as the table's watermark under
  `<index_name>:<table>` and clears the marker. `scan` flattens the per-table
  pages into a stream of `(table, batch)` pairs.
- **Writer** (`src/auth_to_notification/loaders.py`). `PostgresLoader.load`
  sends one `insert ... on conflict (id) do update set <every column but id>`
  statement per batch.
- **Orchestrator** (`src/load_data.py`).
  - `ExtractionManager.execute_etl` drains the stream. It hands every pair to
    `load`. A domain `Error` raised by `load` skips only that pair. Any other
    exception from `load`, and any exception from the scanner (`Error`
    included), ends the pass.
  - `ExtractionUsersManager` builds a fresh producer and loader for each pass.
  - `transfer` repeats passes until one raises.

Modules and what they model:

| module | models |
|---|---|
| `Records` | the `User` and `Entry` records of `src/auth_to_notification/models.py` |
| `Keyset` | the keyset query of `scan_table` and its `fetchmany` pages, carved out of `src/auth_to_notification/producers.py:53-61` |
| `Checkpoints` | the checkpoint key strings of `producers.py:26` and `:46`, and an abstract checkpoint store standing in for `state.py`, which is not part of this model |
| `Producers` | the scanner, `src/auth_to_notification/producers.py` |
| `Loaders` | the writer and the destination tables, `src/auth_to_notification/loaders.py` |
| `LoadData` | the orchestrator, `src/load_data.py` |

State the source changes in place is kept in classes with `modifies` frames:

- `Producer.markers` holds `not_processed_entities`;
- `CheckpointStore.entries` holds the checkpoint store;
- `Destination.rows` and `Destination.log` hold the destination tables and the statements sent to them.

Each method is proved against pure specification functions, and properties
are proved as lemmas about those functions:

- the scanning methods `ScanNext` and `ScanAll` against `Stream` and `MarkAll`, and `ScanTable` against `TableYield` and `MarkAfter`;
- the pass methods `ExecuteEtl`, `DrainScanner`, `EtlTable`, `LoadPairs` and `LoadNext` against `LoadAll`, `Statements`, `PassEnd` and `MarkAll`, and `TransferPass` and `Transfer` against `RunPasses`;
- the writer's `Load` and `Run` against `Execute` and `UpsertStatement`;
- `CheckpointStore.Set` and `Producer.SetState` against map updates.

In five places the code as written does not do what the rest of the program
expects of it. The model follows the code in each, and lemmas make each
difference explicit.

1. The query's `AND` of two inclusive comparisons is not the lexicographic
   order it sorts by. It skips rows whose timestamp advanced while their id
   sorts below the watermark's id.
2. Watermarks are read under a hard-coded namespace but written under
   `index_name`. A committed watermark is read back exactly when the two
   coincide.
3. `execute_etl` never calls `set_state`. So no pass commits a checkpoint, and
   every table it loads stays in flight until the producer is discarded.
   Because the marker set by a table's first page stops its second page, each
   pass re-reads only the first page of each table from an unmoved watermark.
   A worker that committed each successfully loaded batch's last row would
   instead keep draining the table page by page.
4. `index_name` is declared on `ExtractionManager` but never assigned (see
   Findings).
5. The scanner runs outside the `try` of `execute_etl` (load_data.py:29-35).
   An exception raised while scanning ends the pass, even a domain `Error`,
   and `transfer` then returns. This covers `get_state` (producers.py:46),
   `fetchmany` (producers.py:61) and the row construction (producers.py:62-65).
   A scanner that treated its errors like load errors would skip only the
   failing table and let the pass continue. The model gives
   each pass a scan fault: `Some(k)` means the scanner raises after handing
   out the pairs of the first `k` configured tables (`PassFaults.scan`).
   `None` means it does not raise.

The query's lower bound is inclusive (`>=`). So a table resumed from the
watermark of a committed batch's last row selects that row again. The resumed
scan does not exclude the committed batch entirely, so the
next pass does not skip every row already committed.

## Model

| member | source | states |
|---|---|---|
| Keyset.SelectedIsAtOrAfter | src/auth_to_notification/producers.py:53-56 | every row the `where` clause selects is lexicographically at or after the watermark in (updated_at, id) order |
| Keyset.SkippedRowsAreExactly | src/auth_to_notification/producers.py:53-56 | a row at or after the watermark is not selected iff its updated_at is later than the watermark's and its id is smaller than the watermark's |
| Keyset.AndPredicateUnderFetches | src/auth_to_notification/producers.py:53-56 | there is a watermark and a row after it that the `AND` query never returns |
| Keyset.SelectedCounts | src/auth_to_notification/producers.py:54-55 | `Selected`, the `where` clause: it keeps each selected row as often as the table holds it and drops every other row |
| Keyset.SortByKeySortedPermutes | src/auth_to_notification/producers.py:55 | `SortByKey`, the `order by updated_at asc, id asc`: it returns a sorted permutation of its input |
| Keyset.QuerySortedSelection | src/auth_to_notification/producers.py:53-56 | `Query`, the `select`: the query result is sorted by (updated_at, id) and holds each row that the `where` clause selects, with its multiplicity in the table, and nothing else |
| Keyset.Pages | src/auth_to_notification/producers.py:61 | `fetchmany` pages concatenate back to the query result; every page has between 1 and pack_size rows; every page but the last is full |
| Keyset.PagesEmptyIff | src/auth_to_notification/producers.py:61 | there is no page iff the query result is empty |
| Keyset.FirstPageIsPrefix | src/auth_to_notification/producers.py:61 | the first page is the first min(pack_size, size) rows of the result |
| Keyset.FirstPageProperties | src/auth_to_notification/producers.py:53-61 | the first page is a sorted, non-empty prefix of at most pack_size rows; each of its rows is a table row that satisfies the `where` clause; it precedes every row left in the result |
| Keyset.CommittedPageRescansOnlyItsLastKey | src/auth_to_notification/producers.py:53-74 | resuming from the watermark of the first page's last row re-selects that row; of the page's other rows, only those with the same (updated_at, id) are selected again; the new watermark is at or after the old one |
| Checkpoints.ReadKeyLayout | src/auth_to_notification/producers.py:46 | the read key is the hard-coded namespace, a colon and the table name |
| Checkpoints.WriteKeyLayout | src/auth_to_notification/producers.py:26 | the write key is the index name, a colon and the table name |
| Checkpoints.KeysAgreeIff | src/auth_to_notification/producers.py:26 | the key `set_state` writes equals the key `scan_table` reads at line 46 iff index_name is `users_auth_2_notif_etl` |
| Checkpoints.WriteKeysSeparateTables | src/auth_to_notification/producers.py:26 | under one index_name, two tables never write the same checkpoint key |
| Checkpoints.CheckpointStore.Set | src/auth_to_notification/producers.py:26 | `state.set_state` overwrites the watermark under the key, and every other key keeps its watermark |
| Producers.ScanCount | src/auth_to_notification/producers.py:11-15 | `scan` yields one pair per produced batch: it drops and repeats nothing |
| Producers.ScanPairsExactly | src/auth_to_notification/producers.py:11-15 | every batch produced for a configured table appears in `scan`'s stream with that table's name, and the stream holds no other pair |
| Producers.ScanAppend | src/auth_to_notification/producers.py:11-15 | the stream of a split configuration is the stream of the first part followed by the stream of the second |
| Producers.ScanIsConcatenation | src/auth_to_notification/producers.py:11-15 | the stream is the per-table streams one after another, in configuration order |
| Producers.StreamSnoc | src/auth_to_notification/producers.py:11-15 | the stream of a configuration with one more table is the earlier stream followed by that table's pairs, its `scan_table` starting from the markers the earlier pairs left |
| Producers.StreamPrefixMono | src/auth_to_notification/producers.py:11-15 | the stream of a shorter prefix of the configuration is a prefix of the stream of a longer one |
| Producers.TablePages | src/auth_to_notification/producers.py:53-61 | every page fetched for a table has between 1 and pack_size rows |
| Producers.YieldedBatchProperties | src/auth_to_notification/producers.py:45-76 | a batch `scan_table` yields is sorted and has between 1 and pack_size rows; each of its rows is a source-table row selected by the watermark read under the hard-coded key, hence at or after it; the batch is a prefix of the query result and precedes the rest |
| Producers.StreamShape | src/auth_to_notification/producers.py:34-37 | in one `scan` stream, a table appears at most once and only if it was not in flight when the scan began; when it appears, its batch is the first page of its keyset query |
| Producers.TableYieldIsFirstPage | src/auth_to_notification/producers.py:61-76 | one run of `scan_table` yields a prefix of the table's pages, at most one, and nothing iff the query is empty or the table is in flight |
| Producers.MarkAfterFrame | src/auth_to_notification/producers.py:69-74 | a run that yielded a batch leaves its table in flight with the batch's last row; one that yielded nothing changes no marker; no other table's marker changes |
| Producers.MarkAllMarks | src/auth_to_notification/producers.py:69-74 | after batches of distinct tables are yielded, each of those tables is in flight with the last row of its batch |
| Producers.MarkAllLeavesOthers | src/auth_to_notification/producers.py:69-74 | every table with no yielded batch keeps the marker it had |
| Producers.StreamPrefixInFlight | src/auth_to_notification/producers.py:34-76 | after any prefix of a scan's stream has been yielded, each of its tables is in flight with its batch's last row, and every other table keeps its marker |
| Producers.Producer.constructor | src/auth_to_notification/producers.py:19-22 | a new producer has no table in flight |
| Producers.Producer.SetState | src/auth_to_notification/producers.py:24-28 | `set_state` stores the in-flight row, as its (id, updated_at) watermark, under `index_name:table` and clears that table's marker; no other marker and no other checkpoint key changes |
| Producers.Producer.ScanTable | src/auth_to_notification/producers.py:45-76 | `scan_table` yields nothing if the table is in flight or the query is empty; otherwise it yields exactly the first page, marks its last row, and stops at the second page; no other marker and no checkpoint changes |
| Producers.Producer.ScanNext | src/auth_to_notification/producers.py:13-14 | one table's run of `scan_table` yields at most one batch, extends the stream by that table's pairs, and leaves the markers those pairs set |
| Producers.Producer.ScanAll | src/auth_to_notification/producers.py:34-37 | `scan` returns the specified stream; every table that yielded is then in flight with its batch's last row, and every other table keeps its marker |
| Loaders.SetColumnsAllButId | src/auth_to_notification/loaders.py:26-28 | the update clause names every column except `id` |
| Loaders.SetClauseIsFilter | src/auth_to_notification/loaders.py:26-28 | the update clause is the `User` columns with `id` filtered out, in declaration order |
| Loaders.UpsertStatementShape | src/auth_to_notification/loaders.py:29-33 | `UpsertStatement`, the statement `load` builds: it targets `schema_to.table`, lists every `User` column, inserts the batch, resolves conflicts on `id`, and sets every other column on conflict |
| Loaders.SetClauseKeepsIdentity | src/auth_to_notification/loaders.py:26-32 | the update clause keeps the stored row's id and takes every other field from the incoming row |
| Loaders.UpsertRowFrame | src/auth_to_notification/loaders.py:31-32 | one row of the statement adds its key if absent, stores the incoming row as it is when the key was new, and leaves every other key as it was |
| Loaders.ExecuteFrame | src/auth_to_notification/loaders.py:29-35 | whatever its assignments, a statement deletes no row, adds rows only to its target table, and leaves every row of another table as it was |
| Loaders.UpsertRowOverwrites | src/auth_to_notification/loaders.py:31-32 | on well-keyed rows, one row of the statement inserts or overwrites its key with the incoming row and keeps the rows well keyed |
| Loaders.WrittenKeys | src/auth_to_notification/loaders.py:31 | the keys a batch writes are exactly its ids in the target table |
| Loaders.WrittenFromBatch | src/auth_to_notification/loaders.py:31 | each written key holds a row of the batch with that id |
| Loaders.WrittenDistinct | src/auth_to_notification/loaders.py:31 | with distinct ids, each row of the batch is written as it is |
| Loaders.ApplyValuesIsOverwrite | src/auth_to_notification/loaders.py:29-35 | running the statement's rows in order overwrites the batch's keys (last row per id wins) and keeps every other key |
| Loaders.UpsertIsOverwrite | src/auth_to_notification/loaders.py:29-35 | the statement `load` builds overwrites the batch's keys in `schema_to.table` and keeps the destination well keyed |
| Loaders.UpsertSemantics | src/auth_to_notification/loaders.py:24-35 | every batch row is present afterwards; with distinct ids, a new id is inserted as is and an existing one keeps its id and takes every other column from the batch; rows of other tables and other ids are unchanged |
| Loaders.UpsertIdempotent | src/auth_to_notification/loaders.py:31-32 | running the same upsert twice leaves the destination as running it once |
| Loaders.Destination.Run | src/auth_to_notification/loaders.py:35 | `execute` sends the statement; the statement changes the rows only when it runs, and a failing one changes nothing |
| Loaders.Loader.constructor | src/auth_to_notification/loaders.py:20-22 | a loader writes through the given destination into schema_to |
| Loaders.Loader.Load | src/auth_to_notification/loaders.py:24-35 | `load` sends exactly one upsert for the batch, applies it only if it runs, and reports how it ended |
| LoadData.FirstOtherIsFirst | src/load_data.py:29-35 | the computed stop is the least attempt raising something other than `Error`, or the end of the pass |
| LoadData.AttemptedCount | src/load_data.py:29-35 | the pass attempts every pair, or the pairs up to and including the first non-`Error` exception, which is the only such exception among them |
| LoadData.PassOutcomeRaisedIff | src/load_data.py:31-35 | the load part of a pass raises iff one of its load attempts raises something other than `Error` (a scanner exception is added by `PassEndRaisedIff`) |
| LoadData.OneStatementPerPair | src/load_data.py:29-32 | one statement is sent per attempted pair, in stream order, and each is that pair's upsert |
| LoadData.SucceededArePairs | src/load_data.py:31-35 | only pairs of the pass are counted as loaded |
| LoadData.FailedLoadsAreSkipped | src/load_data.py:31-35 | fault isolation: a pair whose load raises `Error` contributes nothing, and the pass is as if only the successful pairs had been loaded |
| LoadData.ApplyAllIsOverwrite | src/load_data.py:29-32 | loading pairs in order overwrites each written key with the row of the last pair that writes it and keeps the rest |
| LoadData.ReloadChangesNothing | src/load_data.py:64-74 | reloading the same pairs on a later pass leaves the destination unchanged |
| LoadData.Consumed | src/load_data.py:27-35 | the pairs reaching `load` are a prefix of the stream; no attempt before the last of them raises a non-`Error` exception; if the prefix stops short of the stream, its last attempt raised such an exception; without a non-`Error` exception every pair is loaded; without an index name none is |
| LoadData.UnassignedIndexNameLoadsNothing | src/load_data.py:25-28 | without an index name, every pass raises and loads nothing; with one, a one-row batch does land in the destination |
| LoadData.TransferStopsAtFirstRaise | src/load_data.py:64-80 | the passes run are exactly those up to the first pass that raises (through a scanner or a load exception), or all of them; the run raises iff its last pass does |
| LoadData.CleanPassesConverge | src/load_data.py:64-74 | passes with no scanner fault and no load failure over an unchanged source all finish and leave the destination as the first pass did |
| LoadData.CleanLoadIsApply | src/load_data.py:31-32 | in a pass without failures every pair is loaded |
| LoadData.ExtractionManager.constructor | src/load_data.py:40-48 | as written: a fresh producer with no table in flight, a loader over the destination, and no index name |
| LoadData.ExtractionManager.WithIndexName | src/load_data.py:40-48 | the same construction with the index name assigned |
| LoadData.ExtractionManager.ExecuteEtl | src/load_data.py:27-36 | the destination rows, the statements sent and the markers are those of loading the consumed prefix of the pairs the scanner hands out before any scan fault; the outcome is `Raised` iff there is no index name, the scanner raises, or some attempt raises a non-`Error` exception; no checkpoint changes |
| LoadData.ExtractionManager.DrainScanner | src/load_data.py:29-35 | draining the scanner loads the pairs it hands out up to and including the first non-`Error` load exception; a scanner exception ends the pass as `Raised`, whatever its kind; the markers are those of the consumed pairs; no checkpoint changes |
| LoadData.ScanFaultTruncates | src/load_data.py:29-35 | a scanner that raises hands out a prefix of the full stream; one that does not hands out all of it |
| LoadData.PassEndRaisedIff | src/load_data.py:29-35 | a pass raises iff the scanner raises or some load attempt raises a non-`Error` exception; a scanner `Error` is not caught |
| LoadData.ExtractionManager.EtlTable | src/load_data.py:29-35 | one table's batches are scanned and loaded in turn; the destination stays in step with the pairs consumed, and the step raises only at the pass's first non-`Error` attempt |
| LoadData.ExtractionManager.LoadPairs | src/load_data.py:29-35 | each pair goes to `load` in order; `Error` moves on; any other exception stops at exactly that attempt |
| LoadData.ExtractionManager.LoadNext | src/load_data.py:31-35 | one attempt ends as its fault says, and it raises a non-`Error` exception exactly at the pass's first such attempt |
| LoadData.TransferPass | src/load_data.py:66-71 | one pass of `transfer` builds a fresh manager, loads the consumed prefix of what the scanner hands out and ends as that pass's faults say; checkpoints never change |
| LoadData.Transfer | src/load_data.py:51-80 | each pass uses a fresh manager over the same checkpoints; the destination, the statements sent, the number of passes run and the outcome are those of `RunPasses`; checkpoints never change |

## Left out

- The scanner's laziness is not modelled. `scan_table` is a generator that the `for` loop of `execute_etl` resumes after each `load`. The model runs a table's `scan_table` to completion and then loads what it yielded. This is equivalent because nothing in the pass acknowledges a batch. Without an acknowledgement, the marker set by the first page stops the second page whether or not the loads happen in between.
- The connection layer, the SQL text, quoting and `fetchmany`'s `itersize` are not part of this model. A statement is a datatype. Whether an attempt runs, raises `Error` or raises anything else is a parameter (`Fault`).
- The column-to-field mapping at producers.py:51-65 is not modelled; the model takes each fetched row to be the source row itself. As written, `" ,".join(fields)` (line 51) followed by `split(",")` (line 59) leaves a trailing space on every field name but the last (`"username "`), and the names are zipped with `row[1:]`, which drops the first selected column. Read from the text, not executed: those keys match no `User` field, so `User(**...)` at line 63 lacks at least two of the required fields `username`, `is_verifed` and `is_active` and rejects every row of every non-empty page. That exception is raised inside the scanner, outside the `try` at load_data.py:31-35. In the model it is the pass's scan fault `Some(k)`, with `k` the first configured table whose query is not empty.
- Loaders.Loader.Load: the model builds the intended statement, one upsert of the batch's rows with the `User` columns. As written, line 25 calls `User.dict()` on the class rather than on an item, and the `values` and set clauses are built from that call. The model assumes the intended per-row values and takes every non-id column from the incoming row.
- Loaders.ApplyValuesIsOverwrite: two rows of one batch with the same id resolve last-wins. PostgreSQL rejects such a statement, and the model does not capture that error.
- The checkpoint store's own code (`state.py`, Redis) is not part of this model. It is an abstract map with a fixed minimum watermark for missing keys. An error of `get_state` is one case of the pass's scan fault; `set_state` is never called in a pass.
- Producers.Producer.SetState: the model stores the in-flight row's (id, updated_at) (`WatermarkOf`), while producers.py:26 hands the whole `User` to `state.set_state`; that the store keeps only those two fields is an assumption about `state.py`, which is not part of this model. It also requires the table to be in flight. As written, a table with no marker raises `KeyError`, and a cleared marker (`None`) would be stored. Nothing in the core calls `set_state`.
- Producers.Producer.ScanTable, Producers.Producer.ScanNext, Producers.Producer.ScanAll, LoadData.ExtractionManager.ExecuteEtl, LoadData.ExtractionManager.DrainScanner, LoadData.ExtractionManager.EtlTable, LoadData.TransferPass and LoadData.Transfer: require `pack_size > 0` for every configured table (`PositiveSizes`), since `fetchmany` with a non-positive size is outside the model.
- A table missing from the source database reads as empty rather than raising.
- UUIDs and timestamps are integers. The model keeps their total orders, not their formats.
- Logging, `sleep(settings.wait_up_to)`, Sentry initialisation and the connection context managers are left out. Settings are parameters. Their defaults (settings.py:20-22) are the tables `[("user", 1000)]` and the schemas `users` and `notifications`.
- LoadData.Transfer: the endless `while True` loop is bounded by the finite list of passes given. Every pass sees the same source snapshot.
- LoadData.TransferPass and LoadData.Transfer: they use the corrected `WithIndexName` construction. As written, every pass raises before scanning (see Findings).

## Findings

| source | as written | input that shows it | evidently intended | confidence | as-written member | corrected member |
|---|---|---|---|---|---|---|
| src/load_data.py:25-48 | `index_name` is only annotated on `ExtractionManager`, and `ExtractionUsersManager.__init__` never assigns it. The first line of `execute_etl` raises `AttributeError`, which is not `Error`, so `transfer` returns after its first pass having loaded nothing | any configuration and any source rows, e.g. one `user` row | the manager is built with an index name and each pass drains the scanner into the loader | medium, not executed | LoadData.ExtractionManager.constructor and LoadData.UnassignedIndexNameLoadsNothing | LoadData.ExtractionManager.WithIndexName |
