# cfacdb.c in Dafny

A model of the row-processing core of the cFAC atomic-data reader, `cfacdb.c`. The core has three parts.

- **Opening a database (`cdb_open`).**
  - The `format` row of the `cfacdb` table is read through `format_cb` and C's `atol`.
  - A failing query means format 1. Any format other than 1 or 2 is refused.
  - The base schema runs, then the schema of the database's format, one statement at a time. The first failure aborts.
- **The level remap table `lmap` (`cdb_init`).**
  - `lmap` has one slot per level id in `[id_min, id_max]` and starts zero-filled.
  - The k-th id the level query returns writes k into its slot.
  - The transition readers turn database ids into 0-based level indices through this table. The radiative reader swaps the two ends; the autoionization and collisional readers keep them.
- **The grouping state machine of `cfac_db_ctrans`.**
  - Consecutive rows with the same `(ini_id, fin_id, type)` form a run. Each run becomes one sink call carrying the run's samples.
  - A key change flushes the pending run. The end of the stream flushes it too.
  - A step error returns 2 without flushing.

SQLite is replaced by its results, given as inputs:

- `Query` is a failed statement or the rows that `sqlite3_exec` would hand to a callback.
- A prepared statement is the sequence of rows it steps through, plus `StepEnd`. `StepEnd` says how the stepping stopped: `SQLITE_DONE`, `SQLITE_OK` or an error.
- The schema statements' results are a function from the statement's position to success.
- Each sink call is one element of an output sequence.

Floating-point values are opaque 64-bit patterns (`Double`). The reduced energy `1 + e/de` stored in `es` is kept as its two operands.

Modules:

- `common.dfy`: shared types and the reader return codes.
- `callbacks.dfy`: `atol`, `format_cb`, `sid_cb` and the row loop of `sqlite3_exec`.
- `levelmap.dfy`: the remap function and its properties.
- `database.dfy`: the `CfacDb` handle class, `cdb_open` and `cdb_init`.
- `transitions.dfy`: `cfac_db_rtrans` and `cfac_db_aitrans`.
- `grouping.dfy`: `cfac_db_ctrans` and the maximal-run specification it is proved against.

The code is followed where it and its documentation differ:

- `cfac_db_ctrans` falls into its error branch on `SQLITE_OK`. The other readers and `cdb_init` treat `SQLITE_OK` like `SQLITE_DONE`.
- A row with a non-positive collision strength is still stored and counted, although a warning says it is ignored. The `continue` only re-tests the loop condition.

## Model

| member | source | states |
|---|---|---|
| Callbacks.FormatCb | cfacdb.c:55-67 | returns 0 exactly when the row has one non-NULL column; otherwise returns -1 and leaves the format untouched; a stored value is in `int` range |
| Callbacks.SidCb | cfacdb.c:41-53 | returns 0 exactly when the row has one non-NULL column; otherwise returns -1 and leaves the session id untouched; a stored value is in `unsigned long` range (which value is stored: `ExecSidWellFormed`, `SessionRoundTrip`) |
| Callbacks.ToCInt | cfacdb.c:64 | the `long`-to-`int` store yields a 32-bit value, equal to the input whenever it fits |
| Callbacks.ToULong | cfacdb.c:50 | the store into `unsigned long` yields a value below 2^64, equal to the input whenever it fits |
| Callbacks.AtolDecimal | cfacdb.c:50 | `atol` reads back the decimal text of every integer, whatever non-digit text follows |
| Callbacks.UnsignedAtol | cfacdb.c:64 | `atol` of a digit run followed by a non-digit is the run's value |
| Callbacks.NegativeAtol | cfacdb.c:64 | `atol` of a minus sign and a digit run is the negated value |
| Callbacks.ExecFormatWellFormed | cfacdb.c:97-98 | with single-value rows only, the format query succeeds and keeps the last row's value (the initial zero when there is no row) |
| Callbacks.ExecSidWellFormed | cfacdb.c:150-152 | with single-value rows only, the session query succeeds and keeps the last row's `atol` value reduced into `unsigned long` (the previous id when there is no row) |
| Callbacks.ExecRowsRange | cfacdb.c:41-67 | a callback that stores only values in a range and leaves the destination alone on rejection makes the whole statement leave the initial value or a value in that range |
| Callbacks.ExecMalformedFails | cfacdb.c:59-61 | one row of another shape makes the whole statement fail |
| Database.DetectFormat | cfacdb.c:94-101 | a failing query gives format 1; any other format comes from a query every row of which was accepted; the format is always in `int` range |
| Database.VersionSchema | cfacdb.c:109-114 | the version schema is the v1 list or the v2 list: v1 for format 1, v2 for format 2 |
| Database.FormatOfNoRow | cfacdb.c:97-107 | a format table without the format row leaves format 0, which is refused |
| Database.FormatOfMalformedRow | cfacdb.c:97-101 | a malformed format row aborts the query and the database is taken as format 1 |
| Database.FormatOfWellFormedRows | cfacdb.c:97-101 | with well-formed rows the format is the last row's value, read by `atol` and truncated to `int` |
| Database.FormatRoundTrip | cfacdb.c:94-107 | a supported format written as decimal text is detected as that format |
| Database.ExecSchemas | cfacdb.c:109-130 | the statements sent are a prefix of the base schema followed by the v1 schema (format 1) or the v2 schema (otherwise); success iff every statement succeeds; on failure the failing statement is the last one sent and all before it succeeded |
| Database.Open | cfacdb.c:69-133 | a handle is returned iff the file opened, the detected format is 1 or 2 and every schema statement succeeds; the handle carries the detected format and no `lmap`; nothing is sent for a refused format; a returned handle sent every base and version statement in order; a refused supported database stopped at its first failing statement, every earlier one having succeeded |
| Database.LatestSession | cfacdb.c:150-158 | a failing session query reports failure and leaves the id; otherwise the id is the previous one or a value in `unsigned long` range |
| Database.SessionOfWellFormedRows | cfacdb.c:150-158 | with well-formed rows the session query succeeds and the id is the last row's `atol` value reduced into `unsigned long` |
| Database.SessionRoundTrip | cfacdb.c:150-158 | a session id below 2^64 written as decimal text is read back as that id |
| Database.CfacDb.constructor | cfacdb.c:80-85 | the zero-filled handle: format 0, session 0, no `lmap` |
| Database.BuildLevelMap | cfacdb.c:310-356 | a fresh zero-filled table of `id_max - id_min + 1` slots, then one write per level row; the result is `Remap` of the returned ids |
| Database.CfacDb.Init | cfacdb.c:135-361 | succeeds iff the session query succeeds, all six counts and the species row are found, and the level stream does not end in an error; on success the handle holds the session id, the counts, the species fields, the electron-number bounds and an `lmap` equal to `Remap` of the returned ids |
| Database.CfacDb.LoadLevels | cfacdb.c:289-356 | keeps the species row and the bounds, builds the table and fails exactly when the level stream ends in an error |
| LevelMap.Remap | cfacdb.c:310-356 | the table has `id_max - id_min + 1` slots |
| LevelMap.RemapLastWrite | cfacdb.c:344-347 | a slot holds the position of the last row that returned its id |
| LevelMap.RemapUnreturned | cfacdb.c:322 | the slot of an id never returned keeps its zero |
| LevelMap.RemapNamesItsRow | cfacdb.c:344-347 | a non-zero slot names a returned row that carries that slot's id |
| LevelMap.RemapDense | cfacdb.c:335-356 | for distinct ids the k-th returned id maps to k, a one-to-one map onto 0..count-1 |
| Transitions.RCallOf | cfacdb.c:526-538 | the sink data of one radiative row: `ii` from the table slot of the row's final level, `fi` from that of its initial level; its meaning in level positions is `RadiativeOrientation` |
| Transitions.ACallOf | cfacdb.c:590-597 | the sink data of one autoionization row, indices in the row's own orientation; its meaning in level positions is `AutoionizationOrientation` |
| Transitions.StreamCode | cfacdb.c:521-553 | a one-row-per-call reader returns 0 or 2, and 2 exactly when its stream ends in an error, `SQLITE_OK` counting as a normal end |
| Transitions.RadiativeOrientation | cfacdb.c:526-538 | a radiative call's `ii` is the position of the row's final level and `fi` that of its initial level |
| Transitions.AutoionizationOrientation | cfacdb.c:590-595 | an autoionization call's `ii` is the position of the row's initial level and `fi` that of its final level |
| Transitions.RTrans | cfacdb.c:492-554 | a null handle returns 1 with no calls; otherwise one call per row in row order, indices swapped through `lmap`, and 2 exactly when the stream ends in an error |
| Transitions.AITrans | cfacdb.c:557-613 | a null handle returns 1 with no calls; otherwise one call per row in row order, indices through `lmap`, and 2 exactly when the stream ends in an error |
| Grouping.RunsAreMaximal | cfacdb.c:653-707 | the runs concatenate to the rows, are non-empty, carry one key each, and neighbouring runs have different keys |
| Grouping.MaximalRunsUnique | cfacdb.c:653-707 | any partition with those properties is the one `Runs` builds |
| Grouping.RunCount | cfacdb.c:692-707 | a non-empty stream has one run more than it has key changes, and its last run has the last row's key; an empty stream has no run |
| Grouping.SinkCallsPartition | cfacdb.c:653-742 | the calls' sample buffers, concatenated, are the samples of the stream in order, non-positive strengths included; each call has `nd` ≥ 1 equal to its buffer lengths |
| Grouping.SinkCallsCount | cfacdb.c:663-707 | a completed stream makes one call per key change plus one, and none when empty |
| Grouping.SinkCallFields | cfacdb.c:692-720 | call k is the batch of run k, and neighbouring calls come from runs with different keys |
| Grouping.BatchOf | cfacdb.c:664-667 | the `cbdata` a run is flushed with; its fields are stated by `BatchOfFields` and its samples by `SinkCallsPartition` |
| Grouping.WithRow | cfacdb.c:709-720 | the scalar `cbdata` fields a row overwrites; `ReadRow` is proved to perform it and `BatchOfFields` states the result for a whole run |
| Grouping.BatchOfFields | cfacdb.c:709-720 | a batch's `ii`, `fi` and `type` come from the run's key; `de`, `ap0` and `ap1` come from its last row; so do `kl`, `ap2` and `ap3`, except that format 1 gives 0 |
| Grouping.BatchOrientation | cfacdb.c:709-710 | with distinct level ids, a batch's `ii` is the position of the run's initial level and `fi` that of its final level |
| Grouping.CollisionalOrientation | cfacdb.c:709-710 | the same for call k of the stream |
| Grouping.PrefixRunsWithin | cfacdb.c:625 | runs of a prefix of the stream are never longer than the runs of the whole stream, so a bound on the latter bounds the buffer index |
| Grouping.ReadRow | cfacdb.c:670-733 | on a key change the pending samples go to the sink if there are any, and the buffers restart with the row's sample; otherwise the row's sample is appended; either way the key becomes the row's key and the call fields come from the row |
| Grouping.CollectRows | cfacdb.c:653-742 | after all rows, the calls are the batches of every run but the last, and the buffers and call fields describe the last run |
| Grouping.CTrans | cfacdb.c:616-747 | a null handle returns 1 with no calls; a stream ending in `SQLITE_DONE` returns 0 with one call per maximal run; any other end returns 2 with the last run never flushed |

## Left out

- SQLite itself: opening, `sqlite3_exec`, prepare/bind/step/finalize and the error messages on stderr. The query results are inputs.
- The floating-point formulas are not modelled. These are the oscillator strength `gf` in `cfac_db_rtrans` and `1 + e/de` in `cfac_db_ctrans`. The calls carry the operands instead.
- Failure of `malloc` for the handle or for `lmap` is not modelled.
- The 32-bit truncation of `sqlite3_bind_int` on the session id is not modelled, because the query parameters are not modelled.
- Overflow of `long` inside `atol` is not modelled. C leaves it undefined.
- The `unsigned int` row counter of the level loop is unbounded in the model. It would wrap only after 2^32 rows.
- Database.CfacDb.Init: requires a handle that `cdb_open` opened. `cdb_init` uses the result of `cdb_open` without checking it for NULL, and the model does not model that crash.
- Database.CfacDb.Init: checks all six count queries before storing any of them. `cdb_init` stores each count before running the next query. The handle's fields after a failure are not modelled, because `cdb_init` closes the handle then.
- Database.CfacDb.Init: requires every level id to have a slot in `[id_min, id_max]`, because `cdb_init` writes `lmap` without a bounds check.
- Transitions.RTrans, Transitions.AITrans and Grouping.CTrans require every row's endpoints to have a slot in `lmap`, for the same reason.
- Grouping.CTrans: requires every run to have at most 256 rows, the size of the `es` and `ds` buffers. `cfac_db_ctrans` writes them without a bounds check.
- `cfac_db_ctrans` hands the sink pointers into its own `es` and `ds` stack buffers, which later rows overwrite. The model hands the sink copies of the filled prefixes, so a sink that keeps the pointers and sees them change is not modelled.
- The readers read level ids, `type` and `kl` through the 32-bit `sqlite3_column_int` into `unsigned int`, and `cdb_init` reads level ids through `sqlite3_column_int64` into `int`. The model's rows carry unbounded integers, so the truncation and the unsigned wrap of out-of-range values are not modelled.
- `cfac_db_close`, `cfac_db_cstates` and `cfac_db_levels` are not part of this model. They free memory, or stream rows one per call without any index or grouping logic.
- faclib/array.h, faclib/interpolation.c, the header-only physics modules, cfacdbu.c, faclib/init.c and the browser UI are not part of this model.
