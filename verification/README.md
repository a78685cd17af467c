# go-dbevent in Dafny

A model of the core of go-dbevent, an event log kept in MySQL. Producers append
events to an `events` table. Consumers in a read group take turns at a lease
(`event_locks`), read the events above their group's cursor (`event_offsets`),
hand them to a handler and move the cursor forward.

The model has five modules:

- `Results` (results.dfy): `Option`, `Result` and `Status`.
- `Types` (types.dfy): the `Event` and `DBConfig` values, `DBConfig.ToDSN` with a
  parser that inverts it, and the `JSON` column type's `Value` and `Scan`. `Scan`
  assigns through its receiver, so it is a method on a `JSONCell` class.
- `Backoff` (backoff.dfy): `BackOffConfig`, and `Backoff` as a class whose
  `previousBackoffMs` field `NextBackoffMs` advances and `ResetSleepBackoff`
  clears. The random factor is a fraction. The jitter is a nondeterministic
  choice in `[min, max)`.
- `Consumer` (consumer.dfy): `ConsumerConfig` and `Consumer` as classes.
  - The loop of `Consume` runs against a script. Each turn is given the driver's
    reply and the outcome of every handler and commit call.
  - The calls made on the driver, the handler and the backoffer are recorded in a
    ghost `trace`.
  - `Close` is the `closed` flag of a turn. It is read at the top of the loop.
- `MySQLDriver` (mysql.dfy): the three tables as two maps and a sequence in a
  `MySQLDriver` class.
  - `lock`, `getEvents`, `Fetch`, `CommitInTrans` and `Create` are methods on
    that class.
  - Each is proved against a specification function of the tables: `Upsert`,
    `QueryEvents`, `FetchReply`, `CommitOffsets`, and `ParamsOf` with `BindRows`.
  - Time is an integer number of seconds passed in.
  - Each statement the database could reject has a fault flag. Reading a result
    set can also break off after a given number of rows.

The model also has two scenario methods. `Backoff.NoRandomScenario` asserts the
deterministic run 1000, 2000, 4000, 8000, then 1000 after a reset. The run is the
one in backoff_test.go:7-33. `Consumer.HandlerFailsTwiceScenario` asserts a run
of two turns whose handler fails. It makes two fetches and two sleeps, matching
consumer_test.go:85-127.

## Model

| member | source | states |
|---|---|---|
| Backoff.Backoff.constructor | backoff.go:22-40 | A zero multiplier becomes 2, a zero random factor 0.2, a factor of -1 becomes 0 and a zero initial delay 1000. Other values are kept, in the caller's configuration. The state starts at 0. |
| Backoff.Backoff.NextBackoffMs | backoff.go:43-63 | The result is a delay that `IsNextDelay` allows after the previous one. The initial delay follows 0. Otherwise it is a base in the truncated jitter range (its low end when the range is empty) times the multiplier. The result becomes the previous delay. |
| Backoff.Backoff.SleepBackoff | backoff.go:66-70 | Advances the state exactly as one `NextBackoffMs` call does. |
| Backoff.Backoff.ResetSleepBackoff | backoff.go:73-75 | Clears the previous delay, so the next call returns the initial delay. |
| Backoff.TruncDiv | backoff.go:49-50 | The int conversion truncates toward zero. This holds for negative quotients too. |
| Backoff.ZeroFactorBounds | backoff.go:49-50 | With a zero factor, `min == max == prev`. |
| Backoff.DeterministicStep | backoff.go:49-58 | Without jitter, a call after a delay `prev` returns exactly `prev * multiplier`, and nothing else. |
| Backoff.DeterministicClosedForm | backoff.go:43-63 | Without jitter, a run of delays after creation or a reset is possible if and only if the n-th delay is `initial * multiplier^n` for every n. |
| Backoff.JitterBounds | backoff.go:49-56 | For a factor in [0, 1], the base drawn lies between `prev * (1 - f)` (less the truncation) and `prev * (1 + f)`. |
| Backoff.DefaultSecondDelayRange | backoff.go:49-58 | With the defaults, the second delay lies in [1600, 2398], and both ends can occur. |
| Consumer.Consumer.constructor | consumer.go:43-58 | `WaitChangeTimeoutSec` 0 becomes 20 and `BatchSize` 0 becomes 10. Other values are kept, in the caller's configuration. |
| Consumer.Consumer.Close | consumer.go:61-63 | Clears `running`. |
| Consumer.Consumer.Consume | consumer.go:73-111 | Sets `running` and runs turns up to and including the first in which Close is called. The trace is the calls of exactly those turns. `running` ends false if and only if some turn closed. |
| Consumer.Consumer.RunTurn | consumer.go:79-107 | One loop body: the trace grows by exactly that turn's calls, and `running` drops if Close was called. |
| Consumer.Consumer.RunBatch | consumer.go:89-103 | The inner loop appends the calls for the events in order, up to and including the first failure. |
| Consumer.Consumer.RunAttempt | consumer.go:91-102 | The handler, then on success the commit, then a reset if both succeeded or one sleep otherwise. It reports whether the event was delivered. |
| Consumer.AttemptOutcome | consumer.go:91-102 | One event is handled once. A commit is made if and only if its handler succeeded. Then comes one reset if it was delivered, one sleep if not. It makes no fetch or wait. |
| Consumer.BatchOutcome | consumer.go:89-103 | The handled ids are those of the events up to and including the first failure, in fetched order, and the rest are skipped. There is one reset per delivered event and one sleep if something failed. There is a commit for every event whose handler succeeded. |
| Consumer.CommitFollowsSuccessfulHandle | consumer.go:91-96 | Every commit call comes right after a successful handler call for the same event. |
| Consumer.OneFetchPerTurn | consumer.go:78-79 | Each turn starts with `Fetch(readGroup, BatchSize)` and fetches exactly once. |
| Consumer.FetchErrorTurn | consumer.go:81-85 | After a fetch error there is exactly one sleep. There is no reset, handler, commit or wait call. |
| Consumer.ResetBeforeEvents | consumer.go:87-89 | After a successful fetch, the backoff is reset before any event is handled. |
| Consumer.WaitChangeIffEmptyBatch | consumer.go:105-107 | WaitChange is called once, as the last call and with the configured timeout, if and only if the batch was empty. It is not called after a fetch error or after a non-empty batch that failed. |
| Consumer.TurnCounts | consumer.go:79-107 | The number of fetches, sleeps, resets and waits in one turn, for each kind of reply. |
| Consumer.FetchPerTurn | consumer.go:78-79 | Over a run, there are as many fetches as turns. |
| Consumer.FailingTurns | consumer.go:78-100 | When the first fetched event fails in every turn, there is one fetch, one sleep and one reset per turn, and no wait. |
| Types.ToDSN | types.go:55-57 | The DSN starts with `User + ":"` and ends with `")/" + DBName`. |
| Types.DecimalRoundTrip | types.go:56 | The `%d` rendering of the port reads back as the same int, negative ones included. |
| Types.ToDSNRoundTrip | types.go:55-57 | When the user and host hold no ':' and the password no '@', the DSN parses back to the same configuration. |
| Types.Value | types.go:28-33 | Empty data is written as NULL, and any other data as its own bytes. It never fails. |
| Types.ScanOutcomeOf | types.go:15-25 | A value that is not a byte slice is rejected and the receiver is left alone. Bytes are assigned the decoded message, and the decoder's error, if any, is returned. |
| Types.JSONCell.Scan | types.go:15-25 | A value that is not a byte slice returns an error and leaves the receiver unchanged. Otherwise the receiver holds what `ScanOutcomeOf` assigns. |
| Types.EmptyDataNotReadable | types.go:15-33 | Value writes empty data as NULL, and Scan as written rejects NULL. |
| Types.ScanNullable | types.go:15-25 | NULL reads back as empty data. Everything else is scanned as before. |
| Types.ValueScanRoundTrip | types.go:15-33 | With ScanNullable, every payload Value writes is read back unchanged, up to the database's JSON normalisation. |
| MySQLDriver.DataSourceName | driver/mysql.go:32 | The data source name ends with `?parseTime=true`. |
| MySQLDriver.DataSourceNameRoundTrip | driver/mysql.go:32 | With the option stripped, the data source name parses back to the configuration. |
| MySQLDriver.MySQLDriver.constructor | driver/mysql.go:31-55 | `LockTimeoutSec` 0 becomes 20 and other values are kept. The DSN gets the option appended. The tables start empty with the ids invariant. |
| MySQLDriver.Upsert | driver/mysql.go:160-166 | The upsert adds the name's row and no other key. |
| MySQLDriver.UpsertInserts | driver/mysql.go:160-161 | With no row, `(name, node, now)` is inserted and the caller holds the lease. |
| MySQLDriver.FreshLeaseKept | driver/mysql.go:163-164 | Another node's fresh lease is left exactly as it was, and the caller does not get it. |
| MySQLDriver.StaleTakeover | driver/mysql.go:163-164 | A stale lease passes to the caller, renewed to now. This relies on the left-to-right evaluation of the assignments. |
| MySQLDriver.RenewOwnLease | driver/mysql.go:163-164 | The holder's own call renews its `last_seen` to now. |
| MySQLDriver.UpsertHolds | driver/mysql.go:160-183 | The caller holds the lease afterwards if and only if there was no row, the row was its own, or the row was stale. A lease it holds is renewed to now, and one it does not get is untouched. |
| MySQLDriver.UpsertOnlyTouchesName | driver/mysql.go:160-166 | The rows of other names are unchanged. |
| MySQLDriver.MutualExclusion | driver/mysql.go:159-184 | After `a` got the lease, a distinct node calling within the timeout does not get it, and `a` keeps it. |
| MySQLDriver.TakeoverOnlyWhenStale | driver/mysql.go:163-164 | Another node's lease changes hands only if it was older than the timeout. |
| MySQLDriver.MySQLDriver.Lock | driver/mysql.go:159-184 | A failing upsert changes nothing and returns its error. Otherwise the table is upserted. A failing count returns its error. Otherwise the result says whether the caller holds the lease. |
| MySQLDriver.CurrentOffset | driver/mysql.go:127-140 | The group's offset, 0 with no error when the group has no row, and an error only when the read fails. |
| MySQLDriver.CommitSetsCursor | driver/mysql.go:241-264 | After a committed transaction, the group reads the event's id as its cursor, even if that is lower than before. Every other group reads what it read before. |
| MySQLDriver.FailedCommitKeepsCursors | driver/mysql.go:241-264 | A failing handler, or a failing begin, exec or commit, leaves every cursor as it was. |
| MySQLDriver.MySQLDriver.CommitInTrans | driver/mysql.go:241-264 | The handler runs if and only if begin and exec succeeded. The call succeeds if and only if the handler and the commit also do. The offsets change, to the event's id for that group, only then. |
| MySQLDriver.Above | driver/mysql.go:267 | Every selected row is a row of the table with an id above the offset. |
| MySQLDriver.ReadableIffData | types.go:15-33 | A stored row's data column scans if and only if its data is not empty. |
| MySQLDriver.ReadCap | driver/mysql.go:279 | `rows.Next` yields at most `limit` rows, and no more than the row count at which reading breaks off. |
| MySQLDriver.QueryEventsResult | driver/mysql.go:266-291 | A negative limit or a failing query is an error. Without a row of empty data above the offset, the read succeeds. A successful read returns at most `limit` rows, all from the table with an id above the offset and with data. Unless reading broke off, it returns fewer only when no other row qualifies. |
| MySQLDriver.EmptyDataFailsRead | driver/mysql.go:279-285 | A row with empty data among those the loop reaches makes the whole read fail with Scan's error. |
| MySQLDriver.ReadErrorLooksEmpty | driver/mysql.go:279-291 | A read that breaks off before its first row returns no rows and no error, because `rows.Err` is never consulted. |
| MySQLDriver.ScanErrorEndsRead | driver/mysql.go:279-287 | When the loop meets a row it cannot scan before reaching its cap, the read's result is Scan's error. |
| MySQLDriver.ReadEnds | driver/mysql.go:279-291 | When the loop stops at the end of the table or at its cap with every row scanned, the read returns exactly the rows above the offset it has met. |
| MySQLDriver.MySQLDriver.GetEvents | driver/mysql.go:266-291 | The row loop returns exactly `QueryEvents`: the first rows above the offset up to the limit or the break, or Scan's error for a row with empty data. |
| MySQLDriver.FetchWithoutLeaseIsEmpty | driver/mysql.go:211-221 | Without the lease, Fetch returns no events and no error, whatever the offset and event reads would do. |
| MySQLDriver.FetchExcludesOtherNodes | driver/mysql.go:211-221 | While one node's lease is fresh, another node's Fetch returns nothing or an error. |
| MySQLDriver.FetchAboveCursor | driver/mysql.go:211-238 | Every event Fetch returns is a row of the table above the group's cursor (0 without a row), and there are at most `limit`. |
| MySQLDriver.EmptyDataBlocksFetch | driver/mysql.go:211-238 | When the first event above a group's cursor has empty data, every Fetch by the lease holder that reaches a row fails with Scan's error. |
| MySQLDriver.MySQLDriver.Fetch | driver/mysql.go:211-238 | The lease table is upserted unless the upsert fails, and the reply is `FetchReply` of the tables. |
| MySQLDriver.AboveAfter | driver/mysql.go:267 | In an ascending table, the rows above the j-th selected row are exactly the selected rows after it. |
| MySQLDriver.CommitResumesAfterEvent | driver/mysql.go:248-267 | Committing the j-th event of a fetched batch moves the cursor so that the next read starts at the (j+1)-th. No event is skipped or read twice. |
| MySQLDriver.RowParams | driver/mysql.go:195 | Five parameters per event. |
| MySQLDriver.ParamsOf | driver/mysql.go:193-196 | Five parameters per event of the batch. |
| MySQLDriver.JoinedPlaceholders | driver/mysql.go:194-198 | n placeholder groups joined with "," hold 5n placeholders. |
| MySQLDriver.InsertPlaceholders | driver/mysql.go:188-199 | The INSERT has exactly as many placeholders as parameters. |
| MySQLDriver.BindParamsOf | driver/mysql.go:193-201 | Binding the parameters gives back every field of every event, in order, under consecutive ids. The data column is stored as given, up to the database's JSON normalisation. |
| MySQLDriver.StoredIdsIssued | driver/mysql.go:187-208 | Appending a batch under the next ids keeps the ids positive, ascending and below the counter. |
| MySQLDriver.MySQLDriver.BuildInsert | driver/mysql.go:188-199 | The loop builds one placeholder group per event after the fixed head, and the parameters `ParamsOf(batch)`. |
| MySQLDriver.MySQLDriver.Create | driver/mysql.go:187-208 | An empty batch, an event without a creation time (the column is NOT NULL, driver/mysql.go:97) or a failing exec is an error and changes nothing. Otherwise the batch is appended under consecutive new ids, and the ids invariant is kept. |

## Left out

- driver/mysqlchange.go is not part of this model. It holds the binlog listener, its goroutine and the channel that wakes `WaitChange`. In the consumer, WaitChange is a recorded call. The driver's own `WaitChange` and `Close` (driver/mysql.go:58-70) are not modelled.
- The goroutine around the loop of `Consume`, `CloseAndWait` and its `closeChan` handshake (consumer.go:66-70, 77, 109) are concurrency. A `Close` from elsewhere is the per-turn `closed` flag, read at the top of the loop.
- Consumer.Consumer.Consume: the script bounds the number of turns. A run in which Close is never called is modelled only up to the script's length.
- Consumer: the consumer's backoffer and driver are scripted collaborators. Its calls are recorded, not routed to the `Backoff` class or the `MySQLDriver` class.
- Consumer: consumer.go calls `CommitEvent` after the handler, and the driver implements `CommitInTrans`, which runs the handler inside the transaction. The consumer tests and mock use `CommitInTrans`. Each side is modelled as written.
- Logging (`log.Printf`, `fmt.Printf`) is left out.
- Backoff.Backoff.NextBackoffMs: the random factor is a fraction, and the jitter bounds are exact products truncated toward zero. float32 rounding of `prev * (1 ± f)` is not reproduced.
- Backoff.Backoff.NextBackoffMs: ints are unbounded, so the overflow of `baseMs * multiplier` after many failures is not modelled.
- Backoff.Backoff.SleepBackoff: `time.Sleep` is left out. `rand.Intn` is a nondeterministic choice.
- The bounds asserted by backoff_test.go:47-57 are not proved, because they do not follow from the code: the second delay can be up to 2398.
- SQL execution, `sql.Open`/`Ping` and their panics, `Provision` and the table DDL (driver/mysql.go:31-42, 73-157) are left out. The tables are in memory and start empty.
- Database failures are fault flags supplied by the caller. Which statement fails is not derived from the SQL.
- MySQLDriver.MySQLDriver.GetEvents: the query has no ORDER BY. The model returns the matching rows in table order, which is id order. `QueryEventsResult` and `FetchAboveCursor` claim no order. `CommitResumesAfterEvent` holds under the table-order reading only.
- MySQLDriver.MySQLDriver.GetEvents: a negative LIMIT is treated as a query error. Of the scan errors, only the data column's is modelled (Scan as written, on NULL). The other columns are taken to scan. `json.Unmarshal` of stored data is taken to succeed.
- MySQLDriver.MySQLDriver.GetEvents: a read that breaks off is a fault supplied by the caller (`rowsFailAt`). Which network or server error causes it is not modelled.
- MySQLDriver.MySQLDriver.CommitInTrans: after a failing exec, driver/mysql.go:253-255 returns without rolling back. The model records only that nothing is committed. The handler is a scripted outcome.
- MySQLDriver.MySQLDriver.Create: a failed INSERT may use up AUTO_INCREMENT ids in MySQL, but the model leaves the counter unchanged.
- MySQLDriver.MySQLDriver.Create: a NULL `created_at` is rejected, as the NOT NULL column does under MySQL's strict SQL mode. A non-strict server that stores a zero date instead is not modelled. Consecutive ids for one multi-row INSERT follow MySQL's default AUTO_INCREMENT lock mode.
- MySQLDriver.BindParamsOf: the `data` column is a MySQL JSON column, which rejects invalid JSON and normalises what it stores (key order, whitespace). The model stores and returns the bytes as given. No validation or normalisation is modelled.
- MySQLDriver.MutualExclusion: lock names and node ids are compared as exact strings, as under a binary collation. Under MySQL's default case-insensitive collation, "node" and "NODE" would match the same row and the same `lock_by`, so both callers would hold the lease. The model does not capture that.
- MySQLDriver.MySQLDriver.Lock: timestamps are whole seconds given by the caller. Errors that `insert ignore` turns into warnings, such as an over-long name, are not modelled.
- `json.Unmarshal` and `MarshalJSON` are taken as given. Scan receives Unmarshal's outcome as a parameter, and Value returns the bytes unchanged.
- Event ids are unbounded naturals. The width of the `INT`/`uint` columns is not modelled.
- builder.go, store.go, mock_ConsumerDriver.go and the example programs are left out.

## Findings

| source | as written | input that shows it | evidently intended | confidence | as-written member | corrected member |
|---|---|---|---|---|---|---|
| types.go:15-19 | `Value` writes empty data as NULL (types.go:28-31), but `Scan` rejects every value that is not a byte slice, NULL included. | An event created with empty `Data`. When `getEvents` reads its row, `Scan(nil)` fails, so every `Fetch` of a group whose cursor is below that event errors and the consumer backs off forever (`MySQLDriver.EmptyDataBlocksFetch`). | NULL reads back as empty data, so that every event the store writes can be read. | medium, not executed | Types.EmptyDataNotReadable | Types.ValueScanRoundTrip |
