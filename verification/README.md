# Verified model of the quilla-be-kit messaging, persistence, routing and shutdown core

The project models the parts of quilla-be-kit whose guarantees span several calls or several
processes, and proves them for every input, every interleaving or every reachable state.

- **Messaging.** The event bus table and the outbox table as state machines over the SQL
  statements that any number of replicas issue in any order (`EventBus`, `Outbox`); the classes
  that issue those statements (`PostgresEventBus`, `PostgresLocalOutbox`); the polling consumer
  and the forwarder as processes and as the classes that run them (`ConsumerProcess`,
  `PollingConsumer`, `ForwarderProcess`); the outbox insert read back from its text
  (`OutboxInsert`); all of them together, with crashes, lost answers and
  late replicas (`Pipeline`). On top: no message is lost, no row is removed without a reason,
  every acknowledgement is earned (`Guarantees`), both queues settle (`Draining`,
  `OutboxDraining`), and one run in full (`Delivery`).
- **Read side.** Filter keys (`FilterKeys`, `GeneratedKeys`), the WHERE clause character by
  character with its parameters, read back through a lexer, SQL's precedence and three-valued
  logic (`SqlText` to `QueryBuilder`, `LikePatterns`), the page and total statements, read back
  from their text (`SelectStatement`, `PageReading`), and what they return (`Pagination`).
- **Write side.** The adapter's four statements and the parameter each placeholder stands for
  (`WriteStatements`, `WriteLayouts`, `WriteTexts`); the same statements read back from their
  characters by a reader that knows only SQL's shape, and run on their parameters
  (`StatementReading`, `WriteReading`, `WriteReadBack`, `WriteEffects`, `LockedWrites`); the DAO
  over a table of rows (`WriteDao`, `BaseWriteDao`), the bulk update against the loop it stands for
  (`BulkUpdate`), optimistic locks over whole runs (`RowVersions`), the unit of work as an
  effect trace and as objects (`UnitOfWorkTrace`, `UnitOfWorkObjects`), the persistence mapper
  (`Mapper`, `CaseNames`).
- **HTTP and runtime.** Route composition, sorting and matching (`RoutePaths`, `Router`) and
  phased shutdown (`ShutdownProcess`, `ShutdownManager`).

A class of the source whose methods update fields is a class here, and its methods are proved
against the functions of the module that states the property. A lemma whose name ends in `Iff`
gives the exact condition of a property that does not hold everywhere; a lemma beside it shows
one input for which it fails.

Where the code differs from what its comments or documentation say, the model follows the code:

- The comment above `claim` says that the advisory lock closes the race between NOT EXISTS and
  UPDATE. The lock is taken after the statement's snapshot: `EventBus.SnapshotClaim` says when a
  claim from an older snapshot keeps one batch per aggregate, and
  `EventBus.StaleSnapshotSplitsAggregate` gives two rows for which it does not.
- Raw `where` fragments are documented as ANDed. They are joined without parentheses, so a
  top-level OR escapes the join (`SqlPrecedence.TopLevelOrEscapesIff`).
- The query schema offers operator keys for any field of its shape; dotted fields and fields
  with a trailing underscore get keys that the builders reject (`GeneratedKeys`).
- `countSql` is documented as the total of the page statement; with DISTINCT ON, and for an
  ungrouped aggregate, it is not (`Pagination.TotalIsRowCountIff`).

## Model

| member | source | states |
|---|---|---|
| EventBus.InvStep | packages/messaging/src/postgres/pg-event-bus.ts:46-184 | every statement of any client keeps: each row ever inserted is live, acknowledged or swept and only one of these; rows keep their message; one live row per origin; one claim batch per aggregate; claim columns set only while CLAIMED; FAILED exactly at the retry limit; every claim paid for. A claim may take any eligible rows within its limit |
| EventBus.ClaimedAggregateHasOneBatch | packages/messaging/src/postgres/pg-event-bus.ts:100-135 | after any sequence of statements from an empty table, two CLAIMED rows of one aggregate have the same holder and the same claim time |
| EventBus.ClaimsAreBounded | packages/messaging/src/postgres/pg-event-bus.ts:141-162 | in every run a held row has been claimed at most maxRetries times plus the stale resets that took a claim back |
| EventBus.BudgetHoldsIffOneTryAllowed | packages/messaging/src/postgres/pg-event-bus.ts:141-152 | FAILED means no retries left in every run if and only if maxRetries is at least 1 |
| EventBus.SnapshotClaim | packages/messaging/src/postgres/pg-event-bus.ts:95-131 | a claim whose guard was read in an older snapshot keeps one batch per aggregate exactly when no chosen row's aggregate became busy since |
| EventBus.StaleSnapshotSplitsAggregate | packages/messaging/src/postgres/pg-event-bus.ts:111-131 | a reachable-state invariant, a snapshot and a claim after which two consumers hold rows of one aggregate |
| EventBus.DedupWindow | packages/messaging/src/postgres/pg-event-bus.ts:49-93 | an insert with an origin takes effect exactly when no live row has that origin, whatever was inserted and removed before |
| PostgresEventBus.PgEventBus.Publish | packages/messaging/src/postgres/pg-event-bus.ts:46-93 | a new origin stores one PENDING row; a known one stores nothing and returns the live row's id, or fails exactly when that row is gone by the second statement, whatever others do in between |
| PostgresEventBus.PgEventBus.Claim | packages/messaging/src/postgres/pg-event-bus.ts:100-135 | with nothing locked and room for all it claims exactly the PENDING rows whose type is any of the requested ones (any type for an empty list) and whose aggregate is null or has no CLAIMED row; otherwise the oldest of those not locked, up to the limit; a claimed row changes only in status, holder and claim time |
| PostgresEventBus.PgEventBus.MarkFailed | packages/messaging/src/postgres/pg-event-bus.ts:141-152 | one more retry, FAILED exactly at the limit and PENDING before it, claim columns cleared, no other row touched |
| PostgresEventBus.PgEventBus.ResetStale | packages/messaging/src/postgres/pg-event-bus.ts:154-162 | exactly the CLAIMED rows claimed before the given time go back to PENDING with claim columns cleared, counted; no other row changes |
| PostgresEventBus.PgEventBus.CleanupFailed | packages/messaging/src/postgres/pg-event-bus.ts:164-184 | removes expired FAILED rows only, the oldest first under a positive limit, all of them for a limit of zero, and counts them |
| Oldest.SkippingIff | packages/messaging/src/postgres/pg-event-bus.ts:123-125 | what ORDER BY, LIMIT and SKIP LOCKED can return for some set of locked rows is exactly any part of the pool within the limit |
| Draining.BacklogFalls | packages/messaging/src/postgres/pg-event-bus.ts:100-152 | without inserts and stale resets no statement raises the backlog measure and each that moves the queue lowers it |
| Draining.DrainingTerminates | packages/messaging/src/postgres/pg-event-bus.ts:100-152 | however clients interleave, the statements that move the queue number at most the initial backlog |
| Draining.DrainedIffAllFailed | packages/messaging/src/postgres/pg-event-bus.ts:141-152 | the backlog is zero exactly when every remaining row is FAILED |
| Draining.NeverStuck | packages/messaging/src/postgres/pg-event-bus.ts:113-122 | while a row is not FAILED, any client that asks for no topics or for a list with that row's type has an enabled statement that moves the queue: the aggregate guard cannot deadlock it |
| Outbox.InvStep | packages/messaging/src/postgres/pg-local-outbox.ts:51-165 | every statement keeps: a committed message is live or was cleaned up while SENT, rows keep their message, FAILED exactly at the retry limit, every claim paid for |
| Outbox.LeavesSentIff | packages/messaging/src/postgres/pg-local-outbox.ts:112-165 | a SENT row stops being SENT exactly by a late markFailed, back to PENDING exactly while a try is left, or by cleanup |
| OutboxDraining.ForwardingTerminates | packages/messaging/src/postgres/pg-local-outbox.ts:93-165 | also with late replicas that take SENT rows back to PENDING, claims and first answers number at most the initial backlog |
| PostgresLocalOutbox.InsertNumbersRows | packages/messaging/src/postgres/pg-local-outbox.ts:54-90 | for any number of entries the VALUES groups show the placeholders 1 to k in order, and entry i's fifteen parameters are the ones its group names |
| PostgresLocalOutbox.InsertedRowIsNew | packages/messaging/src/postgres/pg-local-outbox.ts:64-80 | the row that those fifteen parameters store is a fresh PENDING row of the entry's message |
| OutboxInsert.InsertReadsBack | packages/messaging/src/postgres/pg-local-outbox.ts:54-90 | the statement read back from its characters: its fifteen columns by name, and row i holds parameters 15 i + 1 to 15 i + 15 in their order |
| OutboxInsert.ColumnsStore | packages/messaging/src/postgres/pg-local-outbox.ts:64-88 | column by column, by name, what the emitted statement with its parameters stores for entry i: the entry's own fields, version 1 and the current time where it gives none, PENDING, no claim, no retries, no error, not published |
| PostgresLocalOutbox.PgLocalOutbox.Insert | packages/messaging/src/postgres/pg-local-outbox.ts:51-91 | the rows of the batch appear together as new rows, and the statement and parameters are the numbered layout; an empty batch changes nothing |
| PostgresLocalOutbox.PgLocalOutbox.Claim | packages/messaging/src/postgres/pg-local-outbox.ts:93-110 | with nothing locked and room for all it claims every PENDING row; otherwise the oldest of those not locked, up to the limit; a claimed row changes only in status, holder and claim time |
| ConsumerProcess.InvStep | packages/messaging/src/event-bus/event.consumer.ts:130-145 | the cached topic list is always the registered types, every claimed event waiting has a registered type, and with such a broker the unregistered-type branch is never taken |
| ConsumerProcess.HeadDecides | packages/messaging/src/event-bus/event.consumer.ts:198-213 | the next event is acknowledged unhandled exactly when this service sent it and its kind is one to skip, dispatched exactly when not so and its type has a handler |
| PollingConsumer.EventConsumer.Tick | packages/messaging/src/event-bus/event.consumer.ts:189-235 | whatever the awaits return, a tick takes only steps the process allows, with the answers the awaits gave, and ends idle; with topics and an answered claim it takes up every claimed event and sees each to its end, unless the consumer is stopping or a mark gets no answer; with no topics it claims nothing |
| PollingConsumer.EventConsumer.RunHandlers | packages/messaging/src/event-bus/event.consumer.ts:215-223 | runs every registered handler, also after a failure; reports no failure exactly when all returned, and otherwise the message of the last one to throw |
| PollingConsumer.EventConsumer.ExecuteWithRetry | packages/messaging/src/event-bus/event.consumer.ts:251-305 | between one and maxAttempts attempts, each but the last a throw, and all of them when the last throws; the failure is the last attempt's message, or before a stop the previous one's |
| ForwarderProcess.OutboxForwarder.Tick | packages/messaging/src/local-outbox/outbox.forwarder.ts:80-121 | whatever the awaits return, a tick takes only steps the process allows, with the answers the awaits gave one by one, where markSent needs an answered publish and every error before it leads to markFailed; it publishes every claimed entry and sees each to its end, unless the forwarder is stopping or a markFailed fails |
| Guarantees.NoMessageLost | packages/messaging/src/local-outbox/outbox.forwarder.ts:80-121 | in every reachable state of all replicas together a committed message is still in the outbox, or was cleaned up while SENT; and unless it is there and not SENT, it was on the bus with its own content |
| Guarantees.NoBusRowLost | packages/messaging/src/postgres/pg-event-bus.ts:137-184 | in every reachable state a bus row ever inserted is live with its message, was removed by markDone, or was swept as FAILED with no retries left, and exactly one of these |
| Guarantees.AckIsSound | packages/messaging/src/event-bus/event.consumer.ts:195-231 | in every reachable state a row removed by markDone was removed by a replica whose source the event carries and whose skipped kinds include its kind, or that had, in one dispatch, run every handler it had registered for the type and seen each return |
| Guarantees.OwnEventsAreSkipped | packages/messaging/src/event-bus/event.consumer.ts:198-204 | in every reachable state an event with the replica's own source and a skipped kind was never dispatched by it, and one that lacks either was never skipped |
| Guarantees.OnlyRegisteredTypes | packages/messaging/src/event-bus/event.consumer.ts:192-213 | in every reachable state a replica that is running a dispatch has a handler registered for that event's type |
| Delivery.DeliveryHappens | packages/messaging/src/event-bus/event.consumer.ts:189-235 | one run from empty tables in which a committed message is forwarded, marked SENT, claimed, handled once and acknowledged |
| FilterKeys.PrintThenParseIff | packages/persistence/src/postgres/pg-sql.ts:24-42 | a printed key parses back to its field and operator exactly for fields without the delimiter inside and without a trailing underscore |
| FilterKeys.SeparableIff | packages/persistence/src/postgres/pg-sql.ts:29-34 | such a field is one with no two underscores in a row and none at its end |
| FilterKeys.OperatorKeys | packages/persistence/src/query/field-descriptor.type.ts:3-14 | for a separable field each of the ten suffixes names its own operator |
| FilterKeys.UnknownOperator | packages/persistence/src/postgres/pg-sql.ts:35-40 | any other suffix, and no other, is an error |
| FilterKeys.SchemaKeys | packages/persistence/src/query-schema/zod.ts:101-111 | the schema declares exactly the bare field and one key per operator of its kind, for every field |
| FilterKeys.StringKeys | packages/persistence/src/query/field-descriptor.type.ts:25-31 | the keys of a string field, written out |
| FilterKeys.NumberKeys | packages/persistence/src/query/field-descriptor.type.ts:25-31 | the keys of a number field, written out, and a date field has the same |
| FilterKeys.ChoiceKeys | packages/persistence/src/query/field-descriptor.type.ts:25-31 | the keys of a boolean and of an enum field, written out |
| GeneratedKeys.ReadAcceptsIff | packages/persistence/src/postgres/pg-query-builder.ts:183-199 | the read side takes an operator key exactly for a separable field that is one plain identifier, and then filters the resolved column by that operator |
| GeneratedKeys.WriteAcceptsIff | packages/persistence/src/postgres/pg-sql.ts:144-169 | the write side takes an operator key exactly for a separable field |
| GeneratedKeys.ReadAcceptsAllIff | packages/persistence/src/query-schema/zod.ts:101-111 | the read side takes every key the schema generates if and only if every field is a separable identifier |
| GeneratedKeys.WriteAcceptsAllIff | packages/persistence/src/query-schema/zod.ts:101-111 | the write side takes every key the schema generates if and only if every field is separable |
| GeneratedKeys.DottedFieldFails | packages/persistence/src/postgres/pg-query-builder.ts:186-196 | the field a.b: bare key taken by the read side, operator key rejected there and taken by the write side |
| SqlText.RebaseQuestionMarks | packages/persistence/src/postgres/pg-query-builder.ts:244-266 | fails exactly when marks and parameters differ in number; otherwise every mark becomes the next placeholder and the parameters are appended in order |
| SqlText.PlaceholdersInOrderIff | packages/persistence/src/postgres/pg-query-builder.ts:250-259 | a rebased fragment without `$` shows exactly its own placeholders in order if and only if no mark is followed by a digit |
| FilterMeaning.FilterClauseMeans | packages/persistence/src/postgres/pg-sql.ts:52-84 | the rendered clause, lexed and evaluated with its pushed parameter, means its operator in three-valued logic for every column, operator, value and cast, is closed and has no top-level OR |
| LikePatterns.ContainsFindsIff | packages/persistence/src/postgres/pg-sql.ts:61-62 | with any ILIKE that takes % at either end for any text and folds the rest, the contains clause with its pushed parameter is true exactly when the folded column text has the folded text at some position, for texts without %, _ and backslash |
| LikePatterns.EmittedContainsFindsIff | packages/persistence/src/postgres/pg-query-builder.ts:183-199 | the same for the whole clause the read side emits for the key field__contains |
| LikePatterns.UnderscoreFindsAll | packages/persistence/src/postgres/pg-sql.ts:62 | the text is not escaped: searching for an underscore finds every text that is not empty |
| SqlPrecedence.TopLevelOrEscapesIff | packages/persistence/src/postgres/pg-query-builder.ts:176-180 | after an AND, a condition with a top-level OR keeps the conjunction's meaning exactly in the rows where the OR's right side implies the rest |
| SqlPrecedence.OrBetweenIff | packages/persistence/src/postgres/pg-query-builder.ts:176-180 | the same for an OR with conditions on both sides |
| SqlPrecedence.OrEscapesTheJoin | packages/persistence/src/postgres/pg-query-builder.ts:176-180 | a row that the join accepts and the conjunction does not |
| WhereClause.WhereMeansConjunction | packages/persistence/src/postgres/pg-query-builder.ts:168-181 | for resolved filters and raw fragments that stand on their own, the joined text with the collected parameters means the conjunction of all of them, wherever the numbering starts |
| WhereClause.SingleRawMeans | packages/persistence/src/postgres/pg-query-builder.ts:176-180 | a raw fragment alone means what it says even with a top-level OR |
| QueryBuilder.BuildWhereSql | packages/persistence/src/postgres/pg-query-builder.ts:168-199 | throws exactly when a key is rejected or a fragment's marks and parameters differ; otherwise returns the joined clauses and appends their parameters |
| QueryBuilder.EmittedWhereMeans | packages/persistence/src/postgres/pg-query-builder.ts:168-199 | for every filter map with usable columns and every list of such fragments, the emitted clause and parameters mean the conjunction; with nothing to say there is no clause |
| QueryBuilder.DefaultColumnsUsableIff | packages/persistence/src/query/default.resolver.ts:15-19 | with the default resolver and no overrides an accepted entry is usable exactly when its column is not AND, OR, NOT, BETWEEN, CASE or END |
| Placeholders.WherePlaceholdersIff | packages/persistence/src/postgres/pg-query-builder.ts:239-266 | placed after n parameters a clause shows the next k placeholders in order for its k parameters if and only if no fragment has a digit right after a mark (fragments without `$`, one parameter per mark) |
| Placeholders.DigitAfterMarkRunsOn | packages/persistence/src/postgres/pg-query-builder.ts:250-259 | the fragment a = ?5 with one parameter asks for parameter 15 |
| SelectStatement.Build | packages/persistence/src/postgres/pg-query-builder.ts:101-133 | throws exactly without a table or when the clause throws; otherwise returns the text of the page statement and, when paginated, of the total statement, both around one clause, with the clause's parameters |
| PageReading.PageReads | packages/persistence/src/postgres/pg-query-builder.ts:101-130 | for pieces that close their quotes the page statement lexes to SELECT, DISTINCT ON, columns, FROM, WHERE, GROUP BY, ORDER BY and LIMIT in this order, each followed by its own list |
| PageReading.FromTextReads | packages/persistence/src/postgres/pg-query-builder.ts:110-111 | the FROM part is the table and then every join in the order added |
| PageReading.LimitReads | packages/persistence/src/postgres/pg-query-builder.ts:127-128 | read back, the number after LIMIT is the page size and the number after OFFSET the offset |
| PageReading.CountRowsReads | packages/persistence/src/postgres/pg-query-builder.ts:232-235 | the total without GROUP BY counts the rows of the same FROM and WHERE |
| PageReading.CountGroupsReads | packages/persistence/src/postgres/pg-query-builder.ts:221-231 | the total with GROUP BY counts the groups of the same FROM, WHERE and GROUP BY |
| SelectStatement.BothStatementsNumbered | packages/persistence/src/postgres/pg-query-builder.ts:101-133 | both statements show exactly the placeholders of the shared parameters in order if and only if no fragment has a digit right after a mark |
| Pagination.KeptMeetAll | packages/persistence/src/postgres/pg-query-builder.ts:101-133 | over any rows, the emitted WHERE keeps exactly those in which every filter and fragment holds, for the page and for the total |
| Pagination.TotalIsRowCountIff | packages/persistence/src/postgres/pg-query-builder.ts:221-236 | over any database the emitted total is the row count of the emitted page statement without its LIMIT exactly when DISTINCT ON drops nothing and an ungrouped aggregate sums up one row |
| Pagination.DistinctTotalDiffers | packages/persistence/src/postgres/pg-query-builder.ts:122-130 | two rows with one DISTINCT ON value: one row shown, a total of two |
| Pagination.StatementsTileIff | packages/persistence/src/postgres/pg-query-builder.ts:121-130 | the statements for pages 1, 2, ... together return every row once and in order exactly when there are ceil(rows / size) of them, and ceil(total / size) when the total is the row count |
| Pagination.NoPageBeforeTheFirst | packages/persistence/src/postgres/pg-query-builder.ts:127-128 | a page number below 1 shows the first page |
| Pagination.ParsePagination | packages/persistence/src/query-schema/zod.ts:200-235 | absent exactly without both parameters; the page is the given positive number or 1; a positive size is cut to the maximum, an unusable one is the default as it is; strict issues exactly for given values that are not positive |
| Pagination.ParseIntReads | packages/persistence/src/query-schema/zod.ts:211-212 | blanks, an optional sign and the digits of a number, followed by anything that is not a digit, read as that number |
| Pagination.ParseIntOfText | packages/persistence/src/query-schema/zod.ts:211-212 | a written integer reads as itself |
| Pagination.ParsesIff | packages/persistence/src/query-schema/zod.ts:211-215 | there is a number exactly when a digit follows the blanks and at most one sign |
| WriteStatements.BuildWhere | packages/persistence/src/postgres/pg-sql.ts:144-169 | fails exactly for no filters or a rejected key; otherwise every clause is numbered from the given start and the pushed values are returned in that order |
| WriteStatements.WriteFilterReads | packages/persistence/src/postgres/pg-sql.ts:155-165 | a bare key or __eq is equality, or membership when its value is a list; every other suffix is its operator; exactly membership and its negation cast to an array of the column type |
| WriteStatements.CastsAre | packages/persistence/src/postgres/pg-sql.ts:91-131 | the cast of every column type as one table, arrays of an array operator one level deeper; every other type, or none, is cast to text |
| WriteStatements.StoredIs | packages/persistence/src/postgres/pg-write-db-adapter.ts:188-195 | a JSON column is sent NULL or text, a value that is neither as its JSON; every other column gets its value as it is |
| WriteStatements.CastTexts | packages/persistence/src/postgres/pg-sql.ts:159-165 | a cast is written as two colons, the type, and one pair of brackets per array level |
| WriteStatements.LockMeans | packages/persistence/src/postgres/pg-write-db-adapter.ts:83-91 | the optimistic lock as text and parameter is one plain condition on the row |
| WriteStatements.LockReads | packages/persistence/src/postgres/pg-write-db-adapter.ts:17-18 | token by token the lock compares updated_at with its parameter, cast to timestamptz and cut to the millisecond |
| WriteLayouts.LayoutNumbersRows | packages/persistence/src/postgres/pg-write-db-adapter.ts:49-60 | parameter i * width + j + 1 is the value of key j in row i |
| WriteLayouts.LayoutInOrder | packages/persistence/src/postgres/pg-write-db-adapter.ts:49-64 | the placeholders of a VALUES list are 1 to k for its k parameters |
| WriteTexts.BuildInsert | packages/persistence/src/postgres/pg-write-db-adapter.ts:40-67 | no statement without rows; otherwise the first row's keys decide, values come row by row, and for names without `$` the whole statement shows exactly the placeholders 1 to k for its k values |
| WriteTexts.BuildUpdate | packages/persistence/src/postgres/pg-write-db-adapter.ts:69-97 | fails exactly when the clause does; SET values, filter values and the expected version share one list, and for names without `$` the whole statement shows exactly the placeholders 1 to k for its k values |
| WriteTexts.BuildUpdateMany | packages/persistence/src/postgres/pg-write-db-adapter.ts:99-134 | no statement without rows or without a column besides the id; otherwise, for names without `$`, the whole statement shows exactly the placeholders 1 to k for its k values, ids included |
| WriteTexts.BuildDelete | packages/persistence/src/postgres/pg-write-db-adapter.ts:136-153 | fails exactly when the clause does; for names without `$` the whole statement shows exactly the placeholders 1 to k for its k values |
| WriteTexts.AssignmentStandsForValue | packages/persistence/src/postgres/pg-write-db-adapter.ts:73-77 | the assignment of key j shows placeholder j + 1 alone, and that parameter is what is stored for that key |
| WriteTexts.UpdateWhereMeans | packages/persistence/src/postgres/pg-write-db-adapter.ts:80-91 | after any SET values, the clause of an update means all its filters and the lock: no filter lets a row past the lock |
| WriteTexts.UpdateInOrder | packages/persistence/src/postgres/pg-write-db-adapter.ts:73-94 | SET, WHERE, lock and RETURNING texts put together show 1 to k in order for any plain casts |
| WriteReadBack.UpdateManyReads | packages/persistence/src/postgres/pg-write-db-adapter.ts:99-134 | the bulk statement read back from its characters: column keys[j] is assigned the data column of its own name, updated_at the clock; row i of the VALUES list holds parameter i * w + j + 1 under keys[j] and parameter i * w + w under id; rows are matched on id |
| WriteReadBack.InsertReads | packages/persistence/src/postgres/pg-write-db-adapter.ts:40-67 | the insert read back from its characters: its columns are the keys, created_at and updated_at; row i holds parameter i * w + j + 1 under keys[j] and the clock under both stamps; RETURNING lists what was asked for |
| WriteReadBack.UpdateReads | packages/persistence/src/postgres/pg-write-db-adapter.ts:69-97 | the update read back from its characters: column keys[j] is assigned parameter j + 1, updated_at the clock, and the condition is the clause with its lock |
| WriteEffects.BulkRunIs | packages/persistence/src/postgres/pg-write-db-adapter.ts:99-134 | the bulk statement, read back and run on its parameters, can leave exactly the tables the model of updateMany allows, for any rows, column types and table |
| WriteEffects.UpdateManyRuns | packages/persistence/src/dao/base-write.dao.ts:114-119 | the same for the DAO's rows as the caller gave them, so that the bulk-update results below are about the emitted statement |
| WriteEffects.InsertRuns | packages/persistence/src/postgres/pg-write-db-adapter.ts:40-67 | the insert, read back and run on its parameters, leaves the table the model of insert describes: the first row's columns for every row |
| WriteEffects.UpdateRuns | packages/persistence/src/postgres/pg-write-db-adapter.ts:69-97 | the update, read back and run on its parameters, assigns to a row what the model of update writes |
| LockedWrites.ByIdSelects | packages/persistence/src/dao/base-write.dao.ts:94-112 | the clause for an id, or a list of ids, and an expected version is true in exactly the rows with one of the ids and that version to the millisecond |
| LockedWrites.BuildUpdateById | packages/persistence/src/dao/base-write.dao.ts:94-108 | what is emitted and pushed for the filter { id } is the text and the parameters that UpdateByIdRuns speaks of |
| LockedWrites.UpdateByIdRuns | packages/persistence/src/dao/base-write.dao.ts:94-112 | the emitted update by id, locked or not, read back and run on a table, leaves the table the model of update describes |
| LockedWrites.DeleteByIdRuns | packages/persistence/src/dao/base-write.dao.ts:121-151 | the emitted delete by id removes that row exactly when it has the expected version; by a list of ids, exactly those rows |
| WriteDao.UpdateRowReads | packages/persistence/src/dao/base-write.dao.ts:161-166 | a prepared update never carries id, creation columns or the caller's updater; every other property goes through unchanged |
| WriteDao.InsertRowReads | packages/persistence/src/dao/base-write.dao.ts:153-159 | a prepared insert carries the user as creator and updater, never timestamps, and every other property unchanged |
| BaseWriteDao.Dao.Update | packages/persistence/src/dao/base-write.dao.ts:94-112 | fails, changing nothing, exactly when a version is expected and the row does not have it; otherwise writes the prepared columns of that row |
| BaseWriteDao.Dao.UpdateMany | packages/persistence/src/dao/base-write.dao.ts:114-119 | the table afterwards is one of the bulk statement's outcomes |
| BaseWriteDao.Dao.Delete | packages/persistence/src/dao/base-write.dao.ts:121-140 | removes that row, or fails and changes nothing exactly when a version is expected and the row does not have it |
| BaseWriteDao.Dao.CreateMany | packages/persistence/src/dao/base-write.dao.ts:87-92 | all prepared rows or none, none exactly when an id is taken or doubled |
| BulkUpdate.BulkRefinesLoopIff | packages/persistence/src/dao/base-write.dao.ts:114-119 | for rows of one shape every outcome of the one statement is what the row-by-row loop leaves if and only if rows for one stored id agree |
| BulkUpdate.BulkMatchesLoopIff | packages/persistence/src/postgres/pg-write-db-adapter.ts:99-134 | for distinct ids and rows of any shape, if and only if no row differs in shape from the first in a way the stored row would show |
| BulkUpdate.ExtraColumnIsDropped | packages/persistence/src/postgres/pg-write-db-adapter.ts:105-107 | two rows of which the second has one more column: the loop stores it, the statement drops it |
| RowVersions.NoLostUpdateIff | packages/persistence/src/postgres/pg-write-db-adapter.ts:78-91 | in every run of writes, stale versions are refused at every moment if and only if the row never gets one millisecond twice |
| RowVersions.SameMillisecondLosesUpdate | packages/persistence/src/postgres/pg-write-db-adapter.ts:16-18 | three writes, two in one millisecond: the third expects the first version and goes through over the second |
| RowVersions.CurrentVersionPasses | packages/persistence/src/postgres/pg-write-db-adapter.ts:84-91 | in every run a write that expects the current version matches |
| RowVersions.ReadThenWriteIff | packages/persistence/src/postgres/pg-write-db-adapter.ts:16-18 | a row stamped by others matches its own version as read exactly when its timestamp has no microseconds |
| RowVersions.OriginIsImmutable | packages/persistence/src/dao/audit-columns.ts:18-29 | no prepared write changes who created a row and when |
| UnitOfWorkTrace.TrackedInFirstOrder | packages/persistence/src/unit-of-work/unit-of-work.ts:38-50 | the tracked map lists each key once, in order of first registration, with the instance registered last |
| UnitOfWorkTrace.DrainedIff | packages/persistence/src/unit-of-work/unit-of-work.ts:41-59 | an instance's events reach the sink exactly when no other registration under its key came after its own |
| UnitOfWorkTrace.Atomic | packages/persistence/src/unit-of-work/unit-of-work.ts:29-79 | for every operation that swallows no statement failure: on success exactly its writes and one row per event owed, in order, are committed (CommittedByPosition says which these are); on failure nothing |
| UnitOfWorkTrace.AtomicWhenPropagated | packages/persistence/src/unit-of-work/unit-of-work.ts:29-79 | the same for every operation that lets statement failures propagate, also if it catches errors of its own |
| UnitOfWorkTrace.CommittedByPosition | packages/persistence/src/unit-of-work/unit-of-work.ts:54-71 | on success the committed rows are, by positions of the trace, the writes in order, then for each registered key in order of first registration the held and raised events of the instance registered last, then one row per published integration event in order; no event rows when events are not configured |
| UnitOfWorkTrace.IntegrationEventIsStored | packages/persistence/src/unit-of-work/unit-of-work.ts:59-63 | one published event and nothing else: its row is committed |
| UnitOfWorkTrace.SilentLossIff | packages/persistence/src/unit-of-work/unit-of-work.ts:54-75 | for any operation a success that stores less than was written happens exactly when a failed statement was caught, something was written, no event is owed and COMMIT reports no error |
| UnitOfWorkTrace.SilentLossHappens | packages/persistence/src/unit-of-work/unit-of-work.ts:54-75 | a refused audit write caught by the operation: success, and the order it wrote is not stored |
| UnitOfWorkTrace.RetryOwesIff | packages/persistence/src/unit-of-work/unit-of-work.ts:57-65 | a retry owes the same events again exactly when the first call failed before it drained them |
| UnitOfWorkTrace.NestingIsInvisible | packages/persistence/src/unit-of-work/unit-of-work.ts:29-33 | inner transaction() calls replaced by their bodies give the same outcome |
| UnitOfWorkObjects.UnitOfWork.Transaction | packages/persistence/src/unit-of-work/unit-of-work.ts:29-79 | the object code, nested or outermost, commits what the trace says, leaves each aggregate's buffer as the trace says, and ends the transaction |
| UnitOfWorkObjects.PgTransaction.Commit | packages/persistence/src/postgres/pg.transaction.ts:47-57 | commits the pending rows exactly when no statement failed and COMMIT works; an aborted transaction reports success and stores nothing |
| Mapper.RoundTripIffKeysReturn | packages/persistence/src/repository/base-persistence.mapper.ts:65-88 | every aggregate with these properties, whatever its values, comes back with its id and exactly its properties if and only if every key's column leads back to the key and is not id |
| Mapper.LeadsBackIff | packages/persistence/src/repository/base-persistence.mapper.ts:90-106 | an overridden key leads back unless a later override takes its column; another key does when no override takes its column and its name is canonical |
| Mapper.BasePersistenceMapper.ToDomain | packages/persistence/src/repository/base-persistence.mapper.ts:65-76 | the properties handed on are the row's columns but id, through the lazily cached inverse overrides |
| Mapper.DiscoverPersistedKeys | packages/persistence/src/repository/base-persistence.mapper.ts:114-135 | exactly the names, other than id and constructor, with a getter and a setter somewhere in the prototype chain, each once |
| CaseNames.NamesReturnIff | packages/persistence/src/query/case.ts:1-7 | a name survives the conversion to snake case and back exactly when every capital follows a lower-case letter or digit and no underscore precedes a letter or digit |
| CaseNames.WordsConvert | packages/persistence/src/query/case.ts:1-7 | for any words of two or more characters, firstSecondThird becomes first_second_third and that becomes it again |
| RoutePaths.JoinIsRender | packages/http/src/router/router.ts:271-280 | whatever the segments, the joined path is one slash before each of their parts, or the root |
| RoutePaths.TrimIs | packages/http/src/router/router.ts:273 | trimming takes blanks off both ends and leaves none there |
| RoutePaths.JoinIsAssociativeIff | packages/http/src/router/router.ts:271-280 | joining joined paths gives the join of all exactly when neither path ends in a blank |
| RoutePaths.JoinIsIdempotentIff | packages/http/src/router/router.ts:271-280 | joining a joined path changes nothing exactly when it does not end in a blank |
| RoutePaths.BlankBeforeSlash | packages/http/src/router/router.ts:271-280 | the segment "a /" for which neither holds |
| Router.PathSegments | packages/http/src/router/router.ts:195-202 | a route's path has the segments of module prefix, version, registration prefix, controller prefix and route path in this order, where the version is the route's own, else its controller's, else its module's |
| Router.BuildRoutes | packages/http/src/router/router.ts:179-262 | throws exactly when two routes share method and full path; otherwise returns all composed routes, higher specificity first and the longer path first among equals |
| Router.SortIsStable | packages/http/src/router/router.ts:306-309 | the table is sorted by specificity, then length, has the same routes, and equal ranks keep their declaration order |
| Router.NeverShadowed | packages/http/src/router/router.ts:295-309 | first match never picks a pattern when another that answers the request is nowhere outdone and somewhere outdoes it, where a literal outdoes a parameter and both outdo * |
| Router.ComputeSpecificity | packages/http/src/router/router.ts:295-304 | the score of a path is the sum over its parts of their kind and one |
| Router.ScoreCounts | packages/http/src/router/router.ts:295-304 | the score is four per literal, three per parameter and two per * segment |
| ShutdownProcess.ShutdownIsPhased | packages/runtime/src/shutdown/shutdown.manager.ts:35-126 | in every interleaving of settling participants, the timeout, late phases and repeated calls: nobody is disposed of before all earlier phases settled, everyone of a phase before any of it settles, nobody twice, results name the phases in order with exactly those who threw, and what is returned is a prefix whose error total is the number of participants of these phases that threw, all of the phases when not timed out |
| ShutdownProcess.FailuresAt | packages/runtime/src/shutdown/shutdown.manager.ts:90-126 | a phase's errors are listed in the order in which its participants threw, and are all of them |
| ShutdownProcess.LiveResultAddsUpIff | packages/runtime/src/shutdown/shutdown.manager.ts:76-84 | after a timeout the returned object's errors still add up to its total exactly while no later phase had an error |
| ShutdownProcess.LiveResultDrifts | packages/runtime/src/shutdown/shutdown.manager.ts:50-84 | one slow failing participant: the timeout returns no error and the same object shows one later |
| ShutdownManager.ShutdownManager.RunPhase | packages/runtime/src/shutdown/shutdown.manager.ts:90-115 | starts every participant of the next phase before any settles, exactly as the process says |

## Left out

- EventBus.InvStep: takes each SQL statement as atomic; the statement's own snapshot is treated only in SnapshotClaim, and row locks only as an arbitrary set of rows that a claim passes over.
- EventBus.DedupWindow: dedup lasts only while the row lives, so exactly-once delivery is not claimed; neither is order within an aggregate.
- Guarantees.AckIsSound: speaks of the handlers registered by the acknowledging replica at that moment; the handler list is live and may grow during a dispatch.
- Guarantees.NoMessageLost: outbox row ids are fresh and never equal an origin key chosen by a direct publisher.
- OutboxInsert.InsertReadsBack: the statement's line breaks are single spaces here.
- Delivery.DeliveryHappens: that messages do arrive is shown by one run; fairness of timers, pools and the scheduler is not modelled.
- FilterMeaning.FilterClauseMeans: the order of column types and casts are abstract, and so is ILIKE until LikePatterns gives it a meaning; ANY and ALL over something that is not a list, an error in Postgres, is unknown.
- WhereClause.WhereMeansConjunction: a raw fragment must be free of comments, of `$` and of strings with a prefix such as E'...', must say something, must close its parentheses without closing more, and must have no logical operator inside square brackets; the lexer does not follow Unicode identifiers.
- QueryBuilder.EmittedWhereMeans: columns that read as AND, OR, NOT, BETWEEN, CASE or END are excluded; other reserved words that Postgres would reject are not.
- Pagination.TotalIsRowCountIff: ORDER BY is an arbitrary arrangement of the rows and the projection only aggregates or not; what parseSort, select validation and orderBy accept is not modelled.
- Pagination.ParsePagination: blanks are space, tab and line ends, and numbers are unbounded, so the precision of parseInt beyond 2^53 is not modelled.
- WriteTexts.BuildUpdate: columns and table names are taken as written, as the adapter does, and JSON.stringify is an arbitrary function of the value.
- WriteStatements.LockMeans: the comparison of the stored timestamp with the expected one is left abstract in the text; LockedWrites says what it compares.
- WriteReadBack.UpdateManyReads: table and column names are unquoted identifiers other than SET, FROM, AS, WHERE, VALUES and RETURNING, in any case; the same holds for the other statements read back.
- WriteEffects.InsertRuns: speaks of rows whose keys include the id; an id that the database generates is not modelled, and an id column of a JSON type is excluded.
- WriteEffects.BulkRunIs: casts are taken to keep the value.
- RowVersions.NoLostUpdateIff: timestamps are whole microseconds and the clock may stand still or go back.
- UnitOfWorkTrace.Atomic: the outcome of COMMIT is known to the client; a ROLLBACK that fails itself and a connection lost in between are not modelled.
- UnitOfWorkObjects.UnitOfWork.Transaction: the async context is a field, so two transactions of one unit of work running at the same time are not modelled.
- Mapper.RoundTripIffKeysReturn: createPersistence and createDomain overrides, properties whose names collide with Object.prototype, and integer-like keys, which JavaScript reorders, are left out.
- Router.BuildRoutes: auth stacks, middleware chains and decorator metadata are left out, they only add members that follow one body.
- ShutdownProcess.ShutdownIsPhased: durations, names in emitted events and the observer are left out.
- The filters() merge, schema coercion of query values, INSERT and DELETE schema errors and the read adapters are left out: each follows from one body.
- The stale sweep at the start of a tick is one of the statements any client may issue at any time.
- Caches of column types, logging, execution context propagation, timers and connection pools are left out.
