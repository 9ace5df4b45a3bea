# Event-sourced repositories in Dafny

This project models the event-sourcing core of `playground-event-sourcing`.

An aggregate is never stored. It is rebuilt on every read by folding the
aggregate's events, ordered by `(created_utc, id)`, through one apply
function per event type. Commands append events. In the command/query
example, a command's writes and the projection update share one
transaction.

The modules follow the source files:

| module | file | source |
|---|---|---|
| `Common` | `common.dfy` | `Option`, `Result` and the errors the source throws |
| `EventStore` | `event_store.dfy` | the event table: `InsertEvent` (a class over the rows and the auto-increment id) and the `WHERE aggregate_id = ? ORDER BY created_utc, id` read |
| `AggregateBase` | `aggregate_base.dfy` | `src/repository/AggregateBase.ts`: the apply-function registry and the `GetById` loop |
| `BasketRepository` | `basket.dfy` | `src/repository/BasketRepository.ts`: the three basket reducers and the three commands |
| `EventSourcingBase` | `event_sourcing_base.dfy` | `users-repository-example/EventSourcingBase.ts`: reducer lookup by the name `"Apply" + CamelCase(eventType)` |
| `UsersRepository` | `users_repository.dfy` | `users-repository-example/UsersRepository.ts` |
| `Transactions` | `transactions.dfy` | a connection as the trace of calls made on it, and what BEGIN, COMMIT, ROLLBACK, writes and `quit` do to the database |
| `CommandQuery` | `command_query.dfy` | `examples/CommandQuerySeparationExample.ts`: its `WithTransaction` (rethrows) and the three handlers |
| `UsersDatabase` | `users_database.dfy` | `users-repository-example/Database.ts`: `WithConnection` and a `WithTransaction` that swallows failures |

Modelling conventions:

- JavaScript `undefined` is `None`.
- A thrown error is `Err`.
- Truthiness, `find`, `findIndex` and `splice` are written out with their
  JavaScript edge cases.
- The clock, `uuid` and the results of the database calls are parameters.

## Model

| member | source | states |
|---|---|---|
| EventStore.RowsOf | src/repository/AggregateBase.ts:12-15 | the rows selected for an id belong to that id, every row of that id is selected, and nothing is added |
| EventStore.SortByKey | src/repository/AggregateBase.ts:14 | `ORDER BY created_utc, id` yields a permutation of its input, sorted by the key |
| EventStore.SelectOrdered | src/repository/AggregateBase.ts:10-16 | the query result is key-sorted, holds only the requested aggregate, and is a permutation of that aggregate's rows |
| EventStore.SortSorted | src/repository/AggregateBase.ts:14 | ordering rows that are already in key order changes nothing |
| EventStore.RowsOfSorted | src/repository/AggregateBase.ts:12-15 | filtering a key-sorted table by aggregate keeps it sorted |
| EventStore.SelectOrderedAppendOther | src/repository/AggregateBase.ts:12-15 | an event of another aggregate does not change what this aggregate reads |
| EventStore.SelectOrderedAppendLatest | src/repository/AggregateBase.ts:14 | a row whose key is not below any key of its aggregate is read last, after the earlier read unchanged |
| EventStore.EventTable.InsertEvent | src/repository/AggregateBase.ts:39-46 | appends exactly one row with the next id and the given time; stored rows are untouched; ids keep increasing; a rejected INSERT throws a storage error and stores nothing |
| EventStore.InsertedReadLast | src/repository/AggregateBase.ts:39-46 | with a clock that does not run backwards, the event just inserted is read back last |
| EventStore.InsertedFirst | src/repository/AggregateBase.ts:39-46 | after an insert the aggregate reads at least one row; the first row of a new aggregate is all it reads |
| AggregateBase.ApplyRow | src/repository/AggregateBase.ts:26-32 | an event type with no registered apply function fails with that event type |
| AggregateBase.Rehydrate | src/repository/AggregateBase.ts:18-36 | the aggregate is absent exactly when it has no events |
| AggregateBase.FoldAppend | src/repository/AggregateBase.ts:25-34 | folding a concatenation folds the second part from the state the first part left |
| AggregateBase.FoldOkAllRegistered | src/repository/AggregateBase.ts:25-34 | a successful fold found a registered apply function for every row; no row is skipped |
| AggregateBase.FirstUnregisteredFails | src/repository/AggregateBase.ts:26-29 | the first unregistered row the fold reaches ends it with that row's event type |
| AggregateBase.RehydrateAppend | src/repository/AggregateBase.ts:18-36 | a read ending in a new row equals the earlier read with that row's apply function applied |
| AggregateBase.ReadAfterInsert | src/repository/AggregateBase.ts:9-46 | with a monotone clock, `GetById` after `InsertEvent` is the previous read with the new event applied |
| AggregateBase.RehydrateSingle | src/repository/AggregateBase.ts:18-36 | one row rehydrates to its apply function applied to `{ id }` |
| AggregateBase.ReadAfterFirstInsert | src/repository/AggregateBase.ts:9-46 | after an insert the aggregate is present; for a new id it is the first event applied to `{ id }` |
| AggregateBase.GetById | src/repository/AggregateBase.ts:9-37 | a rejected SELECT throws a storage error; otherwise the loop returns the fold of the ordered rows: absent for no rows, the first failure, or the final state |
| BasketRepository.FindProduct | src/repository/BasketRepository.ts:58 | `find` returns the first entry with that product id, or none exactly when no entry has it |
| BasketRepository.FindTruthyIndex | src/repository/BasketRepository.ts:71 | `findIndex((x) => x.productId)` returns the first entry whose id is truthy, or -1 exactly when no id is |
| BasketRepository.Splice1 | src/repository/BasketRepository.ts:72 | `splice(start, 1)` deletes one entry, counting a negative start from the end; a start past the end deletes nothing; a start before the beginning deletes the first entry |
| BasketRepository.ApplyBasketCreatedV1 | src/repository/BasketRepository.ts:46-53 | the basket keeps its id, has an empty product list, and is created and updated at the event's time |
| BasketRepository.ApplyItemAddedV1 | src/repository/BasketRepository.ts:55-65 | fails with a `TypeError` exactly when the basket was never created; otherwise keeps id and created, sets updated to the event time, and changes the list as `AddToProducts` (see `AddToProductsSpec`) |
| BasketRepository.ApplyItemRemovedV1 | src/repository/BasketRepository.ts:67-79 | fails with a `TypeError` exactly when the basket was never created; otherwise keeps id and created, sets updated to the event time, and changes the list by the removal as written (`RemoveFromProductsAsWritten`, see Findings) |
| BasketRepository.AddToProductsSpec | src/repository/BasketRepository.ts:58-62 | adding raises that product's quantity by one, leaves every other quantity unchanged, and keeps ids distinct and amounts positive |
| BasketRepository.RemoveFromProductsAsWritten | src/repository/BasketRepository.ts:69-77 | an absent product leaves the list unchanged; otherwise the list shrinks by one entry exactly when the matching entry's amount is 1, and keeps its length when it is decremented |
| BasketRepository.RemoveFromProductsSpec | src/repository/BasketRepository.ts:69-77 | intended removal: that product's quantity drops by one when present, every other quantity is unchanged, and the list stays well formed |
| BasketRepository.RemoveFromProductsAsWrittenSpec | src/repository/BasketRepository.ts:69-77 | removal as written keeps the list well formed; an absent product changes nothing; an amount above 1 gives the intended removal and keeps every entry's product id at its position; an amount of 1 drops one entry |
| BasketRepository.RemoveAsWrittenAgrees | src/repository/BasketRepository.ts:70-72 | when the matching entry is the first with a truthy id, the as-written removal is the intended one |
| BasketRepository.RemoveAsWrittenDeletesWrongEntry | src/repository/BasketRepository.ts:71-72 | removing `b` from `[a:1, b:1]` leaves `[b:1]` as written, where `[a:1]` is intended |
| BasketRepository.ApplyBasketEventValid | src/repository/BasketRepository.ts:46-79 | every registered reducer keeps product ids distinct and amounts at least 1 |
| BasketRepository.FoldValid | src/repository/BasketRepository.ts:46-79 | a fold of any events from a valid basket yields a valid basket |
| BasketRepository.LoadValid | src/repository/BasketRepository.ts:20-22 | whatever is stored, a loaded basket carries the requested id and a well-formed product list |
| BasketRepository.FoldKeepsId | src/repository/BasketRepository.ts:46-79 | no reducer changes the basket id |
| BasketRepository.ItemBeforeCreatedFails | src/repository/BasketRepository.ts:58 | events whose first is an item event, whatever follows, fail to load with the `find` `TypeError` |
| BasketRepository.CreateAddAddAddScenario | test/BasketRepository.integration.test.ts:17-37 | created, then the first product added once and the second twice: two entries, with amounts 1 and 2 |
| BasketRepository.CreateAddRemoveScenario | test/BasketRepository.integration.test.ts:39-55 | created, then a product added and removed: an empty product list |
| BasketRepository.CreateAddAddAddCommands | test/BasketRepository.integration.test.ts:17-37 | `CreateBasket`, then three `AddProduct` calls on an empty table, all at one instant: `GetById` reads back two entries, with amounts 1 and 2 |
| BasketRepository.CreateAddRemoveCommands | test/BasketRepository.integration.test.ts:39-55 | `CreateBasket`, `AddProduct` and `RemoveProduct` of the same product on an empty table: `GetById` reads back an empty product list |
| BasketRepository.Registered | src/repository/BasketRepository.ts:13-15 | the constructor registers exactly the three event types, each with its own reducer |
| BasketRepository.CreatedLoad | src/repository/BasketRepository.ts:26-34 | after a created event the basket is present; under a fresh id it is empty, created and updated at that time |
| BasketRepository.LoadIgnoresOtherBaskets | src/repository/BasketRepository.ts:20-22 | another basket's events never change what a basket loads |
| BasketRepository.BasketRepository.GetById | src/repository/BasketRepository.ts:20-22 | a rejected SELECT throws a storage error; otherwise the load of the stored rows; a present basket is valid and carries the requested id |
| BasketRepository.BasketRepository.CreateBasket | src/repository/BasketRepository.ts:26-34 | a rejected INSERT throws and stores nothing; otherwise appends one created event under the new id, after which the basket is never absent; a rejected SELECT then throws; otherwise under a fresh id it returns the empty created basket |
| BasketRepository.BasketRepository.AddProduct | src/repository/BasketRepository.ts:36-38 | a rejected INSERT throws and stores nothing; otherwise appends one `item_added_v1` event, and with a monotone clock the next read is the previous read with the add applied |
| BasketRepository.BasketRepository.RemoveProduct | src/repository/BasketRepository.ts:40-42 | a rejected INSERT throws and stores nothing; otherwise appends one `item_removed_v1` event, and with a monotone clock the next read is the previous read with the removal as written applied |
| EventSourcingBase.Split | users-repository-example/EventSourcingBase.ts:58 | `split("_")` yields at least one piece |
| EventSourcingBase.Capitalize | users-repository-example/EventSourcingBase.ts:60 | upper-casing the first letter keeps the length |
| EventSourcingBase.SplitJoin | users-repository-example/EventSourcingBase.ts:58 | joining the pieces with `_` restores the input; there is one more piece than underscores; no piece holds `_` |
| EventSourcingBase.SplitOfJoin | users-repository-example/EventSourcingBase.ts:58 | splitting pieces joined with `_` (none holding `_`) returns those pieces |
| EventSourcingBase.CamelCaseIsCamelFrom | users-repository-example/EventSourcingBase.ts:57-62 | split-then-capitalise equals a character-by-character reference that drops `_` and upper-cases the letter after it |
| EventSourcingBase.CamelCaseReference | users-repository-example/EventSourcingBase.ts:57-62 | camel-casing equals the character-by-character reference |
| EventSourcingBase.CamelCaseShape | users-repository-example/EventSourcingBase.ts:57-62 | the camel-cased name holds no `_` and is shorter than the input by the number of underscores |
| EventSourcingBase.BuildApplyFunctionName | users-repository-example/EventSourcingBase.ts:53-55 | the name starts with `Apply` and is never longer than `Apply` plus the event type |
| EventSourcingBase.ApplyFunctionNameReference | users-repository-example/EventSourcingBase.ts:53-62 | the name is `Apply` followed by the character-by-character reference conversion of the event type |
| EventSourcingBase.ApplyFunctionNameShape | users-repository-example/EventSourcingBase.ts:53-55 | the apply-function name holds no `_` and has length 5 + \|eventType\| − underscores |
| EventSourcingBase.UserCreatedName | users-repository-example/EventSourcingBase.ts:53-62 | `user_created_v1` splits into `user`, `created`, `v1` and names `ApplyUserCreatedV1` |
| EventSourcingBase.NameCollision | users-repository-example/EventSourcingBase.ts:53-62 | `user_created`, `user__created` and `User_created` all name the same function `ApplyUserCreated` |
| EventSourcingBase.NameOfTwoPieces | users-repository-example/EventSourcingBase.ts:53-62 | a type `first_second` without further underscores names `Apply` followed by both pieces capitalised |
| EventSourcingBase.LeadingCapitalCollides | users-repository-example/EventSourcingBase.ts:53-62 | `User_created` and `user_created` name the same function |
| EventSourcingBase.ConvertToCamelCase | users-repository-example/EventSourcingBase.ts:57-62 | the loop over the pieces returns the camel-cased name, equal to the character-by-character reference |
| EventSourcingBase.ApplyRow | users-repository-example/EventSourcingBase.ts:42-48 | a name with no member fails with that function name |
| EventSourcingBase.Rehydrate | users-repository-example/EventSourcingBase.ts:6-12 | absent exactly when `GetRows` returned no rows |
| EventSourcingBase.ApplyRowsAppend | users-repository-example/EventSourcingBase.ts:41-49 | applying a concatenation applies the second part to the instance the first part left |
| EventSourcingBase.MissingMemberStops | users-repository-example/EventSourcingBase.ts:43-46 | the first row with no member that the loop reaches ends it with that function's name |
| EventSourcingBase.ApplyRowsOkAllFound | users-repository-example/EventSourcingBase.ts:41-49 | a successful replay found a member for every row |
| EventSourcingBase.ApplyEventRows | users-repository-example/EventSourcingBase.ts:38-51 | the loop replays the rows in order from `{ id: rows[0].aggregate_id }` |
| EventSourcingBase.GetById | users-repository-example/EventSourcingBase.ts:6-12 | no rows: absent; otherwise the replay of the rows |
| UsersRepository.ApplyUserCreatedV1 | users-repository-example/UsersRepository.ts:19-29 | keeps the id, takes email and name from the event and created/createdBy from the row; updated is now, by the row's author |
| UsersRepository.UserCreatedDispatch | users-repository-example/UsersRepository.ts:19 | `user_created_v1` finds the member `ApplyUserCreatedV1` |
| UsersRepository.AllCreatedLastWins | users-repository-example/UsersRepository.ts:19-29 | replaying creations yields the last one applied; each overwrites the one before |
| UsersRepository.LoadCreated | users-repository-example/EventSourcingBase.ts:38-51 | no rows: absent; all creations: the user of the last one, under the first row's id |
| UsersRepository.UnknownEventFails | users-repository-example/EventSourcingBase.ts:43-46 | a first row whose name is not `ApplyUserCreatedV1` fails with that missing name |
| UsersRepository.UsersRepository.Create | users-repository-example/UsersRepository.ts:12-16 | a rejected INSERT throws and stores nothing; otherwise appends exactly one `user_created_v1` event with name and email under the new id, and returns that id |
| UsersRepository.UsersRepository.GetById | users-repository-example/EventSourcingBase.ts:6-12 | the replay of the rows: absent exactly when there are none; the last created user when all rows are creations |
| Transactions.TxEntries | examples/CommandQuerySeparationExample.ts:194-204 | BEGIN first; if it throws, nothing else; otherwise the body's calls right after it |
| Transactions.TxControl | examples/CommandQuerySeparationExample.ts:194-204 | one completed COMMIT exactly when committed, otherwise none; one completed ROLLBACK exactly when begun, not committed and the rollback succeeds; a ROLLBACK is attempted whenever it began and was not committed |
| Transactions.TxAtomic | examples/CommandQuerySeparationExample.ts:194-204 | all or nothing: committed, all the body's writes take effect; otherwise none does, and after a completed ROLLBACK the database is unchanged |
| CommandQuery.RethrowOutcome | examples/CommandQuerySeparationExample.ts:194-204 | returns a value exactly when committed; otherwise rethrows the BEGIN error, the body's or COMMIT's error, or the ROLLBACK error |
| CommandQuery.WithTransaction | examples/CommandQuerySeparationExample.ts:194-204 | makes exactly the scope's calls and returns what it promises, rethrowing after ROLLBACK |
| CommandQuery.CreateTeamBody | examples/CommandQuerySeparationExample.ts:46-56 | reads and writes only; succeeds exactly when create, getByIdOrThrow and update all succeed; returns the created id; writes team then projection |
| CommandQuery.CreateTeam | examples/CommandQuerySeparationExample.ts:30-60 | makes exactly the handler's calls and returns its outcome |
| CommandQuery.CreateTeamValidatesFirst | examples/CommandQuerySeparationExample.ts:35-43 | a taken name or a missing owner fails with its message before any transaction or write |
| CommandQuery.CreateTeamAtomic | examples/CommandQuerySeparationExample.ts:45-58 | success commits the team and its projection together; failure commits neither |
| CommandQuery.UpdateTeamNameBody | examples/CommandQuerySeparationExample.ts:89-95 | reads and writes only; on success writes the name, then the projection |
| CommandQuery.UpdateTeamName | examples/CommandQuerySeparationExample.ts:73-97 | makes exactly the handler's calls and returns its outcome |
| CommandQuery.UpdateTeamNameValidatesFirst | examples/CommandQuerySeparationExample.ts:78-86 | no team found under the name looked up fails with its message before any write |
| CommandQuery.UpdateTeamNameAtomic | examples/CommandQuerySeparationExample.ts:88-95 | success commits the new name and the projection together; failure commits neither |
| CommandQuery.FindTeams | examples/CommandQuerySeparationExample.ts:108-115 | one lookup and no writes; returns its rows, or its error |
| UsersDatabase.SwallowOutcome | users-repository-example/Database.ts:25-34 | a value exactly when committed; errors only from BEGIN or ROLLBACK; `undefined` where the rethrowing scope would throw the rolled-back failure |
| UsersDatabase.WithTransaction | users-repository-example/Database.ts:25-34 | makes the same calls as the rethrowing scope and returns what the swallowing scope promises |
| UsersDatabase.ConnectionTrace | users-repository-example/Database.ts:11-23 | a body that does not quit leaves the connection released exactly when the body returned |
| UsersDatabase.WithConnection | users-repository-example/Database.ts:11-23 | a new connection; the body's calls, then `quit` only if it returned; the body's result or error passed on |
| UsersDatabase.NestedScopesRelease | users-repository-example/Database.ts:11-34 | around the swallowing scope, the connection is released unless BEGIN or the ROLLBACK threw; when not committed, nothing the body wrote took effect |

## Left out

- The MySQL driver, SQL text, connection configuration, the logger and `async`
  scheduling are not modelled.
  - The event table's INSERT and SELECT are modelled as operations on the
    table's rows. Each carries a `fault` parameter: the database rejecting that
    call. A rejected call throws `Storage` and changes nothing. Which calls fail
    is chosen by the caller; why they fail is not modelled.
  - In the transaction scopes and the command/query handlers, a database
    call is one entry in a connection's trace.
  - The rows a query returns, and the answers of the team and user
    repositories, are parameters.
  - The lookup and projection stubs are such parameters.
  - The users example's `GetRows` is not part of this model: its
    `GetById` takes the rows `GetRows` returned, so a failing read there is
    not modelled.
- `uuid` `v4()` is the `freshId` parameter. Its freshness is an explicit
  hypothesis where a contract relies on it.
- `new Date()` is a `now` parameter.
  - It is one value per command.
  - In `ApplyUserCreatedV1` it is one value per replay.
- Timestamps are integers.
- The JSON `event_data` round trip is taken to restore the payload. The data is
  stored as a typed value.
- `(this as any)[fnName]` in `EventSourcingBase` can reach any member of the
  object; the model's lookup sees only the declared apply functions. So can
  `ApplyFunctions[row.event_type]`, which also finds keys inherited from
  `Object.prototype` (such as `constructor`); the model's lookup does not.
- `toUpperCase` is ASCII only. Characters whose upper case is longer (such as
  `ß`) are not modelled.
- The reducers change `before.products` in place, and the result shares that
  array. The model builds new values instead. Every fold step discards the old
  state, so the result is the same, but the aliasing itself is not captured.
- The aggregate `version` counter is not modelled: no reducer in the source
  sets it.
- The users example writes rows with `created_utc` but reads
  `inserted_utc`/`inserted_by`. The model does not connect the table `Create`
  writes to the rows `GetById` replays.
- `src/Database.ts`, `users-repository-example/Example.ts` and
  `IBasketRepository` are drivers and types only, and are not modelled.
- Concurrent commands against one aggregate are not modelled. The source has
  no optimistic-concurrency check.
- The command/query example's own `WithConnection` (lines 184-192) is not
  modelled. It runs its function on a connection that it never releases, and
  its handlers take that connection as a parameter.
- `quit` is taken to complete. A failing `quit` is not modelled.
- EventSourcingBase.ApplyEventRows: requires at least one row, because
  it reads `rows[0]`. Its only caller, `GetById`, has already returned on no
  rows.
- BasketRepository.BasketRepository.AddProduct: the read-after-write equation
  assumes no stored event of the basket is later than `now`.
  - A clock that runs backwards sorts the new event earlier, and the equation
    does not hold.
  - The same holds for `BasketRepository.BasketRepository.RemoveProduct` and
    `AggregateBase.ReadAfterInsert`.
- CommandQuery.UpdateTeamNameCalls: the code looks up the team by the
  command's new name, not by its id. Its message speaks of the id. The model
  follows the code.

## Findings

| source | as written | input that shows it | evidently intended | confidence | as-written member | corrected member |
|---|---|---|---|---|---|---|
| src/repository/BasketRepository.ts:71 | when the removed product's amount is 1, `splice` deletes at `findIndex((x) => x.productId)`, i.e. the first entry with a truthy product id (or, with none, the last entry) | products `[a:1, b:1]`, remove `b`: the result is `[b:1]` | delete the entry of the product being removed, giving `[a:1]` | not executed | BasketRepository.RemoveAsWrittenDeletesWrongEntry | BasketRepository.RemoveFromProductsSpec |

The registered `item_removed_v1` reducer, and so every basket load, uses the
removal as written (`RemoveFromProductsAsWritten`), as the repository does.
`RemoveFromProducts` is the corrected definition. `RemoveFromProductsSpec`
proves the intended quantity property about it. `RemoveAsWrittenAgrees` states
when the two coincide: the removed product's entry is the first entry with a
truthy id. That holds in the second integration test, which removes the only
product.
